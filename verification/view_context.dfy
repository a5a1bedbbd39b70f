/** `ViewContext` (crud_views/lib/view/context.py): the pair of a view and
    an optional model instance handed to snippet rendering. Template code
    passes "no object" as the empty string, which the before-validator turns
    into `None`; pydantic then admits only a model instance or `None`. */
module ViewContext {
  import opened Common

  /** A model instance, by the string forms of its `pk` and `id`. */
  datatype ModelObject = ModelObject(pk: string, id: string)

  /** The raw `object` argument: `None`, a string, or a model instance. */
  datatype RawObject = PyNone | PyStr(s: string) | Instance(inst: ModelObject)

  datatype Context<V> = Context(view: V, obj: Option<ModelObject>)

  /** `validate_object` (mode="before"): "" becomes None, anything else is kept. */
  function ValidateObject(value: RawObject): (r: RawObject)
    ensures value == PyStr("") ==> r == PyNone
    ensures value != PyStr("") ==> r == value
  {
    if value == PyStr("") then PyNone else value
  }

  /** Building a `ViewContext`: the before-validator, then the `Model | None`
      type check, which refuses any other string. */
  function MakeContext<V>(view: V, value: RawObject): (r: Result<Context<V>>)
    ensures r.Ok? <==> !(value.PyStr? && value.s != "")
    ensures r.Ok? ==> r.value.view == view
    ensures r.Ok? ==> (r.value.obj.None? <==> value in {PyNone, PyStr("")})
    ensures value.Instance? ==> r == Ok(Context(view, Some(value.inst)))
  {
    match ValidateObject(value)
    case PyNone => Ok(Context(view, None))
    case Instance(o) => Ok(Context(view, Some(o)))
    case PyStr(s) => Err(ValueError("object must be a model instance or None"))
  }

  /** `to_dict`: exactly one key, "object", holding the normalised object. */
  function ToDict<V>(ctx: Context<V>): (d: map<string, Option<ModelObject>>)
    ensures d.Keys == {"object"}
    ensures d["object"] == ctx.obj
  {
    map["object" := ctx.obj]
  }

  /** The empty string and `None` give the same context, hence the same dict. */
  lemma EmptyStringIsNoObject<V>(view: V)
    ensures MakeContext(view, PyStr("")) == MakeContext(view, PyNone)
    ensures ToDict(MakeContext(view, PyStr("")).value) == map["object" := None]
  {
  }
}
