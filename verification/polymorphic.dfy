/** The polymorphic-model helpers (crud_views_polymorphic/lib/utils.py):
    enumerating the subclasses of a polymorphic model, and the mixin that
    picks the concrete model and its form from a content-type id. A model
    class is a tree of its subclasses in `__subclasses__()` order; content
    types are a map from ids to the model class they name. */
module Polymorphic {
  import opened Common

  /** A model class: its name, whether it is a `PolymorphicModel`, and its
      direct subclasses in definition order. */
  datatype ModelClass = ModelClass(name: string, polymorphic: bool, subclasses: seq<ModelClass>)

  /** The number of classes in a hierarchy, the root included. */
  function Size(m: ModelClass): nat
    decreases m, 1
  {
    1 + SizeFrom(m, 0)
  }

  function SizeFrom(m: ModelClass, i: nat): nat
    requires i <= |m.subclasses|
    decreases m, 0, |m.subclasses| - i
  {
    if i == |m.subclasses| then 0 else Size(m.subclasses[i]) + SizeFrom(m, i + 1)
  }

  /** The recursive generator `subclasses(m)`: each direct subclass, then
      everything the generator yields for it. */
  function Subclasses(m: ModelClass): (r: seq<ModelClass>)
    ensures r == [] <==> m.subclasses == []
    ensures |m.subclasses| > 0 ==> r[0] == m.subclasses[0]
    decreases m, 1
  {
    SubclassesFrom(m, 0)
  }

  /** What the generator yields from the `i`-th direct subclass on. */
  function SubclassesFrom(m: ModelClass, i: nat): seq<ModelClass>
    requires i <= |m.subclasses|
    decreases m, 0, |m.subclasses| - i
  {
    if i == |m.subclasses| then []
    else [m.subclasses[i]] + Subclasses(m.subclasses[i]) + SubclassesFrom(m, i + 1)
  }

  /** `get_polymorphic_child_models(model)`. */
  function GetChildModels(m: ModelClass): (r: Result<seq<ModelClass>>)
    ensures r.Err? <==> !m.polymorphic
    ensures r.Err? ==> r.error.AssertionError?
    ensures r.Ok? ==> r.value == Subclasses(m)
    ensures m.polymorphic && m.subclasses == [] ==> r == Ok([])
  {
    if !m.polymorphic then Err(AssertionError("not a polymorphic model"))
    else Ok(Subclasses(m))
  }

  /** `d` is a proper descendant of `m`: a direct subclass or one of its
      descendants. */
  predicate Below(m: ModelClass, d: ModelClass)
    decreases m
  {
    exists i :: 0 <= i < |m.subclasses| && (m.subclasses[i] == d || Below(m.subclasses[i], d))
  }

  predicate BelowFrom(m: ModelClass, i: nat, d: ModelClass)
    requires i <= |m.subclasses|
  {
    exists k :: i <= k < |m.subclasses| && (m.subclasses[k] == d || Below(m.subclasses[k], d))
  }

  lemma {:induction false} SubclassesFromIff(m: ModelClass, i: nat, d: ModelClass)
    requires i <= |m.subclasses|
    ensures d in SubclassesFrom(m, i) <==> BelowFrom(m, i, d)
    decreases m, 0, |m.subclasses| - i
  {
    if i < |m.subclasses| {
      SubclassesIff(m.subclasses[i], d);
      SubclassesFromIff(m, i + 1, d);
      if BelowFrom(m, i, d) {
        var k :| i <= k < |m.subclasses| && (m.subclasses[k] == d || Below(m.subclasses[k], d));
        if k > i { assert BelowFrom(m, i + 1, d); }
      }
    }
  }

  /** The generator yields exactly the transitive subclasses. */
  lemma {:induction false} SubclassesIff(m: ModelClass, d: ModelClass)
    ensures d in Subclasses(m) <==> Below(m, d)
    decreases m, 1
  {
    SubclassesFromIff(m, 0, d);
  }

  lemma {:induction false} SubclassesFromSmaller(m: ModelClass, i: nat)
    requires i <= |m.subclasses|
    ensures |SubclassesFrom(m, i)| == SizeFrom(m, i)
    ensures forall d :: d in SubclassesFrom(m, i) ==> Size(d) <= SizeFrom(m, i)
    decreases m, 0, |m.subclasses| - i
  {
    if i < |m.subclasses| {
      SubclassesSmaller(m.subclasses[i]);
      SubclassesFromSmaller(m, i + 1);
    }
  }

  /** One entry per class below the model, each strictly smaller than the
      model; in particular the model itself is never listed. */
  lemma {:induction false} SubclassesSmaller(m: ModelClass)
    ensures |Subclasses(m)| == Size(m) - 1
    ensures forall d :: d in Subclasses(m) ==> Size(d) < Size(m)
    ensures m !in Subclasses(m)
    decreases m, 1
  {
    SubclassesFromSmaller(m, 0);
  }

  lemma SliceLeft<T>(a: seq<T>, b: seq<T>, lo: nat, hi: nat)
    requires lo <= hi <= |a|
    ensures (a + b)[lo..hi] == a[lo..hi]
  {
  }

  lemma SliceRight<T>(a: seq<T>, b: seq<T>, lo: nat, hi: nat)
    requires lo <= hi <= |b|
    ensures (a + b)[|a| + lo..|a| + hi] == b[lo..hi]
  {
  }

  /** Pre-order within the `i`-th slice: every listed class is immediately
      followed by its own subclasses. */
  lemma {:induction false} PreOrderFrom(m: ModelClass, i: nat, p: nat)
    requires i <= |m.subclasses| && p < |SubclassesFrom(m, i)|
    ensures var s := SubclassesFrom(m, i);
            && p + 1 + |Subclasses(s[p])| <= |s|
            && s[p + 1..p + 1 + |Subclasses(s[p])|] == Subclasses(s[p])
    decreases m, 0, |m.subclasses| - i
  {
    var c := m.subclasses[i];
    var head := [c] + Subclasses(c);
    var tail := SubclassesFrom(m, i + 1);
    assert SubclassesFrom(m, i) == head + tail;
    if p < |head| {
      PreOrderInHead(c, tail, p);
    } else {
      var q: nat := p - |head|;
      PreOrderFrom(m, i + 1, q);
      TailShift(head, tail, q, |Subclasses(tail[q])|);
    }
  }

  /** Pre-order within the part a direct subclass `c` contributes: `c`
      itself, then its own list. */
  lemma {:induction false} PreOrderInHead(c: ModelClass, tail: seq<ModelClass>, p: nat)
    requires p < 1 + |Subclasses(c)|
    ensures var s := [c] + Subclasses(c) + tail;
            && p + 1 + |Subclasses(s[p])| <= |s|
            && s[p + 1..p + 1 + |Subclasses(s[p])|] == Subclasses(s[p])
    decreases c, 2
  {
    var sc := Subclasses(c);
    var head := [c] + sc;
    if p == 0 {
      SliceLeft(head, tail, 1, 1 + |sc|);
      SliceRight([c], sc, 0, |sc|);
    } else {
      PreOrder(c, p - 1);
      var x := sc[p - 1];
      var n := |Subclasses(x)|;
      assert (head + tail)[p] == x;
      SliceLeft(head, tail, p + 1, p + 1 + n);
      SliceRight([c], sc, p, p + n);
    }
  }

  lemma TailShift<T>(head: seq<T>, tail: seq<T>, q: nat, n: nat)
    requires q + 1 + n <= |tail|
    ensures (head + tail)[|head| + q] == tail[q]
    ensures (head + tail)[|head| + q + 1..|head| + q + 1 + n] == tail[q + 1..q + 1 + n]
  {
    SliceRight(head, tail, q + 1, q + 1 + n);
  }

  /** The list is in pre-order: each class is immediately followed by its
      own subclasses. */
  lemma {:induction false} PreOrder(m: ModelClass, p: nat)
    requires p < |Subclasses(m)|
    ensures var s := Subclasses(m);
            && p + 1 + |Subclasses(s[p])| <= |s|
            && s[p + 1..p + 1 + |Subclasses(s[p])|] == Subclasses(s[p])
    decreases m, 1
  {
    PreOrderFrom(m, 0, p);
  }

  // ---------------------------------------------------------------------
  // `int(...)` on a string

  predicate IsAsciiDigit(c: char) { '0' <= c <= '9' }

  /** The digit part `int()` accepts: ASCII digits, with single underscores
      allowed between two digits. */
  predicate DigitBody(s: string) {
    && |s| > 0 && IsAsciiDigit(s[0]) && IsAsciiDigit(s[|s| - 1])
    && (forall i :: 0 <= i < |s| ==> IsAsciiDigit(s[i]) || s[i] == '_')
    && (forall i :: 0 <= i < |s| - 1 ==> !(s[i] == '_' && s[i + 1] == '_'))
  }

  /** The decimal value of a digit part, underscores skipped. */
  function DigitsValue(s: string): nat
    decreases |s|
  {
    if |s| == 0 then 0
    else if s[|s| - 1] == '_' || !IsAsciiDigit(s[|s| - 1]) then DigitsValue(s[..|s| - 1])
    else DigitsValue(s[..|s| - 1]) * 10 + (s[|s| - 1] as int - '0' as int)
  }

  /** The text after an optional leading sign. */
  function Unsigned(t: string): string {
    if |t| > 0 && (t[0] == '-' || t[0] == '+') then t[1..] else t
  }

  /** `int(s)` for a string: surrounding whitespace, then an optional sign,
      then a digit part; anything else is a ValueError. */
  function ParseInt(s: string): (r: Result<int>)
    ensures r.Ok? <==> DigitBody(Unsigned(Strip(s)))
    ensures r.Err? ==> r.error.ValueError?
    ensures r.Ok? ==> var v := DigitsValue(Unsigned(Strip(s)));
                      r.value == if Strip(s)[0] == '-' then -(v as int) else v
  {
    var t := Strip(s);
    var body := Unsigned(t);
    var v: int := DigitsValue(body);
    if !DigitBody(body) then Err(ValueError("invalid literal for int() with base 10"))
    else if |t| > 0 && t[0] == '-' then Ok(-v)
    else Ok(v)
  }

  /** `str(n)` for a natural number. */
  function Show(n: nat): (s: string)
    ensures |s| > 0 && forall i :: 0 <= i < |s| ==> IsAsciiDigit(s[i])
    decreases n
  {
    if n < 10 then [('0' as int + n) as char]
    else Show(n / 10) + [('0' as int + n % 10) as char]
  }

  lemma {:induction false} ShowValue(n: nat)
    ensures DigitsValue(Show(n)) == n
    decreases n
  {
    var s := Show(n);
    if n < 10 {
      assert s[..0] == [];
    } else {
      ShowValue(n / 10);
      assert s[..|s| - 1] == Show(n / 10);
    }
  }

  lemma DigitNotSpace(c: char)
    requires IsAsciiDigit(c)
    ensures !IsSpace(c) && c != '-' && c != '+'
  {
  }

  /** `int(str(n)) == n`. */
  lemma ParseShow(n: nat)
    ensures ParseInt(Show(n)) == Ok(n)
  {
    var s := Show(n);
    DigitNotSpace(s[0]);
    DigitNotSpace(s[|s| - 1]);
    StripUnspaced(s);
    assert Unsigned(s) == s;
    assert DigitBody(s);
    ShowValue(n);
  }

  /** `int("-" + str(n)) == -n`. */
  lemma ParseShowNegative(n: nat)
    ensures ParseInt("-" + Show(n)) == Ok(-(n as int))
  {
    var d := Show(n);
    var s := "-" + d;
    DigitNotSpace(d[0]);
    DigitNotSpace(d[|d| - 1]);
    assert s[0] == '-' && s[|s| - 1] == d[|d| - 1];
    StripUnspaced(s);
    assert Unsigned(s) == d;
    assert DigitBody(d);
    ShowValue(n);
  }

  // ---------------------------------------------------------------------
  // PolymorphicCrudViewMixin

  /** The content-type table: id to the model class it names, None when the
      model class is not installed (`model_class()` returns None). */
  type ContentTypes = map<int, Option<string>>

  const CtypeKwarg: string := "polymorphic_ctype_id"

  /** `polymorphic_ctype_id`: the URL kwarg when it is truthy, otherwise the
      content type recorded on the object the view loads (`instance` is the
      outcome of `get_object()`, its value the nullable foreign key); the
      result goes through `int()`. */
  function CtypeId(kwargs: map<string, string>, instance: Result<Option<int>>): (r: Result<int>)
    ensures CtypeKwarg in kwargs && kwargs[CtypeKwarg] != "" ==> r == ParseInt(kwargs[CtypeKwarg])
    ensures (CtypeKwarg !in kwargs || kwargs[CtypeKwarg] == "") ==>
              match instance
              case Err(e) => r == Err(e)
              case Ok(None) => r.Err? && r.error.TypeError?
              case Ok(Some(id)) => r == Ok(id)
  {
    if CtypeKwarg in kwargs && kwargs[CtypeKwarg] != "" then ParseInt(kwargs[CtypeKwarg])
    else
      match instance
      case Err(e) => Err(e)
      case Ok(None) => Err(TypeError("int() argument must be a string or a real number, not 'NoneType'"))
      case Ok(Some(id)) => Ok(id)
  }

  /** `polymorphic_model` (and `model`, which returns it): the class of the
      content type with that id; an unknown id raises `DoesNotExist`. */
  function PolymorphicModel(kwargs: map<string, string>, instance: Result<Option<int>>, cts: ContentTypes)
    : (r: Result<Option<string>>)
    ensures r.Ok? <==> CtypeId(kwargs, instance).Ok? && CtypeId(kwargs, instance).value in cts
    ensures r.Ok? ==> r.value == cts[CtypeId(kwargs, instance).value]
    ensures CtypeId(kwargs, instance).Ok? && CtypeId(kwargs, instance).value !in cts ==> r.Err? && r.error.ObjectDoesNotExist?
  {
    match CtypeId(kwargs, instance)
    case Err(e) => Err(e)
    case Ok(id) =>
      if id in cts then Ok(cts[id]) else Err(ObjectDoesNotExist("ContentType matching query does not exist."))
  }

  /** `get_form_class()`: the form registered for the model in
      `polymorphic_forms` (None when the attribute is unset; an entry of
      None is a falsy form). A missing or falsy form is a ValueError. */
  function GetFormClass(forms: Option<map<string, Option<string>>>, model: Result<Option<string>>)
    : (r: Result<string>)
    ensures r.Ok? <==> && model.Ok? && forms.Some? && model.value.Some?
                       && model.value.value in forms.value && forms.value[model.value.value].Some?
    ensures r.Ok? ==> r.value == forms.value[model.value.value].value
    ensures model.Ok? && forms.None? ==> r.Err? && r.error.AttributeError?
    ensures model.Ok? && forms.Some? && !r.Ok? ==> r.Err? && r.error.ValueError?
  {
    match model
    case Err(e) => Err(e)
    case Ok(mc) =>
      if forms.None? then Err(AttributeError("get"))
      else
        var form := if mc.Some? && mc.value in forms.value then forms.value[mc.value] else None;
        if form.None? then Err(ValueError("No form found for polymorphic model"))
        else Ok(form.value)
  }

  /** A create URL that names the content type of a model with a registered
      form gets that form, without loading any object. */
  lemma FormOfSelectedType(kwargs: map<string, string>, instance: Result<Option<int>>, cts: ContentTypes,
                           forms: map<string, Option<string>>, id: nat, model: string, form: string)
    requires CtypeKwarg in kwargs && kwargs[CtypeKwarg] == Show(id)
    requires id in cts && cts[id] == Some(model)
    requires model in forms && forms[model] == Some(form)
    ensures GetFormClass(Some(forms), PolymorphicModel(kwargs, instance, cts)) == Ok(form)
  {
    ParseShow(id);
  }

  /** Without the kwarg, the model is the one the loaded object records. */
  lemma ModelOfLoadedObject(kwargs: map<string, string>, id: int, cts: ContentTypes)
    requires CtypeKwarg !in kwargs && id in cts
    ensures PolymorphicModel(kwargs, Ok(Some(id)), cts) == Ok(cts[id])
  {
  }
}
