/** `ViewSetViewMetaClass` (crud_views/lib/view/meta.py): creating a view
    class whose own namespace names a view set registers the class with that
    view set under the class's key. A class is a namespace of attributes
    plus the namespaces of its bases in method resolution order; the view
    sets' registries are the log of `register_view_class` calls. */
module ViewMeta {
  import opened Common

  /** The attribute values the rule looks at: a view set, a string, or None. */
  datatype Attr = ViewSetRef(viewSet: string) | Str(s: string) | NoneAttr

  /** Python truthiness of an attribute value; a view set instance is true. */
  predicate Truthy(a: Attr) {
    match a
    case ViewSetRef(_) => true
    case Str(s) => s != ""
    case NoneAttr => false
  }

  type Namespace = map<string, Attr>

  /** A class being created: its name, its own namespace (`attrs`) and the
      namespaces of its bases in resolution order. */
  datatype ClassDef = ClassDef(name: string, attrs: Namespace, bases: seq<Namespace>)

  /** One `register_view_class(key, cls)` call on the view set `viewSet`. */
  datatype Registration = Registration(viewSet: string, key: Attr, cls: string)

  /** Attribute lookup through a resolution order: the first namespace that
      defines the name wins. */
  function Lookup(mro: seq<Namespace>, name: string): (r: Option<Attr>)
    ensures r.None? <==> forall i :: 0 <= i < |mro| ==> name !in mro[i]
    ensures r.Some? ==> exists i :: 0 <= i < |mro| && name in mro[i] && mro[i][name] == r.value
                          && forall j :: 0 <= j < i ==> name !in mro[j]
    decreases |mro|
  {
    if |mro| == 0 then None
    else if name in mro[0] then Some(mro[0][name])
    else
      var r := Lookup(mro[1..], name);
      assert forall j :: 1 <= j < |mro| ==> mro[1..][j - 1] == mro[j];
      r
  }

  /** `getattr(cls, name, None)`. */
  function GetAttr(c: ClassDef, name: string): (r: Attr)
    ensures name in c.attrs ==> r == c.attrs[name]
    ensures name !in c.attrs ==> r == Lookup(c.bases, name).GetOr(NoneAttr)
  {
    Lookup([c.attrs] + c.bases, name).GetOr(NoneAttr)
  }

  /** `attrs.get("cv")`: only the class's own namespace counts. */
  function OwnViewSet(c: ClassDef): Attr {
    if "cv" in c.attrs then c.attrs["cv"] else NoneAttr
  }

  /** `ViewSetViewMetaClass.__new__`: the class is built unchanged; when its
      own `cv` is truthy, its key (looked up with inheritance) must not be
      None and the class is registered once under it. */
  function MetaNew(c: ClassDef, log: seq<Registration>): (r: Result<(ClassDef, seq<Registration>)>)
    ensures r.Ok? ==> r.value.0 == c
    ensures !Truthy(OwnViewSet(c)) ==> r == Ok((c, log))
    ensures Truthy(OwnViewSet(c)) && GetAttr(c, "cv_key") == NoneAttr ==> r.Err? && r.error.ViewSetViewError?
    ensures OwnViewSet(c).ViewSetRef? && GetAttr(c, "cv_key") != NoneAttr ==>
              r == Ok((c, log + [Registration(OwnViewSet(c).viewSet, GetAttr(c, "cv_key"), c.name)]))
    ensures Truthy(OwnViewSet(c)) && !OwnViewSet(c).ViewSetRef? && GetAttr(c, "cv_key") != NoneAttr ==>
              r.Err? && r.error.AttributeError?
  {
    var cv := OwnViewSet(c);
    if !Truthy(cv) then Ok((c, log))
    else
      var key := GetAttr(c, "cv_key");
      if key == NoneAttr then Err(ViewSetViewError("ViewSet " + c.name + " has no attribute cv_key"))
      else if !cv.ViewSetRef? then Err(AttributeError("register_view_class"))
      else Ok((c, log + [Registration(cv.viewSet, key, c.name)]))
  }

  /** A subclass that only inherits `cv` from a registered base is not
      registered again, whatever its bases hold. */
  lemma InheritedViewSetNotRegistered(c: ClassDef, log: seq<Registration>)
    requires "cv" !in c.attrs
    ensures MetaNew(c, log) == Ok((c, log))
  {
  }

  /** A class that names its view set and inherits its key is registered
      under the inherited key. */
  lemma InheritedKeyUsed(c: ClassDef, log: seq<Registration>, i: nat)
    requires OwnViewSet(c).ViewSetRef? && "cv_key" !in c.attrs
    requires i < |c.bases| && "cv_key" in c.bases[i] && c.bases[i]["cv_key"] != NoneAttr
    requires forall j :: 0 <= j < i ==> "cv_key" !in c.bases[j]
    ensures MetaNew(c, log) == Ok((c, log + [Registration(OwnViewSet(c).viewSet, c.bases[i]["cv_key"], c.name)]))
  {
    var r := Lookup(c.bases, "cv_key");
    assert r.Some?;
    var k :| 0 <= k < |c.bases| && "cv_key" in c.bases[k] && c.bases[k]["cv_key"] == r.value
             && forall j :: 0 <= j < k ==> "cv_key" !in c.bases[j];
    assert k == i;
  }

  /** Whether a class registers itself when created. */
  predicate Registers(c: ClassDef) {
    Truthy(OwnViewSet(c))
  }

  /** The metaclass accepts the class: it does not register itself, or its
      own `cv` is a view set and it has a key. */
  predicate Definable(c: ClassDef) {
    !Registers(c) || (OwnViewSet(c).ViewSetRef? && GetAttr(c, "cv_key") != NoneAttr)
  }

  /** Creating classes one after another, stopping at the first error: the
      series goes through exactly when every class in it is accepted. */
  function DefineAll(cs: seq<ClassDef>, log: seq<Registration>): (r: Result<seq<Registration>>)
    ensures r.Ok? <==> forall i :: 0 <= i < |cs| ==> Definable(cs[i])
    decreases |cs|
  {
    if |cs| == 0 then Ok(log)
    else
      assert forall i :: 1 <= i < |cs| ==> cs[1..][i - 1] == cs[i];
      match MetaNew(cs[0], log)
      case Err(e) => Err(e)
      case Ok((_, log')) => DefineAll(cs[1..], log')
  }

  /** The number of classes among `cs` that register themselves. */
  function CountRegistering(cs: seq<ClassDef>): nat
    decreases |cs|
  {
    if |cs| == 0 then 0 else (if Registers(cs[0]) then 1 else 0) + CountRegistering(cs[1..])
  }

  /** The registrations a series of accepted classes makes, in order: one
      per class naming its own view set, under that view set and its key. */
  function RegistrationsOf(cs: seq<ClassDef>): seq<Registration>
    decreases |cs|
  {
    if |cs| == 0 then []
    else
      var c := cs[0];
      (if OwnViewSet(c).ViewSetRef? then [Registration(OwnViewSet(c).viewSet, GetAttr(c, "cv_key"), c.name)] else [])
      + RegistrationsOf(cs[1..])
  }

  /** The registration was made by one of `cs` that names its own view set. */
  predicate MadeByOneOf(r: Registration, cs: seq<ClassDef>) {
    exists j :: 0 <= j < |cs| && r.cls == cs[j].name && Registers(cs[j])
  }

  /** Defining a series of classes without error adds exactly one
      registration per class that names its own view set, in definition
      order, and keeps earlier registrations. */
  lemma {:induction false} DefineAllRegistersOnce(cs: seq<ClassDef>, log: seq<Registration>)
    requires DefineAll(cs, log).Ok?
    ensures var out := DefineAll(cs, log).value;
            && |out| == |log| + CountRegistering(cs)
            && out[..|log|] == log
            && (forall i :: |log| <= i < |out| ==> MadeByOneOf(out[i], cs))
            && out == log + RegistrationsOf(cs)
    decreases |cs|
  {
    if |cs| > 0 {
      var c := cs[0];
      var log' := MetaNew(c, log).value.1;
      assert DefineAll(cs, log) == DefineAll(cs[1..], log');
      DefineAllRegistersOnce(cs[1..], log');
      var out := DefineAll(cs, log).value;
      if Registers(c) {
        assert log' == log + [log'[|log|]] && log'[|log|].cls == c.name;
        assert log' == log + [Registration(OwnViewSet(c).viewSet, GetAttr(c, "cv_key"), c.name)];
      } else {
        assert log' == log;
      }
      assert out == log + RegistrationsOf(cs);
      assert out[..|log'|] == log';
      assert out[..|log|] == log'[..|log|];
      forall i | |log| <= i < |out|
        ensures MadeByOneOf(out[i], cs)
      {
        if i < |log'| {
          assert i == |log| && Registers(cs[0]) && out[i] == log'[i];
          assert out[i].cls == cs[0].name;
        } else {
          assert MadeByOneOf(out[i], cs[1..]);
          var j :| 0 <= j < |cs[1..]| && out[i].cls == cs[1..][j].name && Registers(cs[1..][j]);
          assert cs[1..][j] == cs[j + 1];
        }
      }
    }
  }
}
