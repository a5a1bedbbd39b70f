/** `ViewSetView` (crud_views/lib/view/base.py): how a view resolves itself
    or a sibling by key, builds the URL and the link data for it, and decides
    access. A view class is a record of its class attributes; a view set is a
    record of its registered classes, parent and permissions. A URL is kept
    as the route and kwargs it is reversed from; the template engine is a
    parameter (`Engine`); `has_perms` follows Django's model backend. */
module ViewBase {
  import opened Common
  import opened ViewContext

  /** A label snippet: a template file name and/or inline template code. */
  datatype Snippet = Snippet(template: Option<string>, code: Option<string>)

  /** What the template engine is asked to render. */
  datatype TemplateSource = File(path: string) | Inline(code: string)

  /** `vs_has_access`: the base class grants every user access; the
      permission-required mixin consults `vs_permission`. */
  datatype AccessPolicy = Open | PermissionRequired(permission: Option<string>)

  /** The class attributes of a `ViewSetView` subclass. */
  datatype ViewClass = ViewClass(
    key: Option<string>,
    path: Option<string>,
    needsObject: bool,              // vs_object
    backendOnly: bool,
    listActions: Option<seq<string>>,
    listActionMethod: string,
    contextActions: Option<seq<string>>,
    homeKey: Option<string>,
    successKey: Option<string>,
    cancelKey: Option<string>,
    actionLabel: Snippet,
    actionShortLabel: Snippet,
    iconAction: Option<string>,
    iconHeader: Option<string>,
    access: AccessPolicy,
    urlExtraKwargs: map<string, string>,   // vs_get_url_extra_kwargs()
    hasTableFilter: bool)                  // is a ListViewTableFilterMixin

  datatype ButtonKind = Plain | ToParent

  /** A context button of a view set: a `ContextButton`, a
      `ParentContextButton`, or the `FilterContextButton` (key "filter"). */
  datatype ContextButton =
    | Button(kind: ButtonKind, key: string, keyTarget: string,
             labelTemplate: Option<string>, labelTemplateCode: Option<string>)
    | FilterButton

  function ButtonKey(b: ContextButton): string {
    match b
    case Button(_, key, _, _, _) => key
    case FilterButton => "filter"
  }

  /** A view set: its name, the URL kwarg naming the object, the registered
      view classes by key, the parent view set, the URL kwargs inherited from
      the parent chain, and the permission names by action. */
  datatype ViewSet = ViewSet(
    name: string,
    pkName: string,
    views: map<string, ViewClass>,
    parent: Option<ViewSet>,
    parentUrlArgs: seq<string>,
    parentAttributes: seq<string>,
    permissions: map<string, string>,
    iconHeader: Option<string>,
    contextButtons: seq<ContextButton>)

  /** A Django user as the model backend sees it. */
  datatype User = User(isActive: bool, isSuperuser: bool, granted: set<string>)

  /** A view instance: its class, its view set, the URL kwargs of the
      request, and the requesting user. */
  datatype View = View(cls: ViewClass, vs: ViewSet, kwargs: map<string, string>, user: User)

  /** A URL, kept symbolic: the route it is reversed from (the router name
      of a view set for a key) and the kwargs handed to `reverse`. */
  datatype Route = Route(viewSet: string, key: Option<string>)
  datatype Url = Url(route: Route, kwargs: map<string, string>)

  /** The template engine: the unstripped output of every template source it
      can render on the snippet's data; a source it cannot load or render is
      absent. `themePath` is the configured theme directory. */
  datatype Engine = Engine(output: map<TemplateSource, string>, themePath: string)

  /** The keys of a view's link data (`vs_key`, `vs_url`, ...). */
  datatype Field =
    | VsKey | VsPath | VsActionLabel | VsActionShortLabel | VsListActions | VsListActionMethod
    | VsContextActions | VsHomeKey | VsSuccessKey | VsCancelKey | VsIconAction | VsIconHeader
    | VsAccess | VsOid | VsUrl | VsTemplate

  /** The template-context name of each key. */
  function FieldName(f: Field): string {
    match f
    case VsKey => "vs_key"
    case VsPath => "vs_path"
    case VsActionLabel => "vs_action_label"
    case VsActionShortLabel => "vs_action_short_label"
    case VsListActions => "vs_list_actions"
    case VsListActionMethod => "vs_list_action_method"
    case VsContextActions => "vs_context_actions"
    case VsHomeKey => "vs_home_key"
    case VsSuccessKey => "vs_success_key"
    case VsCancelKey => "vs_cancel_key"
    case VsIconAction => "vs_icon_action"
    case VsIconHeader => "vs_icon_header"
    case VsAccess => "vs_access"
    case VsOid => "vs_oid"
    case VsUrl => "vs_url"
    case VsTemplate => "vs_template"
  }

  /** The values that appear in a view's link data. */
  datatype Value = VNone | VStr(s: string) | VBool(b: bool) | VStrs(items: seq<string>) | VUrl(url: Url)

  function OfStr(o: Option<string>): Value {
    match o
    case Some(s) => VStr(s)
    case None => VNone
  }

  function OfStrs(o: Option<seq<string>>): Value {
    match o
    case Some(s) => VStrs(s)
    case None => VNone
  }

  /** Python truthiness of an optional string. */
  predicate Truthy(o: Option<string>) {
    o.Some? && o.value != ""
  }

  // ---------------------------------------------------------------------
  // Snippets

  /** Rendering one template source, stripped of surrounding whitespace. */
  function Render(engine: Engine, src: TemplateSource): (r: Result<string>)
    ensures r.Ok? <==> src in engine.output
    ensures r.Err? ==> r.error.TemplateError?
    ensures r.Ok? ==> r.value == Strip(engine.output[src])
  {
    if src in engine.output then Ok(Strip(engine.output[src])) else Err(TemplateError("cannot render template"))
  }

  /** `render_snippet`: inline code takes precedence over the template file;
      with neither the view raises; the output is stripped. */
  function RenderSnippet(engine: Engine, s: Snippet): (r: Result<string>)
    ensures !Truthy(s.code) && !Truthy(s.template) ==> r.Err? && r.error.ViewSetViewError?
    ensures Truthy(s.code) ==> (r.Ok? <==> Inline(s.code.value) in engine.output)
    ensures !Truthy(s.code) && Truthy(s.template) ==> (r.Ok? <==> File(s.template.value) in engine.output)
    ensures r.Ok? && |r.value| > 0 ==> !IsSpace(r.value[0]) && !IsSpace(r.value[|r.value| - 1])
  {
    if Truthy(s.code) then Render(engine, Inline(s.code.value))
    else if Truthy(s.template) then Render(engine, File(s.template.value))
    else Err(ViewSetViewError("no template or template_code provided"))
  }

  /** Inline code wins: once the code is set, the template is irrelevant. */
  lemma CodeWins(engine: Engine, code: string, t1: Option<string>, t2: Option<string>)
    requires code != ""
    ensures RenderSnippet(engine, Snippet(t1, Some(code))) == RenderSnippet(engine, Snippet(t2, Some(code)))
    ensures RenderSnippet(engine, Snippet(t1, Some(code))) == Render(engine, Inline(code))
  {
  }

  /** Without code, the template file is rendered. */
  lemma TemplateWithoutCode(engine: Engine, template: string, code: Option<string>)
    requires template != "" && !Truthy(code)
    ensures RenderSnippet(engine, Snippet(Some(template), code)) == Render(engine, File(template))
  {
  }

  /** Without code, an empty template string counts as absent. */
  lemma EmptyStringsAreAbsent(engine: Engine)
    ensures RenderSnippet(engine, Snippet(Some(""), Some(""))) == RenderSnippet(engine, Snippet(None, None))
    ensures RenderSnippet(engine, Snippet(None, None)).Err?
  {
  }

  // ---------------------------------------------------------------------
  // Resolving a key to a view class

  /** `key or self.vs_key`. */
  function TargetKey(view: View, key: Option<string>): Option<string> {
    if Truthy(key) then key else view.cls.key
  }

  /** `vs_get_cls`: the view's own class when the effective key is its own
      key, else the view set's class registered under that key. */
  function VsGetCls(view: View, key: Option<string>): (r: Result<ViewClass>)
    ensures TargetKey(view, key) == view.cls.key ==> r == Ok(view.cls)
    ensures r.Err? <==> TargetKey(view, key) != view.cls.key && TargetKey(view, key).value !in view.vs.views
    ensures r.Err? ==> r.error.ViewNotFound?
  {
    var k := TargetKey(view, key);
    if k == view.cls.key then Ok(view.cls)
    else if k.value in view.vs.views then Ok(view.vs.views[k.value])
    else Err(ViewNotFound(k.value))
  }

  /** Every class of the view set is registered under its own key, the
      view's class among them. */
  predicate Registered(view: View) {
    && view.cls.key.Some?
    && view.cls.key.value in view.vs.views
    && view.vs.views[view.cls.key.value] == view.cls
    && forall k :: k in view.vs.views ==> view.vs.views[k].key == Some(k)
  }

  /** In a consistent view set, the class found for a key carries that key. */
  lemma ResolvedClassCarriesKey(view: View, key: Option<string>)
    requires Registered(view)
    ensures VsGetCls(view, key).Ok? ==> VsGetCls(view, key).value.key == TargetKey(view, key)
    ensures VsGetCls(view, key).Ok? <==> TargetKey(view, key).value in view.vs.views
  {
  }

  /** No key, the empty key and the own key all resolve to the own class. */
  lemma OwnKeyResolvesToSelf(view: View)
    ensures VsGetCls(view, None) == Ok(view.cls)
    ensures VsGetCls(view, Some("")) == Ok(view.cls)
    ensures VsGetCls(view, view.cls.key) == Ok(view.cls)
  {
  }

  /** `vs_get_cls_assert_object`: a class that needs an object is refused
      without one. */
  function VsGetClsAssertObject(view: View, key: Option<string>, obj: Option<ModelObject>): (r: Result<ViewClass>)
    ensures r.Ok? <==> VsGetCls(view, key).Ok? && (VsGetCls(view, key).value.needsObject ==> obj.Some?)
    ensures r.Ok? ==> r == VsGetCls(view, key)
    ensures VsGetCls(view, key).Ok? && r.Err? ==> r.error.ViewSetViewError?
  {
    var cls :- VsGetCls(view, key);
    if cls.needsObject && obj.None? then Err(ViewSetViewError("view requires object"))
    else Ok(cls)
  }

  // ---------------------------------------------------------------------
  // URLs

  /** Every parent URL argument is present in `source` with a non-empty value. */
  predicate AllTruthy(names: seq<string>, source: map<string, string>) {
    forall i :: 0 <= i < |names| ==> names[i] in source && source[names[i]] != ""
  }

  /** The parent-argument loop of `vs_get_url`: copy each parent URL
      argument from the request kwargs, raising on a missing or empty one. */
  function CopyParentArgs(names: seq<string>, source: map<string, string>, acc: map<string, string>)
    : (r: Result<map<string, string>>)
    ensures r.Ok? <==> AllTruthy(names, source)
    ensures r.Err? ==> r.error.ValueError?
    ensures r.Ok? ==> r.value.Keys == acc.Keys + (set i | 0 <= i < |names| :: names[i])
    ensures r.Ok? ==> forall i :: 0 <= i < |names| ==> r.value[names[i]] == source[names[i]]
    ensures r.Ok? ==> forall k :: k in acc && k !in names ==> r.value[k] == acc[k]
    decreases |names|
  {
    if |names| == 0 then Ok(acc)
    else
      var name := names[0];
      if name !in source || source[name] == "" then Err(ValueError("kwarg " + name + " not found"))
      else
        var r := CopyParentArgs(names[1..], source, acc[name := source[name]]);
        assert forall i :: 1 <= i < |names| ==> names[1..][i - 1] == names[i];
        assert r.Ok? ==> AllTruthy(names, source);
        assert (set i | 0 <= i < |names| :: names[i]) == {name} + (set i | 0 <= i < |names| - 1 :: names[1..][i]);
        r
  }

  /** The kwargs `vs_get_url` passes to `reverse`: the caller's extras, the
      object's pk under the view set's pk name, the parent arguments, then
      the target class's own extra kwargs, each overriding the previous. */
  function UrlKwargs(view: View, cls: ViewClass, obj: Option<ModelObject>, extra: map<string, string>)
    : (r: Result<map<string, string>>)
    requires cls.needsObject ==> obj.Some?
    ensures r.Ok? <==> AllTruthy(view.vs.parentUrlArgs, view.kwargs)
    ensures r.Ok? ==> r.value.Keys == extra.Keys + (if cls.needsObject then {view.vs.pkName} else {})
                                      + (set i | 0 <= i < |view.vs.parentUrlArgs| :: view.vs.parentUrlArgs[i])
                                      + cls.urlExtraKwargs.Keys
  {
    var base := if cls.needsObject then extra[view.vs.pkName := obj.value.pk] else extra;
    var kw :- CopyParentArgs(view.vs.parentUrlArgs, view.kwargs, base);
    Ok(kw + cls.urlExtraKwargs)
  }

  /** The class's own extra kwargs override everything else. */
  lemma UrlKwargsClassExtrasWin(view: View, cls: ViewClass, obj: Option<ModelObject>, extra: map<string, string>, k: string)
    requires cls.needsObject ==> obj.Some?
    requires UrlKwargs(view, cls, obj, extra).Ok? && k in cls.urlExtraKwargs
    ensures UrlKwargs(view, cls, obj, extra).value[k] == cls.urlExtraKwargs[k]
  {
  }

  /** A parent argument not overridden by the class is copied from the
      request kwargs. */
  lemma UrlKwargsParentArg(view: View, cls: ViewClass, obj: Option<ModelObject>, extra: map<string, string>, i: nat)
    requires cls.needsObject ==> obj.Some?
    requires UrlKwargs(view, cls, obj, extra).Ok?
    requires i < |view.vs.parentUrlArgs| && view.vs.parentUrlArgs[i] !in cls.urlExtraKwargs
    ensures view.vs.parentUrlArgs[i] in view.kwargs
    ensures UrlKwargs(view, cls, obj, extra).value[view.vs.parentUrlArgs[i]] == view.kwargs[view.vs.parentUrlArgs[i]]
  {
  }

  /** The object's pk goes under the view set's pk name unless a parent
      argument or a class extra reuses that name. */
  lemma UrlKwargsObjectPk(view: View, cls: ViewClass, o: ModelObject, extra: map<string, string>)
    requires UrlKwargs(view, cls, Some(o), extra).Ok? && cls.needsObject
    requires view.vs.pkName !in view.vs.parentUrlArgs && view.vs.pkName !in cls.urlExtraKwargs
    ensures UrlKwargs(view, cls, Some(o), extra).value[view.vs.pkName] == o.pk
  {
  }

  /** A caller's extra kwarg survives unless a later step reuses its name. */
  lemma UrlKwargsCallerExtra(view: View, cls: ViewClass, obj: Option<ModelObject>, extra: map<string, string>, k: string)
    requires cls.needsObject ==> obj.Some?
    requires UrlKwargs(view, cls, obj, extra).Ok? && k in extra
    requires k !in view.vs.parentUrlArgs && k !in cls.urlExtraKwargs && !(cls.needsObject && k == view.vs.pkName)
    ensures UrlKwargs(view, cls, obj, extra).value[k] == extra[k]
  {
  }

  /** `vs_get_url`: resolve and check the target class, build the kwargs, and
      reverse the view set's route for the key as given (not the effective key). */
  function VsGetUrl(view: View, key: Option<string>, obj: Option<ModelObject>, extra: map<string, string>)
    : (r: Result<Url>)
    ensures r.Ok? <==> VsGetClsAssertObject(view, key, obj).Ok? && AllTruthy(view.vs.parentUrlArgs, view.kwargs)
    ensures r.Ok? ==> r.value.route == Route(view.vs.name, key)
    ensures VsGetClsAssertObject(view, key, obj).Ok? && r.Err? ==> r.error.ValueError?
  {
    var cls :- VsGetClsAssertObject(view, key, obj);
    var kw :- UrlKwargs(view, cls, obj, extra);
    Ok(Url(Route(view.vs.name, key), kw))
  }

  /** The URL carries exactly the kwargs `UrlKwargs` describes for the
      resolved class. */
  lemma VsGetUrlKwargs(view: View, key: Option<string>, obj: Option<ModelObject>, extra: map<string, string>)
    requires VsGetUrl(view, key, obj, extra).Ok?
    ensures VsGetClsAssertObject(view, key, obj).Ok?
    ensures UrlKwargs(view, VsGetCls(view, key).value, obj, extra).Ok?
    ensures VsGetUrl(view, key, obj, extra).value.kwargs == UrlKwargs(view, VsGetCls(view, key).value, obj, extra).value
  {
  }

  /** The URL of an object view names the object: its pk is passed under
      the view set's pk name, unless a parent argument or the class's extras
      reuse that name. */
  lemma UrlCarriesObjectPk(view: View, key: Option<string>, o: ModelObject)
    requires VsGetUrl(view, key, Some(o), map[]).Ok?
    requires VsGetCls(view, key).value.needsObject
    requires view.vs.pkName !in view.vs.parentUrlArgs && view.vs.pkName !in VsGetCls(view, key).value.urlExtraKwargs
    ensures view.vs.pkName in VsGetUrl(view, key, Some(o), map[]).value.kwargs
    ensures VsGetUrl(view, key, Some(o), map[]).value.kwargs[view.vs.pkName] == o.pk
  {
    VsGetUrlKwargs(view, key, Some(o), map[]);
    UrlKwargsObjectPk(view, VsGetCls(view, key).value, o, map[]);
  }

  // ---------------------------------------------------------------------
  // Object ids, link data, context buttons

  /** `str(pk).replace("-", "").replace(" ", "")`. */
  function PkDigest(pk: string): (d: string)
    ensures '-' !in d && ' ' !in d
    ensures multiset(d) == multiset(pk)['-' := 0][' ' := 0]
  {
    RemoveChar(RemoveChar(pk, '-'), ' ')
  }

  /** The digest keeps the order of the pk: the digest of two pieces is the
      two digests one after the other. */
  lemma PkDigestAppend(a: string, b: string)
    ensures PkDigest(a + b) == PkDigest(a) + PkDigest(b)
  {
    RemoveCharAppend(a, b, '-');
    RemoveCharAppend(RemoveChar(a, '-'), RemoveChar(b, '-'), ' ');
  }

  /** The digest of one character: nothing for a dash or a space, the
      character itself otherwise. */
  lemma PkDigestChar(x: char)
    ensures PkDigest([x]) == if x == '-' || x == ' ' then "" else [x]
  {
    assert [x][1..] == "";
  }

  /** An f-string of an optional key: `None` prints as "None". */
  function KeyText(key: Option<string>): string {
    match key
    case Some(k) => k
    case None => "None"
  }

  /** `vs_get_oid`: no id without an object; otherwise the view set name,
      the key and the pk without dashes and spaces, joined by underscores. */
  function VsGetOid(vs: ViewSet, key: Option<string>, obj: Option<ModelObject>): (r: Option<string>)
    ensures r.None? <==> obj.None?
    ensures r.Some? ==> r.value == vs.name + "_" + KeyText(key) + "_" + PkDigest(obj.value.pk)
  {
    match obj
    case None => None
    case Some(o) => Some(vs.name + "_" + KeyText(key) + "_" + PkDigest(o.pk))
  }

  /** A pk without dashes or spaces appears in the object id verbatim. */
  lemma OidKeepsPlainPk(vs: ViewSet, key: string, o: ModelObject)
    requires '-' !in o.pk && ' ' !in o.pk
    ensures VsGetOid(vs, Some(key), Some(o)) == Some(vs.name + "_" + key + "_" + o.pk)
  {
    RemoveAbsentChar(o.pk, '-');
    RemoveAbsentChar(o.pk, ' ');
  }

  /** The twelve class-attribute keys of `vs_get_dict`. */
  const DictKeys: set<Field> := {
    VsKey, VsPath, VsActionLabel, VsActionShortLabel, VsListActions,
    VsListActionMethod, VsContextActions, VsHomeKey, VsSuccessKey,
    VsCancelKey, VsIconAction, VsIconHeader}

  /** The class attributes as link data, with the two labels already rendered. */
  function ClassAttributes(cls: ViewClass, actionLabel: string, shortLabel: string): (d: map<Field, Value>)
    ensures d.Keys == DictKeys
    ensures d[VsKey] == OfStr(cls.key) && d[VsPath] == OfStr(cls.path)
    ensures d[VsActionLabel] == VStr(actionLabel) && d[VsActionShortLabel] == VStr(shortLabel)
  {
    map[VsKey := OfStr(cls.key), VsPath := OfStr(cls.path),
        VsActionLabel := VStr(actionLabel), VsActionShortLabel := VStr(shortLabel),
        VsListActions := OfStrs(cls.listActions), VsListActionMethod := VStr(cls.listActionMethod),
        VsContextActions := OfStrs(cls.contextActions), VsHomeKey := OfStr(cls.homeKey),
        VsSuccessKey := OfStr(cls.successKey), VsCancelKey := OfStr(cls.cancelKey),
        VsIconAction := OfStr(cls.iconAction), VsIconHeader := OfStr(cls.iconHeader)]
  }

  /** Both action labels of a class render. */
  predicate HasLabels(engine: Engine, cls: ViewClass) {
    RenderSnippet(engine, cls.actionLabel).Ok? && RenderSnippet(engine, cls.actionShortLabel).Ok?
  }

  /** `vs_get_dict`: the class attributes, overridden by the caller's extras. */
  function VsGetDict(engine: Engine, cls: ViewClass, extra: map<Field, Value>): (r: Result<map<Field, Value>>)
    ensures r.Ok? <==> HasLabels(engine, cls)
    ensures r.Ok? ==> r.value.Keys == DictKeys + extra.Keys
    ensures r.Ok? ==> forall k :: k in extra ==> r.value[k] == extra[k]
  {
    var actionLabel :- RenderSnippet(engine, cls.actionLabel);
    var shortLabel :- RenderSnippet(engine, cls.actionShortLabel);
    Ok(ClassAttributes(cls, actionLabel, shortLabel) + extra)
  }

  /** Every class attribute the caller does not override keeps its value,
      the two labels rendered. */
  lemma DictKeepsClassAttributes(engine: Engine, cls: ViewClass, extra: map<Field, Value>, k: Field)
    requires VsGetDict(engine, cls, extra).Ok? && k in DictKeys && k !in extra
    ensures VsGetDict(engine, cls, extra).value[k]
            == ClassAttributes(cls, RenderSnippet(engine, cls.actionLabel).value, RenderSnippet(engine, cls.actionShortLabel).value)[k]
  {
  }

  /** `vs_get_context_button`: the first button of the view set with the key. */
  function VsGetContextButton(buttons: seq<ContextButton>, key: Option<string>): (r: Option<ContextButton>)
    ensures r.None? <==> forall i :: 0 <= i < |buttons| ==> key != Some(ButtonKey(buttons[i]))
    ensures r.Some? ==> exists i :: 0 <= i < |buttons| && buttons[i] == r.value && key == Some(ButtonKey(buttons[i]))
                                    && forall j :: 0 <= j < i ==> key != Some(ButtonKey(buttons[j]))
    decreases |buttons|
  {
    if |buttons| == 0 then None
    else if key == Some(ButtonKey(buttons[0])) then Some(buttons[0])
    else
      var r := VsGetContextButton(buttons[1..], key);
      assert forall i :: 1 <= i < |buttons| ==> buttons[1..][i - 1] == buttons[i];
      if r.Some? then
        var i :| 0 <= i < |buttons[1..]| && buttons[1..][i] == r.value && key == Some(ButtonKey(buttons[1..][i]))
                  && forall j :: 0 <= j < i ==> key != Some(ButtonKey(buttons[1..][j]));
        assert buttons[i + 1] == r.value;
        r
      else r
  }

  // ---------------------------------------------------------------------
  // Access

  /** Django's `user.has_perm(perm)` with the model backend: an inactive
      user has no permission, an active superuser has every one. */
  predicate HasPerm(u: User, perm: string) {
    u.isActive && (u.isSuperuser || perm in u.granted)
  }

  /** Django's `user.has_perms(perms)`: every listed permission must hold. */
  function HasPerms(u: User, perms: seq<string>): (r: bool)
    ensures |perms| == 0 ==> r
    ensures |perms| > 0 ==> (r <==> u.isActive && (u.isSuperuser || forall i :: 0 <= i < |perms| ==> perms[i] in u.granted))
  {
    var r := forall i :: 0 <= i < |perms| ==> HasPerm(u, perms[i]);
    assert |perms| > 0 && r ==> HasPerm(u, perms[0]);
    r
  }

  /** The permissions the mixin's `vs_has_access` asks for: the view set's
      permission for `vs_permission` if it maps to a non-empty name, else none. */
  function RequiredPerms(cls: ViewClass, vs: ViewSet): (p: seq<string>)
    requires cls.access.PermissionRequired?
    ensures |p| <= 1
    ensures |p| == 1 <==> cls.access.permission.Some? && cls.access.permission.value in vs.permissions
                          && vs.permissions[cls.access.permission.value] != ""
    ensures |p| == 1 ==> p[0] == vs.permissions[cls.access.permission.value]
  {
    var perm := if cls.access.permission.Some? && cls.access.permission.value in vs.permissions
                then Some(vs.permissions[cls.access.permission.value]) else None;
    if Truthy(perm) then [perm.value] else []
  }

  /** `vs_has_access` of a class whose view set is `vs`. A missing user
      (`None`) has no `has_perms`. */
  function VsHasAccess(cls: ViewClass, vs: ViewSet, user: Option<User>): (r: Result<bool>)
    ensures cls.access.Open? ==> r == Ok(true)
    ensures r.Err? <==> cls.access.PermissionRequired? && user.None?
    ensures r.Err? ==> r.error.AttributeError?
  {
    match cls.access
    case Open => Ok(true)
    case PermissionRequired(_) =>
      if user.None? then Err(AttributeError("has_perms"))
      else Ok(HasPerms(user.value, RequiredPerms(cls, vs)))
  }

  /** Access is refused exactly to a user who is inactive, or neither a
      superuser nor granted the non-empty permission the view set maps the
      class's `vs_permission` to. */
  lemma AccessDeniedIff(cls: ViewClass, vs: ViewSet, u: User)
    ensures VsHasAccess(cls, vs, Some(u)) == Ok(false) <==>
              && cls.access.PermissionRequired?
              && cls.access.permission.Some?
              && cls.access.permission.value in vs.permissions
              && vs.permissions[cls.access.permission.value] != ""
              && !(u.isActive && (u.isSuperuser || vs.permissions[cls.access.permission.value] in u.granted))
  {
    if cls.access.PermissionRequired? && |RequiredPerms(cls, vs)| == 1 {
      assert HasPerms(u, RequiredPerms(cls, vs)) <==> u.isActive && (u.isSuperuser || RequiredPerms(cls, vs)[0] in u.granted);
    }
  }

  /** `permission_required` (the permission the request dispatch demands):
      `vs_permission` must be set and must map to a non-empty permission. */
  function PermissionRequiredOf(cls: ViewClass, vs: ViewSet): (r: Result<string>)
    requires cls.access.PermissionRequired?
    ensures r.Ok? <==> |RequiredPerms(cls, vs)| == 1
    ensures r.Ok? ==> r.value == RequiredPerms(cls, vs)[0]
    ensures cls.access.permission.None? ==> r.Err? && r.error.ViewSetViewError?
    ensures cls.access.permission.Some? && r.Err? ==> r.error.AssertionError?
  {
    match cls.access.permission
    case None => Err(ViewSetViewError("vs_permission not set"))
    case Some(p) =>
      var perm := if p in vs.permissions then vs.permissions[p] else "";
      if perm == "" then Err(AssertionError("permission not found")) else Ok(perm)
  }

  /** When the permission is mapped, the link check and the dispatch check
      ask `has_perms` the same question. */
  lemma AccessAgreesWithDispatch(cls: ViewClass, vs: ViewSet, u: User)
    requires cls.access.PermissionRequired?
    requires PermissionRequiredOf(cls, vs).Ok?
    ensures VsHasAccess(cls, vs, Some(u)) == Ok(HasPerms(u, [PermissionRequiredOf(cls, vs).value]))
  {
  }

  /** When the permission is NOT mapped, the dispatch check fails while the
      link check asks `has_perms(())`, which every user passes, inactive and
      anonymous-like users included. */
  lemma UnmappedPermissionGrantsLinks(cls: ViewClass, vs: ViewSet, u: User)
    requires cls.access.PermissionRequired?
    requires cls.access.permission.None? || cls.access.permission.value !in vs.permissions
    ensures PermissionRequiredOf(cls, vs).Err?
    ensures VsHasAccess(cls, vs, Some(u)) == Ok(true)
  {
  }

  // ---------------------------------------------------------------------
  // Child URLs

  /** Position `i` is the last occurrence of its argument among the first `n`. */
  predicate LastAt(args: seq<string>, i: nat, n: nat)
    requires i < n <= |args|
  {
    forall j :: i < j < n ==> args[j] != args[i]
  }

  /** Every argument the child kwargs loop reads from the request is there. */
  predicate ChildArgsPresent(args: seq<string>, n: nat, obj: Option<ModelObject>, source: map<string, string>)
    requires n <= |args|
  {
    forall i :: 0 <= i < n && !(i == 0 && obj.Some?) ==> args[i] in source
  }

  /** The kwargs loop of `vs_get_child_url` over the first `n` parent
      arguments of the child: the first one names the linking object when
      there is one, every other value comes from the request kwargs. */
  function ChildKwargs(args: seq<string>, n: nat, obj: Option<ModelObject>, source: map<string, string>)
    : (r: Result<map<string, string>>)
    requires n <= |args|
    ensures r.Ok? <==> ChildArgsPresent(args, n, obj, source)
    ensures r.Err? ==> r.error.KeyError?
    ensures r.Ok? ==> r.value.Keys == set i | 0 <= i < n :: args[i]
    decreases n
  {
    if n == 0 then Ok(map[])
    else
      var prev := ChildKwargs(args, n - 1, obj, source);
      var arg := args[n - 1];
      assert (set i | 0 <= i < n :: args[i]) == (set i | 0 <= i < n - 1 :: args[i]) + {arg};
      if prev.Err? then Err(prev.error)
      else if n - 1 == 0 && obj.Some? then Ok(prev.value[arg := obj.value.id])
      else if arg in source then Ok(prev.value[arg := source[arg]])
      else Err(KeyError(arg))
  }

  /** The value bound to an argument is the one its last occurrence asks
      for: the object's id at position 0 when linking from an object, else
      the request's kwarg. */
  lemma {:induction false} ChildKwargsValue(args: seq<string>, n: nat, obj: Option<ModelObject>,
                                            source: map<string, string>, i: nat)
    requires n <= |args| && ChildKwargs(args, n, obj, source).Ok?
    requires i < n && LastAt(args, i, n)
    ensures ChildKwargs(args, n, obj, source).value[args[i]]
            == (if i == 0 && obj.Some? then obj.value.id else source[args[i]])
  {
    if i < n - 1 {
      assert LastAt(args, i, n - 1);
      ChildKwargsValue(args, n - 1, obj, source, i);
      assert args[n - 1] != args[i];
    }
  }

  /** How many parent arguments the kwargs loop visits: `zip` stops at the
      shorter of the arguments and the attributes. */
  function ChildArgCount(child: ViewSet): (n: nat)
    ensures n <= |child.parentUrlArgs| && n <= |child.parentAttributes|
    ensures n == |child.parentUrlArgs| || n == |child.parentAttributes|
  {
    if |child.parentUrlArgs| <= |child.parentAttributes| then |child.parentUrlArgs| else |child.parentAttributes|
  }

  /** Whether `name` is registered as a child of the view's own view set. */
  predicate IsChildOf(view: View, registry: map<string, ViewSet>, name: string) {
    name in registry && registry[name].parent.Some? && registry[name].parent.value.name == view.vs.name
  }

  /** `vs_get_child_url`: look the child view set up, insist that its parent
      is this view's view set, and reverse the child's route for `key`. */
  function VsGetChildUrl(view: View, registry: map<string, ViewSet>, name: string, key: string,
                         obj: Option<ModelObject>): (r: Result<Url>)
    ensures r.Ok? ==> IsChildOf(view, registry, name)
    ensures name !in registry ==> r == Err(ViewNotFound(name))
    ensures (name in registry && registry[name].parent.Some? && registry[name].parent.value.name != view.vs.name)
              ==> r.Err? && r.error.ParentViewSetError?
    ensures name in registry && registry[name].parent.None? ==> r.Err? && r.error.AttributeError?
    ensures IsChildOf(view, registry, name) ==>
              && (r.Ok? <==> ChildArgsPresent(registry[name].parentUrlArgs, ChildArgCount(registry[name]), obj, view.kwargs))
              && (r.Err? ==> r.error.KeyError?)
    ensures r.Ok? ==>
              && ChildKwargs(registry[name].parentUrlArgs, ChildArgCount(registry[name]), obj, view.kwargs).Ok?
              && r.value == Url(Route(registry[name].name, Some(key)),
                                ChildKwargs(registry[name].parentUrlArgs, ChildArgCount(registry[name]), obj, view.kwargs).value)
  {
    if name !in registry then Err(ViewNotFound(name))
    else
      var child := registry[name];
      if child.parent.None? then Err(AttributeError("name"))
      else if child.parent.value.name != view.vs.name then Err(ParentViewSetError("not a child view set"))
      else
        var kw :- ChildKwargs(child.parentUrlArgs, ChildArgCount(child), obj, view.kwargs);
        Ok(Url(Route(child.name, Some(key)), kw))
  }

  /** A link to a child view set at any depth: it resolves once every
      argument the loop reads from the request is there, and each visited
      argument carries the object's id at position 0 when linking from an
      object, else the request's kwarg. */
  lemma ChildUrlValues(view: View, registry: map<string, ViewSet>, name: string, key: string,
                       obj: Option<ModelObject>, i: nat)
    requires IsChildOf(view, registry, name)
    requires ChildArgsPresent(registry[name].parentUrlArgs, ChildArgCount(registry[name]), obj, view.kwargs)
    requires i < ChildArgCount(registry[name]) && LastAt(registry[name].parentUrlArgs, i, ChildArgCount(registry[name]))
    ensures VsGetChildUrl(view, registry, name, key, obj).Ok?
    ensures VsGetChildUrl(view, registry, name, key, obj).value.kwargs[registry[name].parentUrlArgs[i]]
            == (if i == 0 && obj.Some? then obj.value.id else view.kwargs[registry[name].parentUrlArgs[i]])
  {
    ChildKwargsValue(registry[name].parentUrlArgs, ChildArgCount(registry[name]), obj, view.kwargs, i);
  }

  /** Linking from a parent object to a first-level child needs nothing from
      the request: the one parent argument is the object's id. */
  lemma ChildUrlOfObject(view: View, registry: map<string, ViewSet>, name: string, key: string,
                         o: ModelObject)
    requires name in registry && registry[name].parent.Some? && registry[name].parent.value.name == view.vs.name
    requires |registry[name].parentUrlArgs| == 1 && |registry[name].parentAttributes| == 1
    ensures VsGetChildUrl(view, registry, name, key, Some(o))
            == Ok(Url(Route(registry[name].name, Some(key)), map[registry[name].parentUrlArgs[0] := o.id]))
  {
    var child := registry[name];
    var kw := ChildKwargs(child.parentUrlArgs, 1, Some(o), view.kwargs);
    assert kw.Ok?;
    assert kw.value.Keys == {child.parentUrlArgs[0]};
  }
}
