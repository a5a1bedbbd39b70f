/** `RedirectChildView` (crud_views/lib/views/child.py): a backend-only
    object view whose URL names a child view set and one of its views, and
    which redirects from the current object to that child view. */
module ChildView {
  import opened Common
  import opened PathRegs
  import opened ViewBase
  import opened ViewContext

  const ChildKey: string := "redirect_child"
  const ChildPath: string := "child"

  /** The two class attributes a concrete redirect view sets: `cv_redirect`,
      the name of the child view set, and `cv_redirect_key`, the key of the
      view of it to go to. */
  datatype Redirect = Redirect(redirect: string, redirectKey: string)

  /** The `child_action_*` label settings `RedirectChildView` reads its
      action labels from when the class is defined. */
  datatype ChildSettings = ChildSettings(
    labelTemplate: Option<string>,
    labelTemplateCode: Option<string>,
    shortLabelTemplate: Option<string>,
    shortLabelTemplateCode: Option<string>)

  const ChildLabelTemplate: string := "crud_views/snippets/action/child.html"
  const ChildShortLabelTemplate: string := "crud_views/snippets/action_short/child.html"

  /** The settings' defaults when the project overrides none of them. */
  const DefaultChildSettings: ChildSettings :=
    ChildSettings(Some(ChildLabelTemplate), None, Some(ChildShortLabelTemplate), None)

  /** The path groups, one per URL kwarg the view expects. */
  const RedirectGroup: string := GetPath("redirect", KEY)
  const RedirectKeyGroup: string := GetPath("redirect_key", KEY)

  lemma GroupsHaveNoSlash()
    ensures '/' !in RedirectGroup && '/' !in RedirectKeyGroup
  {
    assert RedirectGroup == "(?P<redirect>[a-z_]+)";
    assert RedirectKeyGroup == "(?P<redirect_key>[a-z_]+)";
  }

  /** `cv_path_contribute()`: two KEY groups separated by a slash. */
  function PathContribute(): (p: string)
    ensures Split(p, '/') == [RedirectGroup, RedirectKeyGroup]
  {
    GroupsHaveNoSlash();
    JoinSplit([RedirectGroup, RedirectKeyGroup], '/');
    RedirectGroup + "/" + RedirectKeyGroup
  }

  /** The names of the named groups among the pieces of a path. */
  function GroupNames(parts: seq<string>): set<string> {
    set i | 0 <= i < |parts| && ParseNamedGroup(parts[i]).Some? :: ParseNamedGroup(parts[i]).value.0
  }

  /** Each group reads back as its kwarg name and KEY. */
  lemma GroupsParse()
    ensures ParseNamedGroup(RedirectGroup) == Some(("redirect", KEY))
    ensures ParseNamedGroup(RedirectKeyGroup) == Some(("redirect_key", KEY))
  {
    assert '>' !in "redirect" && '>' !in "redirect_key";
    NamedGroupRoundTrip("redirect", KEY);
    NamedGroupRoundTrip("redirect_key", KEY);
  }

  lemma NamesOfTwo(a: string, b: string, na: string, nb: string)
    requires ParseNamedGroup(a) == Some((na, KEY)) && ParseNamedGroup(b) == Some((nb, KEY))
    ensures GroupNames([a, b]) == {na, nb}
  {
    assert [a, b][0] == a && [a, b][1] == b;
  }

  /** Read back, the contribution is exactly the groups `redirect` and
      `redirect_key`, each matching KEY. */
  lemma PathContributeParses()
    ensures var parts := Split(PathContribute(), '/');
            && |parts| == 2
            && ParseNamedGroup(parts[0]) == Some(("redirect", KEY))
            && ParseNamedGroup(parts[1]) == Some(("redirect_key", KEY))
            && GroupNames(parts) == {"redirect", "redirect_key"}
  {
    GroupsParse();
    NamesOfTwo(RedirectGroup, RedirectKeyGroup, "redirect", "redirect_key");
  }

  /** `cv_get_url_extra_kwargs()`. */
  function UrlExtraKwargs(c: Redirect): (kw: map<string, string>)
    ensures kw.Keys == {"redirect", "redirect_key"}
    ensures kw["redirect"] == c.redirect && kw["redirect_key"] == c.redirectKey
  {
    map["redirect" := c.redirect, "redirect_key" := c.redirectKey]
  }

  /** The extra kwargs fill precisely the groups the path contribution
      declares, so reversing the route needs nothing else from the view. */
  lemma ExtraKwargsFillPathGroups(c: Redirect)
    ensures UrlExtraKwargs(c).Keys == GroupNames(Split(PathContribute(), '/'))
  {
    PathContributeParses();
  }

  /** The class a concrete redirect view ends up with: the key, path and
      backend-only flag of `RedirectChildView`, an object view, its action
      labels from the child settings, and its extra kwargs; access and
      everything else come from `base`. */
  function RedirectChildClass(c: Redirect, base: ViewClass, settings: ChildSettings): (cls: ViewClass)
    ensures cls.key == Some(ChildKey) && cls.path == Some(ChildPath)
    ensures cls.backendOnly && cls.needsObject
    ensures cls.urlExtraKwargs == UrlExtraKwargs(c)
    ensures cls.actionLabel == Snippet(settings.labelTemplate, settings.labelTemplateCode)
    ensures cls.actionShortLabel == Snippet(settings.shortLabelTemplate, settings.shortLabelTemplateCode)
    ensures cls.access == base.access && cls.iconAction == base.iconAction
  {
    base.(key := Some(ChildKey), path := Some(ChildPath), needsObject := true, backendOnly := true,
          actionLabel := Snippet(settings.labelTemplate, settings.labelTemplateCode),
          actionShortLabel := Snippet(settings.shortLabelTemplate, settings.shortLabelTemplateCode),
          urlExtraKwargs := UrlExtraKwargs(c))
  }

  /** With the default settings, a redirect view's labels are the child
      action templates, whatever labels the base class had. */
  lemma DefaultChildLabels(engine: Engine, c: Redirect, base: ViewClass)
    ensures var cls := RedirectChildClass(c, base, DefaultChildSettings);
            && RenderSnippet(engine, cls.actionLabel) == Render(engine, File(ChildLabelTemplate))
            && RenderSnippet(engine, cls.actionShortLabel) == Render(engine, File(ChildShortLabelTemplate))
  {
    TemplateWithoutCode(engine, ChildLabelTemplate, None);
    TemplateWithoutCode(engine, ChildShortLabelTemplate, None);
  }

  /** A link to the redirect view carries the child view set's name and view
      key under the kwargs its path reads them from, whatever the caller
      passes. */
  lemma LinkNamesRedirectTarget(view: View, c: Redirect, base: ViewClass, settings: ChildSettings,
                                obj: Option<ModelObject>, extra: map<string, string>)
    requires VsGetCls(view, Some(ChildKey)) == Ok(RedirectChildClass(c, base, settings))
    requires VsGetUrl(view, Some(ChildKey), obj, extra).Ok?
    ensures var kw := VsGetUrl(view, Some(ChildKey), obj, extra).value.kwargs;
            && "redirect" in kw && kw["redirect"] == c.redirect
            && "redirect_key" in kw && kw["redirect_key"] == c.redirectKey
  {
    var cls := RedirectChildClass(c, base, settings);
    VsGetUrlKwargs(view, Some(ChildKey), obj, extra);
    UrlKwargsClassExtrasWin(view, cls, obj, extra, "redirect");
    UrlKwargsClassExtrasWin(view, cls, obj, extra, "redirect_key");
  }

  /** `get_redirect_url()`: the child URL for the configured child view set
      and key, built from the object the view loaded. */
  function GetRedirectUrl(view: View, registry: map<string, ViewSet>, c: Redirect, obj: ModelObject)
    : (r: Result<Url>)
    ensures r.Ok? ==> && c.redirect in registry
                      && r.value.route == Route(registry[c.redirect].name, Some(c.redirectKey))
    ensures c.redirect !in registry ==> r == Err(ViewNotFound(c.redirect))
    ensures c.redirect in registry && registry[c.redirect].parent.None? ==> r.Err? && r.error.AttributeError?
    ensures (c.redirect in registry && registry[c.redirect].parent.Some?
             && registry[c.redirect].parent.value.name != view.vs.name) ==> r.Err? && r.error.ParentViewSetError?
    ensures IsChildOf(view, registry, c.redirect) ==>
              && (r.Ok? <==> forall i :: 0 < i < ChildArgCount(registry[c.redirect]) ==>
                               registry[c.redirect].parentUrlArgs[i] in view.kwargs)
              && (r.Err? ==> r.error.KeyError?)
    ensures (&& r.Ok? && ChildArgCount(registry[c.redirect]) > 0
             && LastAt(registry[c.redirect].parentUrlArgs, 0, ChildArgCount(registry[c.redirect]))) ==>
              && registry[c.redirect].parentUrlArgs[0] in r.value.kwargs
              && r.value.kwargs[registry[c.redirect].parentUrlArgs[0]] == obj.id
  {
    if IsChildOf(view, registry, c.redirect) && ChildArgCount(registry[c.redirect]) > 0
       && LastAt(registry[c.redirect].parentUrlArgs, 0, ChildArgCount(registry[c.redirect]))
       && ChildArgsPresent(registry[c.redirect].parentUrlArgs, ChildArgCount(registry[c.redirect]), Some(obj), view.kwargs)
    then
      ChildUrlValues(view, registry, c.redirect, c.redirectKey, Some(obj), 0);
      VsGetChildUrl(view, registry, c.redirect, c.redirectKey, Some(obj))
    else VsGetChildUrl(view, registry, c.redirect, c.redirectKey, Some(obj))
  }

  /** For a first-level child view set the redirect goes to the configured
      view of the child, with the loaded object's id as the parent argument;
      a view set that is not a child of this one is refused. */
  lemma RedirectToChildOfObject(view: View, registry: map<string, ViewSet>, c: Redirect, obj: ModelObject)
    requires c.redirect in registry && registry[c.redirect].parent.Some?
    ensures registry[c.redirect].parent.value.name != view.vs.name ==>
              GetRedirectUrl(view, registry, c, obj).Err?
              && GetRedirectUrl(view, registry, c, obj).error.ParentViewSetError?
    ensures (&& registry[c.redirect].parent.value.name == view.vs.name
             && |registry[c.redirect].parentUrlArgs| == 1 && |registry[c.redirect].parentAttributes| == 1) ==>
              GetRedirectUrl(view, registry, c, obj)
              == Ok(Url(Route(registry[c.redirect].name, Some(c.redirectKey)),
                        map[registry[c.redirect].parentUrlArgs[0] := obj.id]))
  {
    if && registry[c.redirect].parent.value.name == view.vs.name
       && |registry[c.redirect].parentUrlArgs| == 1 && |registry[c.redirect].parentAttributes| == 1 {
      ChildUrlOfObject(view, registry, c.redirect, c.redirectKey, obj);
    }
  }

  /** The redirect view's own key is a valid view key: it matches KEY. */
  lemma ChildKeyIsKey()
    ensures Matches(KeyRegex, ChildKey)
  {
    KeyLanguage(ChildKey);
    assert forall k | 0 <= k < |ChildKey| :: IsKeyChar(ChildKey[k]);
  }
}
