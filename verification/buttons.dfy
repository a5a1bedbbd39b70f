/** Context buttons (crud_views/lib/view/buttons.py) and the link data of a
    view for a key (`ViewSetView.vs_get_context`, crud_views/lib/view/base.py),
    which hands a key that names a context button to that button. */
module Buttons {
  import opened Common
  import opened ViewContext
  import opened ViewBase

  /** `ContextButton.render_label` as the source writes it: the template
      branch goes through the view, the code branch calls `render_snippet`
      on the `ViewContext`, which has no such attribute. */
  function RenderLabelAsWritten(engine: Engine, b: ContextButton): (r: Result<Option<string>>)
    requires b.Button?
    ensures Truthy(b.labelTemplate) ==> r == RenderLabel(engine, b)
    ensures !Truthy(b.labelTemplate) && Truthy(b.labelTemplateCode) ==> r.Err? && r.error.AttributeError?
    ensures !Truthy(b.labelTemplate) && !Truthy(b.labelTemplateCode) ==> r == Ok(None)
  {
    if Truthy(b.labelTemplate) then RenderLabel(engine, b)
    else if Truthy(b.labelTemplateCode) then Err(AttributeError("render_snippet"))
    else Ok(None)
  }

  /** `render_label` as intended: the label template if set, else the label
      code, each rendered and stripped by the view's `render_snippet`; no
      label otherwise. */
  function RenderLabel(engine: Engine, b: ContextButton): (r: Result<Option<string>>)
    requires b.Button?
    ensures r == Ok(None) <==> !Truthy(b.labelTemplate) && !Truthy(b.labelTemplateCode)
    ensures Truthy(b.labelTemplate) ==> (r.Ok? <==> File(b.labelTemplate.value) in engine.output)
    ensures (!Truthy(b.labelTemplate) && Truthy(b.labelTemplateCode))
              ==> (r.Ok? <==> Inline(b.labelTemplateCode.value) in engine.output)
    ensures (r.Ok? && r.value.Some? && |r.value.value| > 0)
              ==> !IsSpace(r.value.value[0]) && !IsSpace(r.value.value[|r.value.value| - 1])
  {
    if Truthy(b.labelTemplate) then
      var caption :- RenderSnippet(engine, Snippet(b.labelTemplate, None));
      Ok(Some(caption))
    else if Truthy(b.labelTemplateCode) then
      var caption :- RenderSnippet(engine, Snippet(None, b.labelTemplateCode));
      Ok(Some(caption))
    else Ok(None)
  }

  /** The code branch as written fails for every button whose label is given
      by code alone, where the intended label is the rendered code. */
  lemma LabelCodeOnlyFails(engine: Engine, key: string, target: string, code: string)
    requires code != "" && Inline(code) in engine.output
    ensures RenderLabelAsWritten(engine, Button(Plain, key, target, None, Some(code))).Err?
    ensures RenderLabel(engine, Button(Plain, key, target, None, Some(code)))
            == Ok(Some(Strip(engine.output[Inline(code)])))
  {
  }

  /** A button prefers its label template, while `render_snippet` prefers
      code: with both set the two orders pick different sources. */
  lemma LabelPrecedenceOppositeToSnippet(engine: Engine, b: ContextButton)
    requires b.Button? && Truthy(b.labelTemplate) && Truthy(b.labelTemplateCode)
    ensures RenderLabel(engine, b) == (var f := Render(engine, File(b.labelTemplate.value));
                                       if f.Ok? then Ok(Some(f.value)) else Err(f.error))
    ensures RenderSnippet(engine, Snippet(b.labelTemplate, b.labelTemplateCode))
            == Render(engine, Inline(b.labelTemplateCode.value))
  {
  }

  /** The label override at the end of `ContextButton.get_context`: a
      non-empty rendered button label replaces `vs_action_label`. */
  function WithLabel(data: map<Field, Value>, caption: Option<string>): (r: map<Field, Value>)
    requires VsActionLabel in data
    ensures r.Keys == data.Keys
    ensures forall k :: k in data && k != VsActionLabel ==> r[k] == data[k]
    ensures caption.Some? && caption.value != "" ==> r[VsActionLabel] == VStr(caption.value)
    ensures caption.None? || caption.value == "" ==> r[VsActionLabel] == data[VsActionLabel]
  {
    if caption.Some? && caption.value != "" then data[VsActionLabel := VStr(caption.value)] else data
  }

  /** The end of `ContextButton.get_context` once the target is resolved:
      the target class's link data with the caller's extras, then the
      button's rendered label over the class's label. */
  function LabelledLinkData(engine: Engine, cls: ViewClass, extra: map<Field, Value>,
                            caption: Result<Option<string>>): (r: Result<map<Field, Value>>)
    ensures r.Ok? <==> HasLabels(engine, cls) && caption.Ok?
    ensures r.Ok? ==> r.value.Keys == DictKeys + extra.Keys
    ensures r.Ok? ==> forall k :: k in extra && k != VsActionLabel ==> r.value[k] == extra[k]
  {
    var data :- VsGetDict(engine, cls, extra);
    var c :- caption;
    Ok(WithLabel(data, c))
  }

  /** The button's label wins when it renders non-empty; otherwise the
      class's rendered action label stays. */
  lemma LabelledActionLabel(engine: Engine, cls: ViewClass, extra: map<Field, Value>, caption: Result<Option<string>>)
    requires LabelledLinkData(engine, cls, extra, caption).Ok? && VsActionLabel !in extra
    ensures caption.Ok? && RenderSnippet(engine, cls.actionLabel).Ok?
    ensures LabelledLinkData(engine, cls, extra, caption).value[VsActionLabel]
            == if caption.value.Some? && caption.value.value != "" then VStr(caption.value.value)
               else VStr(RenderSnippet(engine, cls.actionLabel).value)
  {
    DictKeepsClassAttributes(engine, cls, extra, VsActionLabel);
  }

  /** When a plain button's link data exists: the target's URL can be built
      (so the target class resolves and its object check passes), both of
      the target's labels render, and so does the button's own label. */
  predicate PlainButtonDefined(engine: Engine, ctx: Context<View>, b: ContextButton)
    requires b.Button?
  {
    && VsGetUrl(ctx.view, Some(b.keyTarget), ctx.obj, map[]).Ok?
    && HasLabels(engine, VsGetCls(ctx.view, Some(b.keyTarget)).value)
    && RenderLabel(engine, b).Ok?
  }

  /** `ContextButton.get_context`: the target sibling's link data with the
      URL and access of the target, and the button's own label over the
      class's label when it renders non-empty. The object check of the
      target class is the one `vs_get_url` has already passed. */
  function PlainButtonContext(engine: Engine, ctx: Context<View>, b: ContextButton): (r: Result<map<Field, Value>>)
    requires b.Button?
    ensures r.Ok? <==> PlainButtonDefined(engine, ctx, b)
    ensures r.Ok? ==> r.value.Keys == DictKeys + {VsAccess, VsUrl}
  {
    var view := ctx.view;
    var url :- VsGetUrl(view, Some(b.keyTarget), ctx.obj, map[]);
    var cls := VsGetCls(view, Some(b.keyTarget)).value;
    var access := VsHasAccess(cls, view.vs, Some(view.user)).value;
    LabelledLinkData(engine, cls, map[VsAccess := VBool(access), VsUrl := VUrl(url)], RenderLabel(engine, b))
  }

  /** `ContextButton.get_context` as written: the label goes through
      `RenderLabelAsWritten`, so a button whose label is given by code alone
      never yields its data, while the other buttons yield the same data as
      with the corrected `render_label`. */
  function PlainButtonContextAsWritten(engine: Engine, ctx: Context<View>, b: ContextButton): (r: Result<map<Field, Value>>)
    requires b.Button?
    ensures Truthy(b.labelTemplate) || !Truthy(b.labelTemplateCode) ==> r == PlainButtonContext(engine, ctx, b)
    ensures !Truthy(b.labelTemplate) && Truthy(b.labelTemplateCode) ==> r.Err?
  {
    var view := ctx.view;
    var url :- VsGetUrl(view, Some(b.keyTarget), ctx.obj, map[]);
    var cls := VsGetCls(view, Some(b.keyTarget)).value;
    var access := VsHasAccess(cls, view.vs, Some(view.user)).value;
    LabelledLinkData(engine, cls, map[VsAccess := VBool(access), VsUrl := VUrl(url)], RenderLabelAsWritten(engine, b))
  }

  /** A code-labelled button whose corrected context exists fails as written
      with the AttributeError of `render_label`. */
  lemma CodeOnlyButtonFails(engine: Engine, ctx: Context<View>, b: ContextButton)
    requires b.Button? && !Truthy(b.labelTemplate) && Truthy(b.labelTemplateCode)
    requires PlainButtonContext(engine, ctx, b).Ok?
    ensures PlainButtonContextAsWritten(engine, ctx, b).Err?
    ensures PlainButtonContextAsWritten(engine, ctx, b).error.AttributeError?
  {
  }

  /** A plain button links to its target: the URL of the target key in
      this view set. */
  lemma PlainButtonUrl(engine: Engine, ctx: Context<View>, b: ContextButton)
    requires b.Button? && PlainButtonContext(engine, ctx, b).Ok?
    ensures VsGetUrl(ctx.view, Some(b.keyTarget), ctx.obj, map[]).Ok?
            && PlainButtonContext(engine, ctx, b).value[VsUrl] == VUrl(VsGetUrl(ctx.view, Some(b.keyTarget), ctx.obj, map[]).value)
  {
    var view := ctx.view;
    var url := VsGetUrl(view, Some(b.keyTarget), ctx.obj, map[]).value;
    var cls := VsGetCls(view, Some(b.keyTarget)).value;
    var extra := map[VsAccess := VBool(VsHasAccess(cls, view.vs, Some(view.user)).value), VsUrl := VUrl(url)];
    assert PlainButtonContext(engine, ctx, b) == LabelledLinkData(engine, cls, extra, RenderLabel(engine, b));
  }

  /** A plain button carries the target's access for the requesting user. */
  lemma PlainButtonAccess(engine: Engine, ctx: Context<View>, b: ContextButton)
    requires b.Button? && PlainButtonContext(engine, ctx, b).Ok?
    ensures VsGetCls(ctx.view, Some(b.keyTarget)).Ok?
            && PlainButtonContext(engine, ctx, b).value[VsAccess]
               == VBool(VsHasAccess(VsGetCls(ctx.view, Some(b.keyTarget)).value, ctx.view.vs, Some(ctx.view.user)).value)
  {
    var view := ctx.view;
    var url := VsGetUrl(view, Some(b.keyTarget), ctx.obj, map[]).value;
    var cls := VsGetCls(view, Some(b.keyTarget)).value;
    var extra := map[VsAccess := VBool(VsHasAccess(cls, view.vs, Some(view.user)).value), VsUrl := VUrl(url)];
    assert PlainButtonContext(engine, ctx, b) == LabelledLinkData(engine, cls, extra, RenderLabel(engine, b));
    assert extra[VsAccess] == VBool(VsHasAccess(cls, view.vs, Some(view.user)).value);
  }

  /** A plain button's own label replaces the target class's action label
      whenever it renders non-empty (`LabelledActionLabel` gives the other
      case). */
  lemma PlainButtonLabel(engine: Engine, ctx: Context<View>, b: ContextButton, caption: string)
    requires b.Button? && PlainButtonContext(engine, ctx, b).Ok?
    requires RenderLabel(engine, b) == Ok(Some(caption)) && caption != ""
    ensures PlainButtonContext(engine, ctx, b).value[VsActionLabel] == VStr(caption)
  {
  }

  /** The kwargs loop of `ParentContextButton.get_context` over the first `n`
      parent arguments: the first is passed under the parent's pk name, and
      only when the parent target needs an object; the rest keep their names. */
  function ParentKwargs(args: seq<string>, n: nat, needsObject: bool, pkName: string, source: map<string, string>)
    : (r: Result<map<string, string>>)
    requires n <= |args|
    ensures r.Ok? <==> forall i :: 0 <= i < n && (i > 0 || needsObject) ==> args[i] in source
    ensures r.Err? ==> r.error.KeyError?
    ensures r.Ok? ==> r.value.Keys == (if needsObject && n > 0 then {pkName} else {}) + (set i | 1 <= i < n :: args[i])
    ensures r.Ok? ==> forall i :: 1 <= i < n && LastAt(args, i, n) ==>
                        args[i] in r.value && args[i] in source && r.value[args[i]] == source[args[i]]
    ensures r.Ok? && needsObject && n > 0 && (forall j :: 1 <= j < n ==> args[j] != pkName) ==>
              pkName in r.value && args[0] in source && r.value[pkName] == source[args[0]]
    decreases n
  {
    if n == 0 then Ok(map[])
    else
      var prev := ParentKwargs(args, n - 1, needsObject, pkName, source);
      var arg := args[n - 1];
      if prev.Err? then Err(prev.error)
      else if n == 1 then
        if !needsObject then prev
        else if arg in source then Ok(prev.value[pkName := source[arg]])
        else Err(KeyError(arg))
      else if arg in source then
        ParentKwargsStepKeys(args, n, if needsObject then {pkName} else {}, prev.value, source[arg]);
        ParentKwargsStepLater(args, n, source, prev.value);
        ParentKwargsStepPk(args, n, needsObject, pkName, source, prev.value);
        Ok(prev.value[arg := source[arg]])
      else Err(KeyError(arg))
  }

  /** One later argument of the kwargs loop, keys: adding `args[n - 1]`
      extends the keys built from the first `n - 1` arguments by that name. */
  lemma ParentKwargsStepKeys(args: seq<string>, n: nat, pk: set<string>, m: map<string, string>, v: string)
    requires 1 < n <= |args|
    requires m.Keys == pk + (set i | 1 <= i < n - 1 :: args[i])
    ensures m[args[n - 1] := v].Keys == pk + (set i | 1 <= i < n :: args[i])
  {
    assert (set i | 1 <= i < n :: args[i]) == (set i | 1 <= i < n - 1 :: args[i]) + {args[n - 1]};
  }

  /** One later argument, values: each later argument at its last
      occurrence keeps the source's value. */
  lemma ParentKwargsStepLater(args: seq<string>, n: nat, source: map<string, string>, m: map<string, string>)
    requires 1 < n <= |args| && args[n - 1] in source
    requires forall i :: 1 <= i < n - 1 && LastAt(args, i, n - 1) ==>
               args[i] in m && args[i] in source && m[args[i]] == source[args[i]]
    ensures var m' := m[args[n - 1] := source[args[n - 1]]];
            forall i :: 1 <= i < n && LastAt(args, i, n) ==>
              args[i] in m' && args[i] in source && m'[args[i]] == source[args[i]]
  {
    assert forall i :: 1 <= i < n - 1 && LastAt(args, i, n) ==> LastAt(args, i, n - 1) && args[i] != args[n - 1];
  }

  /** One later argument, pk: a later argument with another name leaves
      the pk entry alone. */
  lemma ParentKwargsStepPk(args: seq<string>, n: nat, needsObject: bool, pkName: string, source: map<string, string>,
                           m: map<string, string>)
    requires 1 < n <= |args| && args[n - 1] in source
    requires needsObject && (forall j :: 1 <= j < n - 1 ==> args[j] != pkName) ==>
               pkName in m && args[0] in source && m[pkName] == source[args[0]]
    ensures var m' := m[args[n - 1] := source[args[n - 1]]];
            needsObject && (forall j :: 1 <= j < n ==> args[j] != pkName) ==>
              pkName in m' && args[0] in source && m'[pkName] == source[args[0]]
  {
  }

  /** A parent button on a first-level child page reached from a parent
      object links back to that object: the child link puts the object's id
      under the parent argument, and the parent button reads it from there. */
  lemma ParentLinkReturnsToObject(arg: string, pkName: string, o: ModelObject, request: map<string, string>)
    ensures ChildKwargs([arg], 1, Some(o), request) == Ok(map[arg := o.id])
    ensures ParentKwargs([arg], 1, true, pkName, ChildKwargs([arg], 1, Some(o), request).value)
            == Ok(map[pkName := o.id])
  {
    assert [arg][0] == arg;
    assert (set i | 0 <= i < 1 :: [arg][i]) == {arg};
    assert LastAt([arg], 0, 1);
    ChildKwargsValue([arg], 1, Some(o), request, 0);
  }

  /** The kwargs the parent button reverses the parent's route with: every
      parent argument of this page's view set is read from the request
      kwargs, the first under the parent's pk name and only for an object
      target, the others under their own names. */
  function ParentButtonKwargs(view: View, cls: ViewClass): (r: Result<map<string, string>>)
    requires view.vs.parent.Some?
    ensures var args := view.vs.parentUrlArgs;
            r.Ok? <==> forall i :: 0 <= i < |args| && (i > 0 || cls.needsObject) ==> args[i] in view.kwargs
    ensures r.Err? ==> r.error.KeyError?
    ensures var args := view.vs.parentUrlArgs;
            r.Ok? ==> forall i :: 1 <= i < |args| && LastAt(args, i, |args|) ==>
                        args[i] in r.value && args[i] in view.kwargs && r.value[args[i]] == view.kwargs[args[i]]
    ensures var args := view.vs.parentUrlArgs; var pk := view.vs.parent.value.pkName;
            r.Ok? && cls.needsObject && |args| > 0 && (forall j :: 1 <= j < |args| ==> args[j] != pk) ==>
              pk in r.value && args[0] in view.kwargs && r.value[pk] == view.kwargs[args[0]]
  {
    ParentKwargs(view.vs.parentUrlArgs, |view.vs.parentUrlArgs|, cls.needsObject, view.vs.parent.value.pkName, view.kwargs)
  }

  /** `ParentContextButton.get_context`: nothing without a parent view set;
      otherwise the parent's target class's link data with a URL built from
      this page's parent arguments and the parent's header icon. */
  function ParentButtonContext(engine: Engine, ctx: Context<View>, b: ContextButton): (r: Result<map<Field, Value>>)
    requires b.Button?
    ensures ctx.view.vs.parent.None? ==> r == Ok(map[])
    ensures ctx.view.vs.parent.Some? && b.keyTarget !in ctx.view.vs.parent.value.views ==> r.Err? && r.error.ViewNotFound?
    ensures ctx.view.vs.parent.Some? && b.keyTarget in ctx.view.vs.parent.value.views ==>
              var cls := ctx.view.vs.parent.value.views[b.keyTarget];
              (r.Ok? <==> ParentButtonKwargs(ctx.view, cls).Ok? && HasLabels(engine, cls))
    ensures ctx.view.vs.parent.Some? && r.Ok? ==> r.value.Keys == DictKeys + {VsAccess, VsIconAction, VsUrl}
  {
    var view := ctx.view;
    match view.vs.parent
    case None => Ok(map[])
    case Some(parent) =>
      if b.keyTarget !in parent.views then Err(ViewNotFound(b.keyTarget))
      else
        var cls := parent.views[b.keyTarget];
        var kw :- ParentButtonKwargs(view, cls);
        var access := VsHasAccess(cls, parent, Some(view.user)).value;
        VsGetDict(engine, cls, map[VsAccess := VBool(access), VsIconAction := OfStr(parent.iconHeader),
                                   VsUrl := VUrl(Url(Route(parent.name, Some(b.keyTarget)), kw))])
  }

  /** A parent button links to the target key of the parent view set, with
      the parent arguments of this page, the parent's header icon, and the
      access the parent view set grants the user. */
  lemma ParentButtonTarget(engine: Engine, ctx: Context<View>, b: ContextButton)
    requires b.Button? && ctx.view.vs.parent.Some? && ParentButtonContext(engine, ctx, b).Ok?
    ensures b.keyTarget in ctx.view.vs.parent.value.views
    ensures var parent := ctx.view.vs.parent.value;
            var cls := parent.views[b.keyTarget];
            var data := ParentButtonContext(engine, ctx, b).value;
            && ParentButtonKwargs(ctx.view, cls).Ok?
            && data[VsUrl] == VUrl(Url(Route(parent.name, Some(b.keyTarget)), ParentButtonKwargs(ctx.view, cls).value))
            && data[VsIconAction] == OfStr(parent.iconHeader)
            && data[VsAccess] == VBool(VsHasAccess(cls, parent, Some(ctx.view.user)).value)
  {
    var parent := ctx.view.vs.parent.value;
    var cls := parent.views[b.keyTarget];
    var kw := ParentButtonKwargs(ctx.view, cls).value;
    var access := VsHasAccess(cls, parent, Some(ctx.view.user)).value;
    var extra := map[VsAccess := VBool(access), VsIconAction := OfStr(parent.iconHeader),
                     VsUrl := VUrl(Url(Route(parent.name, Some(b.keyTarget)), kw))];
    assert ParentButtonContext(engine, ctx, b) == VsGetDict(engine, cls, extra);
  }

  const FilterIcon: string := "fa-solid fa-filter"

  /** `FilterContextButton.get_context`: views without a table filter get
      only `vs_access` False; filter views link to their own URL with the
      fixed label and icon and the theme's filter template. */
  function FilterButtonContext(engine: Engine, ctx: Context<View>): (r: Result<map<Field, Value>>)
    ensures !ctx.view.cls.hasTableFilter ==> r == Ok(map[VsAccess := VBool(false)])
    ensures ctx.view.cls.hasTableFilter ==> (r.Ok? <==> VsGetUrl(ctx.view, ctx.view.cls.key, None, map[]).Ok?)
    ensures ctx.view.cls.hasTableFilter && r.Ok? ==>
              && r.value.Keys == {VsActionLabel, VsIconAction, VsUrl, VsTemplate}
              && r.value[VsActionLabel] == VStr("Filter")
              && r.value[VsIconAction] == VStr(FilterIcon)
              && r.value[VsUrl] == VUrl(VsGetUrl(ctx.view, ctx.view.cls.key, None, map[]).value)
              && r.value[VsTemplate] == VStr(engine.themePath + "/tags/context_action_filter.html")
  {
    if !ctx.view.cls.hasTableFilter then Ok(map[VsAccess := VBool(false)])
    else
      var listUrl :- VsGetUrl(ctx.view, ctx.view.cls.key, None, map[]);
      Ok(map[VsActionLabel := VStr("Filter"), VsIconAction := VStr(FilterIcon),
             VsUrl := VUrl(listUrl), VsTemplate := VStr(engine.themePath + "/tags/context_action_filter.html")])
  }

  /** A filter view's filter button links to the view itself: the route of
      its own key, which resolves to its own class and needs no object. */
  lemma FilterLinksToOwnList(engine: Engine, ctx: Context<View>)
    requires ctx.view.cls.hasTableFilter && !ctx.view.cls.needsObject
    requires AllTruthy(ctx.view.vs.parentUrlArgs, ctx.view.kwargs)
    ensures FilterButtonContext(engine, ctx).Ok?
    ensures FilterButtonContext(engine, ctx).value[VsUrl].url.route == Route(ctx.view.vs.name, ctx.view.cls.key)
    ensures VsGetCls(ctx.view, ctx.view.cls.key) == Ok(ctx.view.cls)
  {
  }

  /** `get_context` of whichever button it is. */
  function ButtonContext(engine: Engine, ctx: Context<View>, b: ContextButton): (r: Result<map<Field, Value>>)
    ensures b == FilterButton ==> r == FilterButtonContext(engine, ctx)
    ensures b.Button? && b.kind == Plain ==> r == PlainButtonContext(engine, ctx, b)
    ensures b.Button? && b.kind == ToParent ==> r == ParentButtonContext(engine, ctx, b)
  {
    match b
    case FilterButton => FilterButtonContext(engine, ctx)
    case Button(kind, _, _, _, _) =>
      if kind == Plain then PlainButtonContext(engine, ctx, b) else ParentButtonContext(engine, ctx, b)
  }

  /** `vs_get_context`: a key naming a context button of the view set yields
      that button's data; any other key names a sibling view, whose link data
      carries access for `user`, the object id and the URL. */
  function VsGetContext(engine: Engine, view: View, key: Option<string>, obj: Option<ModelObject>, user: Option<User>)
    : (r: Result<map<Field, Value>>)
    ensures VsGetContextButton(view.vs.contextButtons, key).Some? ==>
              r == ButtonContext(engine, Context(view, obj), VsGetContextButton(view.vs.contextButtons, key).value)
    ensures VsGetContextButton(view.vs.contextButtons, key).None? ==>
              (r.Ok? <==> VsGetUrl(view, key, obj, map[]).Ok?
                          && VsHasAccess(VsGetCls(view, key).value, view.vs, user).Ok?
                          && HasLabels(engine, VsGetCls(view, key).value))
    ensures VsGetContextButton(view.vs.contextButtons, key).None? && r.Ok? ==>
              r.value.Keys == DictKeys + {VsAccess, VsOid, VsUrl}
  {
    var ctx := Context(view, obj);
    match VsGetContextButton(view.vs.contextButtons, key)
    case Some(b) => ButtonContext(engine, ctx, b)
    case None =>
      var oid := VsGetOid(view.vs, key, obj);
      var url :- VsGetUrl(view, key, obj, map[]);
      var cls := VsGetCls(view, key).value;
      var access :- VsHasAccess(cls, view.vs, user);
      VsGetDict(engine, cls, map[VsAccess := VBool(access), VsOid := OfStr(oid), VsUrl := VUrl(url)])
  }

  /** A sibling view is linked by its URL. */
  lemma SiblingUrl(engine: Engine, view: View, key: Option<string>, obj: Option<ModelObject>, user: Option<User>)
    requires VsGetContextButton(view.vs.contextButtons, key).None?
    requires VsGetContext(engine, view, key, obj, user).Ok?
    ensures VsGetUrl(view, key, obj, map[]).Ok?
            && VsGetContext(engine, view, key, obj, user).value[VsUrl] == VUrl(VsGetUrl(view, key, obj, map[]).value)
  {
  }

  /** A sibling view's link data carries the object id for the key. */
  lemma SiblingOid(engine: Engine, view: View, key: Option<string>, obj: Option<ModelObject>, user: Option<User>)
    requires VsGetContextButton(view.vs.contextButtons, key).None?
    requires VsGetContext(engine, view, key, obj, user).Ok?
    ensures VsGetContext(engine, view, key, obj, user).value[VsOid] == OfStr(VsGetOid(view.vs, key, obj))
  {
  }

  /** A sibling view's link data carries its access for `user`. */
  lemma SiblingAccess(engine: Engine, view: View, key: Option<string>, obj: Option<ModelObject>, user: Option<User>)
    requires VsGetContextButton(view.vs.contextButtons, key).None?
    requires VsGetContext(engine, view, key, obj, user).Ok?
    ensures VsGetCls(view, key).Ok? && VsHasAccess(VsGetCls(view, key).value, view.vs, user).Ok?
    ensures VsGetContext(engine, view, key, obj, user).value[VsAccess]
            == VBool(VsHasAccess(VsGetCls(view, key).value, view.vs, user).value)
  {
    var url := VsGetUrl(view, key, obj, map[]).value;
    var cls := VsGetCls(view, key).value;
    var access := VsHasAccess(cls, view.vs, user).value;
    var extra := map[VsAccess := VBool(access), VsOid := OfStr(VsGetOid(view.vs, key, obj)), VsUrl := VUrl(url)];
    assert VsGetContext(engine, view, key, obj, user) == VsGetDict(engine, cls, extra);
    assert extra[VsAccess] == VBool(access);
  }

  /** The filter button shadows a sibling view registered under "filter":
      a view set listing it gets the button's data for that key. */
  lemma ButtonShadowsView(engine: Engine, view: View, obj: Option<ModelObject>, user: Option<User>)
    requires view.vs.contextButtons == [FilterButton]
    ensures VsGetContext(engine, view, Some("filter"), obj, user) == FilterButtonContext(engine, Context(view, obj))
  {
    assert Some("filter") == Some(ButtonKey(view.vs.contextButtons[0]));
  }

  /** A sibling whose mapped permission an inactive user lacks is still
      linked, but marked inaccessible. */
  lemma DeniedSiblingStillLinked(engine: Engine, view: View, key: string, obj: Option<ModelObject>, u: User)
    requires VsGetContextButton(view.vs.contextButtons, Some(key)).None?
    requires VsGetContext(engine, view, Some(key), obj, Some(u)).Ok?
    requires VsGetCls(view, Some(key)).value.access.PermissionRequired?
    requires PermissionRequiredOf(VsGetCls(view, Some(key)).value, view.vs).Ok?
    requires !u.isActive
    ensures VsGetContext(engine, view, Some(key), obj, Some(u)).value[VsAccess] == VBool(false)
    ensures VsUrl in VsGetContext(engine, view, Some(key), obj, Some(u)).value
  {
    SiblingAccess(engine, view, Some(key), obj, Some(u));
  }
}
