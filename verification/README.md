# django-crud-views, modelled in Dafny

This project models the core of django-crud-views. The library builds CRUD
views for Django models. Views are grouped into view sets, and each view is
registered under a key. A view links to its sibling views, to its parent
view set and to its child view sets through context buttons. Its access
checks use Django permissions. A workflow add-on drives django-fsm state
machines through a form. A polymorphic add-on picks models and forms per
content type.

Everything is modelled as immutable datatypes and pure functions. Django's
services become parameters or plain data:

- templates become an `Engine`, a map from template source to rendered text;
- `reverse` becomes a symbolic `Url` (a route plus kwargs);
- the session is a map;
- the workflow audit table is a sequence of rows;
- django-fsm transitions are data, and their side effects are an `Effects` value;
- a failure Python would raise becomes `Err(...)` of a `Result`.

Modules, one per source file or concern:

- `Common`: `Option`, `Result`, the error kinds, and Python's `str.strip`, `split` and `join` on strings.
- `PathRegs` (crud_views/lib/viewset/path_regs.py): the five URL patterns, as a small regular-expression AST with exact languages. It also models `get_path_pk` and `get_path`, and how a named group reads back.
- `ViewContext` (crud_views/lib/view/context.py): `ViewContext` normalises the empty string to "no object", and `to_dict`.
- `ViewBase` (crud_views/lib/view/base.py):
  - `render_snippet`;
  - class lookup by key, and the object assertion;
  - URL kwargs for sibling and child views;
  - the object id;
  - the link data of a class;
  - context-button lookup;
  - `vs_has_access`, both the base version and the one in the permission mixin.
- `Buttons` (crud_views/lib/view/buttons.py, with `vs_get_context` of base.py): the plain, parent and filter context buttons, and the dispatch between a button and a sibling view.
- `FilterPersistence` (crud_views/lib/views/mixins.py): `parse_qs` on the query string, and the session-backed GET and POST of `ListViewTableFilterMixin`.
- `DetailChecks` (crud_views/lib/views/detail.py): the structural checks E240 to E245 on `cv_property_display`.
- `Workflow` (crud_views_workflow/lib/mixins.py and lib/enums.py): the current `WorkflowMixin`. It covers comment levels, possible transitions, labels, form kwargs, state names and badges, and the ordered history.
- `WorkflowForm` (crud_views_workflow/lib/forms.py): `WorkflowForm.__init__` and `clean`.
- `WorkflowView` (crud_views_workflow/lib/views.py): taking a transition atomically, writing the audit record and calling the hook, plus the view's form kwargs and context.
- `WorkflowLegacy` (crud_views_workflow/mixins.py): the older mixin, compared with the current one.
- `ChildView` (crud_views/lib/views/child.py): `RedirectChildView`.
- `ViewMeta` (crud_views/lib/view/meta.py): the metaclass registration rule.
- `Polymorphic` (crud_views_polymorphic/lib/utils.py):
  - the pre-order walk over subclasses;
  - Python's `int()` on strings;
  - `PolymorphicCrudViewMixin`.

Notes on reading the source:

- The current workflow mixin reads state names from `STATE_ENUM.choices`. The legacy one reads them from `STATE_CHOICES`. Both are modelled as a sequence of (value, label) pairs, where the last pair with a given value wins, as in `dict()`.
- Attribute and method names mix the `vs_` and `cv_` prefixes. crud_views/lib/views/child.py calls `cv_get_child_url`, but base.py defines that method as `vs_get_child_url`. The model treats the two names as the same method (`ViewBase.VsGetChildUrl`). It does the same for `cv_key` and `vs_key`, and for `cv_get_url_extra_kwargs` and `vs_get_url_extra_kwargs`.
- Unmapped permissions: the permission mixin's `vs_has_access` calls `has_perms` on an empty tuple when the view's permission name is not mapped. In Django that grants access. `permission_required`, which guards the request itself, fails in the same case. The model follows the code, so a link to such a view is shown as accessible while the view itself refuses to dispatch.
- Check E240 is computed by `CheckAttribute`, which lives in crud_views/lib/check.py. That file is not part of this model, so E240 is taken to pass exactly when `cv_property_display` is not None.

## Model

| member | source | states |
|---|---|---|
| PathRegs.IntLanguage | crud_views/lib/viewset/path_regs.py:1 | INT accepts exactly the non-empty strings of decimal digits |
| PathRegs.HexLanguage | crud_views/lib/viewset/path_regs.py:2 | HEX accepts exactly the non-empty strings of digits and lower-case letters a to z |
| PathRegs.HexAcceptsNonHexLetters | crud_views/lib/viewset/path_regs.py:2 | HEX accepts strings that are not hexadecimal, such as "xyz" |
| PathRegs.UuidLanguage | crud_views/lib/viewset/path_regs.py:3 | UUID accepts exactly lower-case hex in 8-4-4-4-12 groups, where the third group starts with 4 and the fourth starts with one of 8, 9, a or b |
| PathRegs.KeyLanguage | crud_views/lib/viewset/path_regs.py:4 | KEY accepts exactly the non-empty strings over a to z and underscore |
| PathRegs.StrLanguage | crud_views/lib/viewset/path_regs.py:5 | STR accepts exactly the non-empty strings over letters, digits, underscore and hyphen |
| PathRegs.KeyWithinStr | crud_views/lib/viewset/path_regs.py:4-5 | every string KEY accepts is also accepted by STR |
| PathRegs.GetPathPk | crud_views/lib/viewset/path_regs.py:7-8 | the group opens with "(?P<", closes with ")", and is six characters longer than the name plus the pattern |
| PathRegs.GetPath | crud_views/lib/viewset/path_regs.py:10-11 | get_path builds the same group as get_path_pk |
| PathRegs.NamedGroupRoundTrip | crud_views/lib/viewset/path_regs.py:7-8 | for a name without '>', reading the group back yields the name and the pattern |
| PathRegs.NamedGroupRebuild | crud_views/lib/viewset/path_regs.py:7-8 | every string that reads back as a named group is the group of its name and pattern |
| ViewContext.ValidateObject | crud_views/lib/view/context.py:16-25 | the empty string becomes None; every other value, None included, is kept |
| ViewContext.MakeContext | crud_views/lib/view/context.py:14-25 | a context holds the view and the normalised object: None and "" give no object, an instance is kept, and any other string is refused |
| ViewContext.ToDict | crud_views/lib/view/context.py:27-30 | the dict has exactly the key "object", bound to the context's object |
| ViewContext.EmptyStringIsNoObject | crud_views/lib/view/context.py:16-30 | a context made from "" exports no object |
| ViewBase.Render | crud_views/lib/view/base.py:96-106 | rendering succeeds iff the engine knows the source, else a TemplateError; the output is the engine's output stripped |
| ViewBase.RenderSnippet | crud_views/lib/view/base.py:91-106 | non-empty code is rendered, else a non-empty template path; with neither it is a ViewSetViewError; the result has no surrounding whitespace |
| ViewBase.CodeWins | crud_views/lib/view/base.py:96-99 | non-empty code is rendered whatever the template path says |
| ViewBase.TemplateWithoutCode | crud_views/lib/view/base.py:100-101 | without code, the template path is rendered |
| ViewBase.EmptyStringsAreAbsent | crud_views/lib/view/base.py:96-103 | empty code and an empty path count as missing |
| ViewBase.VsGetCls | crud_views/lib/view/base.py:167-173 | an empty or own key gives the own class; any other key fails iff the view set has no class under it, with ViewNotFound |
| ViewBase.ResolvedClassCarriesKey | crud_views/lib/view/base.py:171-172 | in a consistent view set, lookup succeeds iff the effective key is registered, and the class found carries that key |
| ViewBase.OwnKeyResolvesToSelf | crud_views/lib/view/base.py:171-172 | None, the empty key and the own key all give the view's own class |
| ViewBase.VsGetClsAssertObject | crud_views/lib/view/base.py:175-181 | the looked-up class, unless it needs an object and none is given, which is a ViewSetViewError |
| ViewBase.CopyParentArgs | crud_views/lib/view/base.py:205-210 | fails with ValueError iff a parent arg is missing or empty; otherwise every parent arg carries the view's kwarg and other entries are kept |
| ViewBase.UrlKwargs | crud_views/lib/view/base.py:193-211 | fails iff a parent arg is missing or empty; otherwise the keys are the caller extras, the pk name for object views, the parent args and the class extras |
| ViewBase.UrlKwargsClassExtrasWin | crud_views/lib/view/base.py:211 | a class extra kwarg overrides every earlier entry of the same name |
| ViewBase.UrlKwargsParentArg | crud_views/lib/view/base.py:205-211 | a parent arg that no class extra overrides carries the view's kwarg value |
| ViewBase.UrlKwargsObjectPk | crud_views/lib/view/base.py:197-199 | an object view's pk name carries the object's pk unless a parent arg or class extra shares the name |
| ViewBase.UrlKwargsCallerExtra | crud_views/lib/view/base.py:193-195 | a caller extra survives unless a later source uses its name |
| ViewBase.VsGetUrl | crud_views/lib/view/base.py:187-216 | succeeds iff the class lookup, the object assertion and every parent arg do; a failing parent arg is a ValueError; the route is the view set's route for the key |
| ViewBase.VsGetUrlKwargs | crud_views/lib/view/base.py:187-216 | a URL that succeeds carries exactly the kwargs that UrlKwargs builds |
| ViewBase.UrlCarriesObjectPk | crud_views/lib/view/base.py:198-199 | a link to an object view carries the object's pk under the view set's pk name |
| ViewBase.PkDigest | crud_views/lib/view/base.py:247 | the digest has no '-' and no ' ', and holds every other character of the pk as often as the pk does |
| ViewBase.PkDigestAppend | crud_views/lib/view/base.py:247 | the digest of two pieces of a pk is their two digests in order, so the kept characters stay in the pk's order |
| ViewBase.PkDigestChar | crud_views/lib/view/base.py:247 | a '-' or a ' ' is dropped; any other character is kept as it is |
| ViewBase.VsGetOid | crud_views/lib/view/base.py:240-248 | None iff there is no object; otherwise exactly name_key_digest: the view set name, "_", the key (None printed as "None"), "_", then the pk's digest |
| ViewBase.OidKeepsPlainPk | crud_views/lib/view/base.py:247-248 | a pk without '-' or ' ' appears verbatim in the id |
| ViewBase.ClassAttributes | crud_views/lib/view/base.py:143-156 | the data holds exactly the twelve class-attribute keys, the labels rendered |
| ViewBase.VsGetDict | crud_views/lib/view/base.py:137-158 | succeeds iff both labels render; the keys are the class keys plus the extras, and every extra wins |
| ViewBase.DictKeepsClassAttributes | crud_views/lib/view/base.py:143-158 | a class attribute that no extra overrides keeps its value |
| ViewBase.VsGetContextButton | crud_views/lib/view/base.py:230-238 | the first button with the key, or None iff no button has it |
| ViewBase.RequiredPerms | crud_views/lib/view/base.py:364-366 | the mapped permission as a one-element tuple, or the empty tuple when unmapped |
| ViewBase.HasPerms | crud_views/lib/view/base.py:367 | an empty permission list always passes; otherwise true iff the user is active and is a superuser or holds every listed permission |
| ViewBase.VsHasAccess | crud_views/lib/view/base.py:363-368 | an open class always grants access; a permission class fails iff no user is given, since None has no has_perms |
| ViewBase.AccessDeniedIff | crud_views/lib/view/base.py:363-368 | access is denied iff the permission maps to a non-empty name and the user is inactive, or neither a superuser nor granted it |
| ViewBase.PermissionRequiredOf | crud_views/lib/view/base.py:355-361 | an unset permission name is a ViewSetViewError; an unmapped one is an AssertionError; otherwise the mapped permission |
| ViewBase.AccessAgreesWithDispatch | crud_views/lib/view/base.py:355-368 | when permission_required succeeds, link access and dispatch agree |
| ViewBase.UnmappedPermissionGrantsLinks | crud_views/lib/view/base.py:363-368 | a view whose permission is unmapped is linked as accessible although dispatch fails |
| ViewBase.ChildKwargs | crud_views/lib/view/base.py:314-321 | the keys are the zipped parent args; it fails with KeyError iff an arg read from the view kwargs is missing |
| ViewBase.ChildKwargsValue | crud_views/lib/view/base.py:317-321 | each arg carries the object's id or the view's kwarg, by position |
| ViewBase.VsGetChildUrl | crud_views/lib/view/base.py:305-323 | an unknown view set is ViewNotFound, no parent is AttributeError, another parent is ParentViewSetError; for a child of this view set it succeeds iff every parent arg the loop reads from the request kwargs is there (a KeyError otherwise), and then gives the child's route for the key with the child kwargs over the zipped args |
| ViewBase.ChildUrlValues | crud_views/lib/view/base.py:316-321 | a child at any depth resolves once the request holds the args the loop reads; each visited arg carries the object's id at position 0 when linking from an object, else the request's kwarg |
| ViewBase.ChildUrlOfObject | crud_views/lib/view/base.py:317-319 | for a first-level child, the URL carries exactly the object's id as its parent arg |
| Buttons.RenderLabelAsWritten | crud_views/lib/view/buttons.py:21-25 | the label template wins over the code; with code only the call fails; with neither there is no label |
| Buttons.RenderLabel | crud_views/lib/view/buttons.py:21-25 | no label iff neither is set; the label template is rendered when set, else the code; the label has no surrounding whitespace |
| Buttons.LabelCodeOnlyFails | crud_views/lib/view/buttons.py:24-25 | a button with only label code always raises AttributeError as written |
| Buttons.LabelPrecedenceOppositeToSnippet | crud_views/lib/view/buttons.py:22-25 | with both set, the label prefers the template while render_snippet prefers the code |
| Buttons.WithLabel | crud_views/lib/view/buttons.py:48-50 | the action label is replaced only by a non-empty caption; every other entry is kept |
| Buttons.LabelledLinkData | crud_views/lib/view/buttons.py:44-50 | succeeds iff both class labels and the caption render; the keys are the class keys plus the extras, and the extras other than the label are kept |
| Buttons.LabelledActionLabel | crud_views/lib/view/buttons.py:44-50 | the action label is the caption when non-empty, otherwise the class's own label |
| Buttons.PlainButtonContext | crud_views/lib/view/buttons.py:27-52 | succeeds iff the URL, the class labels and the button label all succeed; the data has the class keys plus vs_access and vs_url |
| Buttons.PlainButtonContextAsWritten | crud_views/lib/view/buttons.py:21-50 | as written, the result equals the corrected one whenever a label template is set or no label code is; a button labelled by code alone fails |
| Buttons.CodeOnlyButtonFails | crud_views/lib/view/buttons.py:24-25 | a code-labelled button whose corrected context exists fails as written with an AttributeError |
| Buttons.PlainButtonUrl | crud_views/lib/view/buttons.py:29-32 | the button links to the target key's URL for the context's object |
| Buttons.PlainButtonAccess | crud_views/lib/view/buttons.py:37-42 | vs_access is true iff the target class grants the request user access |
| Buttons.PlainButtonLabel | crud_views/lib/view/buttons.py:47-50 | a non-empty rendered label becomes the action label |
| Buttons.ParentKwargs | crud_views/lib/view/buttons.py:75-82 | succeeds iff every needed arg is in the source kwargs, else a KeyError; the keys are the parent's pk name (object targets only) and the later args; a later arg carries the kwarg of its name, and the pk name carries arg 0's kwarg unless a later arg has the same name |
| Buttons.ParentButtonKwargs | crud_views/lib/view/buttons.py:75-82 | over this page's parent args and the request kwargs: succeeds iff every needed arg is present, else a KeyError; later args keep their kwarg and the parent's pk name gets arg 0's kwarg |
| Buttons.ParentLinkReturnsToObject | crud_views/lib/view/buttons.py:76-80 | a child link from an object carries its id under the parent arg, and the parent button reads it back under the parent's pk name |
| Buttons.ParentButtonContext | crud_views/lib/view/buttons.py:60-100 | no parent gives {}; a target missing from the parent is ViewNotFound; otherwise it succeeds iff the kwargs and labels do, with vs_access, vs_icon_action and vs_url |
| Buttons.ParentButtonTarget | crud_views/lib/view/buttons.py:66-99 | the button's icon is the parent view set's header icon and its URL the parent's route for the target key |
| Buttons.FilterButtonContext | crud_views/lib/view/buttons.py:110-141 | a non-filter view gives exactly {vs_access: False}; a filter view gives label, icon, own list URL and template, with no access key |
| Buttons.FilterLinksToOwnList | crud_views/lib/view/buttons.py:123-135 | a filter button links to the URL of the view's own key |
| Buttons.ButtonContext | crud_views/lib/view/base.py:263-265 | a filter button yields the filter context, a plain button the plain context and a parent button the parent context |
| Buttons.VsGetContext | crud_views/lib/view/base.py:250-290 | a matching button's context is returned as is; otherwise it succeeds iff URL, access and labels do, with vs_access, vs_oid and vs_url |
| Buttons.SiblingUrl | crud_views/lib/view/base.py:269-273 | a sibling link carries the URL of its key for the object |
| Buttons.SiblingOid | crud_views/lib/view/base.py:269-272 | a sibling link carries the object id of its key |
| Buttons.SiblingAccess | crud_views/lib/view/base.py:281-285 | a sibling link's access is the target class's verdict for the given user |
| Buttons.ButtonShadowsView | crud_views/lib/view/base.py:262-266 | a button key shadows any view of the same key |
| Buttons.DeniedSiblingStillLinked | crud_views/lib/view/base.py:269-290 | an inactive user gets a mapped-permission sibling with vs_access false, still with its URL |
| FilterPersistence.ParseField | crud_views/lib/views/mixins.py:143 | a pair iff the field has an '=' followed by a non-empty value; the pair is the text before the first '=' and the text after it, each with '+' read as a space |
| FilterPersistence.ParseFieldDecodes | crud_views/lib/views/mixins.py:143 | for a name without '=', name=value gives nothing when the value is empty, otherwise the name and the value with '+' read as a space |
| FilterPersistence.ParseQsl | crud_views/lib/views/mixins.py:143 | every kept field's pair is listed and every listed pair comes from a field; no more pairs than fields, none with a blank value |
| FilterPersistence.ParseQslOne | crud_views/lib/views/mixins.py:143 | a single field gives its own pair, or nothing when it is dropped |
| FilterPersistence.ParseQslAppend | crud_views/lib/views/mixins.py:143 | the pairs of two runs of fields are those of the first run followed by those of the second |
| FilterPersistence.FirstValue | crud_views/lib/views/mixins.py:143-144 | the value of the first pair with the name, or none iff no pair has it |
| FilterPersistence.FirstValueNone | crud_views/lib/views/mixins.py:143-144 | with no field kept under the name, the parsed pairs give no value for it |
| FilterPersistence.FirstValueAt | crud_views/lib/views/mixins.py:143-144 | the value found is that of the first field kept under the name |
| FilterPersistence.QueryFirst | crud_views/lib/views/mixins.py:143-144 | on the raw query string: nothing when no '&'-separated field is kept under the name, else the value of the first that is |
| FilterPersistence.WantsReset | crud_views/lib/views/mixins.py:144 | a reset is asked for iff the first reset_filter value is present and is exactly "true" |
| FilterPersistence.WantsResetIff | crud_views/lib/views/mixins.py:143-144 | when field i of the raw query string is the first kept under reset_filter, a reset is asked for iff its value reads "true" |
| FilterPersistence.NoResetWithoutField | crud_views/lib/views/mixins.py:144 | a query string with no reset_filter field never asks for a reset, the default being "false" |
| FilterPersistence.FieldParses | crud_views/lib/views/mixins.py:143 | name=value with no '&', '=' or '+' in either part reads back as that pair |
| FilterPersistence.SingleFieldReadsBack | crud_views/lib/views/mixins.py:143-144 | a one-field query string gives its value back under its name |
| FilterPersistence.TwoFieldsParse | crud_views/lib/views/mixins.py:143 | two such fields joined by '&' read back as both pairs, in order |
| FilterPersistence.StoredLength | crud_views/lib/views/mixins.py:161 | a stored string's length; a list or dict has one too; any other stored value has no len() and is an error |
| FilterPersistence.ResetUrl | crud_views/lib/views/mixins.py:150-153 | the bare path, plus "?sort=" and the value only when a non-empty sort is given |
| FilterPersistence.Get | crud_views/lib/views/mixins.py:126-165 | persistence off renders with the session untouched; a reset deletes the entry and redirects; a non-empty query is stored and rendered |
| FilterPersistence.BareGetRestores | crud_views/lib/views/mixins.py:160-163 | a bare GET redirects to path?stored and leaves the session as it was |
| FilterPersistence.ResetNeverStored | crud_views/lib/views/mixins.py:145-158 | a query string asking for a reset is never stored |
| FilterPersistence.FilterRoundTrip | crud_views/lib/views/mixins.py:156-163 | a GET with a query that asks for no reset, then a bare GET, redirects to path?query |
| FilterPersistence.ResetKeepsSort | crud_views/lib/views/mixins.py:150-154 | a reset with a sort redirects to path?sort=value and forgets the filter |
| FilterPersistence.Post | crud_views/lib/views/mixins.py:108-124 | persistence off answers status ok with null; an object body fails iff its flag is missing or null (BadRequest); a body that is not an object fails; a success stores the flag and echoes it |
| FilterPersistence.FilterExpandedContext | crud_views/lib/views/mixins.py:97-106 | the flag stored in the session when there is one, false when none is stored |
| FilterPersistence.ExpandedRoundTrip | crud_views/lib/views/mixins.py:100-124 | after a successful POST the page context shows the posted flag |
| FilterPersistence.SlotsIndependent | crud_views/lib/views/mixins.py:108-165 | GET never changes the expanded flag and POST never changes the stored query string |
| DetailChecks.PropertyChecks | crud_views/lib/views/detail.py:73-80 | one E245 per property in order, at its group and index, passing iff it is a str, a dict or a PropertyConfig |
| DetailChecks.GroupChecks | crud_views/lib/views/detail.py:50-80 | a group yields no check iff it is a group config; every check it yields is located at the group's index |
| DetailChecks.GroupsChecks | crud_views/lib/views/detail.py:49-80 | the groups yield no check iff every one is a group config; every check is located at the index of one of them |
| DetailChecks.DisplayChecks | crud_views/lib/views/detail.py:35-80 | E240 first, passing iff the value is set; E240 alone iff unset; then E241, passing iff it is a list; a non-list yields no more |
| DetailChecks.GroupPassesIff | crud_views/lib/views/detail.py:50-80 | a group's checks pass iff it is a group config, or a dict with title and a list of valid properties |
| DetailChecks.GroupsPassIff | crud_views/lib/views/detail.py:49-80 | the checks of a list of groups pass iff every group is well formed |
| DetailChecks.PassesIffWellFormed | crud_views/lib/views/detail.py:39-80 | all checks pass iff cv_property_display is a list of well-formed groups |
| DetailChecks.PropertyChecksCount | crud_views/lib/views/detail.py:74-80 | a properties list yields exactly one E245 per element |
| DetailChecks.GroupE245Count | crud_views/lib/views/detail.py:65-80 | a group yields one E245 per property when its properties are a list, else none |
| DetailChecks.GroupsE245Count | crud_views/lib/views/detail.py:49-80 | the groups yield as many E245 as they hold properties in total |
| DetailChecks.E245PerProperty | crud_views/lib/views/detail.py:41-80 | a class yields one E245 check per property of each listed group |
| DetailChecks.GroupHead | crud_views/lib/views/detail.py:50-64 | a group config yields no check; any other group starts with E242 (dict with title) and E243 (dict with properties) |
| DetailChecks.GroupE244 | crud_views/lib/views/detail.py:65-72 | E244 appears iff the group is a dict with properties, and passes iff they are a list |
| Workflow.LevelOrder | crud_views_workflow/lib/enums.py:4-7 | the comment levels are ordered NONE < OPTIONAL < REQUIRED, by their integer values |
| Workflow.Available | crud_views_workflow/lib/mixins.py:83 | a transition is listed iff it is declared and available to the user in the state |
| Workflow.ChoiceOf | crud_views_workflow/lib/mixins.py:84-86 | a missing label defaults to the name; a missing comment level defaults to COMMENT_DEFAULT |
| Workflow.Choices | crud_views_workflow/lib/mixins.py:81-87 | one triple per transition, in order |
| Workflow.PossibleTransitions | crud_views_workflow/lib/mixins.py:81-87 | one triple per available transition in order: its name, label or name, and level or COMMENT_DEFAULT |
| Workflow.PossibleTransitionsAreAvailable | crud_views_workflow/lib/mixins.py:81-87 | every offered triple names a transition that is available to the user |
| Workflow.NameOffered | crud_views_workflow/lib/mixins.py:93-96 | true iff some triple carries the name |
| Workflow.HasTransitionIff | crud_views_workflow/lib/mixins.py:92-96 | the loop over the offered triples finds the name iff a declared transition of that name is available to the user from the state |
| Workflow.HasAnyIff | crud_views_workflow/lib/mixins.py:89-90 | the offered list is non-empty iff some declared transition is available to the user |
| Workflow.HasTransition | crud_views_workflow/lib/mixins.py:92-96 | true iff some declared transition with the name is available to the user in the state |
| Workflow.HasAnyPossibleTransition | crud_views_workflow/lib/mixins.py:89-90 | true iff some declared transition is available to the user in the state |
| Workflow.NamedLabels | crud_views_workflow/lib/mixins.py:100 | one (name, label) pair per declared transition, the label defaulting to the name |
| Workflow.LabelMap | crud_views_workflow/lib/mixins.py:98-100 | the keys are exactly the declared names, available or not |
| Workflow.LabelOfDeclared | crud_views_workflow/lib/mixins.py:100 | the last declaration of a name gives its label, or the name without one |
| Workflow.TransitionLabel | crud_views_workflow/lib/mixins.py:102-103 | a KeyError iff the name is not declared; otherwise its entry in the label map |
| Workflow.GetFormKwargs | crud_views_workflow/lib/mixins.py:105-112 | choices are the offered (name, label) pairs in order; the comment map is keyed by exactly the offered names |
| Workflow.FormLevelOfOffered | crud_views_workflow/lib/mixins.py:107-109 | a name offered once maps to its own comment level |
| Workflow.CommentKwargs | crud_views_workflow/lib/mixins.py:51-53 | {comment: c} for a non-empty comment, otherwise {} |
| Workflow.GetStateName | crud_views_workflow/lib/mixins.py:26-30 | an unset STATE_ENUM is an AssertionError; a set enum, even one without members, gives "" for a falsy state, a KeyError for an unknown state, otherwise its label |
| Workflow.EmptyEnumPassesAssertion | crud_views_workflow/lib/mixins.py:26-30 | an enum without members passes the assertion: the empty state names "" and every other state is a KeyError |
| Workflow.CurrentStateName | crud_views_workflow/lib/mixins.py:32-35 | an empty state is an AssertionError; otherwise the state's name |
| Workflow.StateNameOfChoice | crud_views_workflow/lib/mixins.py:30 | a truthy state reads as the label of its last pair in the choices |
| Workflow.StateEnumUnsetFails | crud_views_workflow/lib/mixins.py:26-30 | with STATE_ENUM unset, every state name, even that of the empty state, is an AssertionError, and so is every badge |
| Workflow.StateBadge | crud_views_workflow/lib/mixins.py:37-45 | succeeds iff badges are configured and the name resolves; a badged state renders its class, any other gives its plain name |
| Workflow.GetStateBadge | crud_views_workflow/lib/mixins.py:37-45 | succeeds iff badges are configured and the name resolves; a badged state renders crud_views_workflow/badge.html with its state, name and class; any other state gives its plain name |
| Workflow.BadgeDefaultUnused | crud_views_workflow/lib/mixins.py:40-41 | a badge's class always comes from STATE_BADGES, never from STATE_BADGES_DEFAULT |
| Workflow.RecordsOf | crud_views_workflow/lib/mixins.py:55-58 | a row is listed iff it is in the table and refers to the object's content type and pk |
| Workflow.RecordsOfAppend | crud_views_workflow/lib/mixins.py:56-58 | appending a row of the object appends it to the object's rows; a row of another object changes nothing |
| Workflow.InsertSorted | crud_views_workflow/lib/mixins.py:59 | inserting into rows ordered by timestamp keeps them ordered |
| Workflow.SortByTimestamp | crud_views_workflow/lib/mixins.py:59 | the result is ordered by timestamp and is a permutation of its input |
| Workflow.SortKeepsSorted | crud_views_workflow/lib/mixins.py:59 | rows already in timestamp order are left as they are |
| Workflow.QueryInfos | crud_views_workflow/lib/mixins.py:55-59 | a lookup on a non-column is a FieldError; otherwise the object's rows, permuted into timestamp order |
| Workflow.EntryOf | crud_views_workflow/lib/mixins.py:66-77 | an entry exists iff both badges and the label resolve; it copies the row's time, user, states, transition and comment, and carries the old and new states' badges and the transition's label |
| Workflow.EntriesBuildPermuted | crud_views_workflow/lib/mixins.py:61-79 | whether every row's entry builds does not depend on the order of the rows, so sorting them does not change it |
| Workflow.Entries | crud_views_workflow/lib/mixins.py:63-79 | one entry per row in order, or an error iff some row's entry fails |
| Workflow.WorkflowDataBy | crud_views_workflow/lib/mixins.py:61-79 | a FieldError for a non-column; otherwise it succeeds iff every row of the object has its badges and label, and then gives one entry per row, in timestamp order, following some timestamp-ordered arrangement of exactly the object's rows, each copying its row's transition, states, comment, time and user |
| Workflow.WorkflowDataAsWrittenFails | crud_views_workflow/lib/mixins.py:55-59 | as written, reading the history is always a FieldError on workflow_object_id |
| Workflow.WorkflowDataAsWritten | crud_views_workflow/lib/mixins.py:55-59 | as written, always a FieldError on workflow_object_id |
| Workflow.WorkflowData | crud_views_workflow/lib/mixins.py:55-79 | succeeds iff every row of the object has its badges and label (so an object without rows has an empty history); then one entry per row in timestamp order, following some timestamp-ordered arrangement of exactly the object's rows, each entry copying its row; with rows already in time order each entry copies the row at its index |
| Workflow.HistoryFollowsTable | crud_views_workflow/lib/mixins.py:61-79 | filtering on workflow_object_pk, rows already in time order whose badges and labels resolve give a history, in table order with their fields |
| WorkflowForm.MaxLevel | crud_views_workflow/lib/forms.py:45-46 | the greatest level in the set, or NONE for the empty set |
| WorkflowForm.Init | crud_views_workflow/lib/forms.py:42-55 | the form's level is the maximum over the comment map; the comment is hidden iff that is NONE; the choices are kept in order |
| WorkflowForm.CommentMissing | crud_views_workflow/lib/forms.py:60-64 | a comment is missing iff it is absent or only whitespace |
| WorkflowForm.Clean | crud_views_workflow/lib/forms.py:57-65 | one comment error iff the transition requires a comment and it is missing; with no error the cleaned data is unchanged, with the error `add_error` removes the comment from it |
| WorkflowForm.HiddenCommentNeverRequired | crud_views_workflow/lib/forms.py:45-65 | a form whose comment field is hidden never reports a comment error |
| WorkflowForm.FormOfOfferedTransitions | crud_views_workflow/lib/forms.py:42-55 | the form has one choice per possible transition; its comment box is hidden iff every offered level is NONE, so always when nothing is offered |
| WorkflowView.NormaliseComment | crud_views_workflow/lib/views.py:65-69 | the comment stripped of surrounding whitespace, with blank becoming None |
| WorkflowView.NormaliseIdempotent | crud_views_workflow/lib/views.py:66-69 | normalising twice equals normalising once |
| WorkflowView.FirstNamed | crud_views_workflow/lib/views.py:76-77 | the first declared transition with the name, or none iff none has it |
| WorkflowView.CreateInfo | crud_views_workflow/lib/views.py:96-105 | creating a row with a keyword that is not a column is a TypeError; otherwise the row |
| WorkflowView.TakeTransitionWith | crud_views_workflow/lib/views.py:59-108 | an unavailable transition is SuspiciousOperation; it commits iff the transition is available, the workflow data, the save and the hook succeed, and every keyword is a column |
| WorkflowView.AsWrittenNeverCommits | crud_views_workflow/lib/views.py:96-105 | as written, no transition ever commits; an allowed one fails with a TypeError |
| WorkflowView.TakeTransitionAsWritten | crud_views_workflow/lib/views.py:59-108 | as written, never commits; an available transition whose method and save succeed fails with a TypeError |
| WorkflowView.TakeTransition | crud_views_workflow/lib/views.py:59-108 | commits iff the transition is available, the method returns data and save and hook succeed |
| WorkflowView.TransitionRecord | crud_views_workflow/lib/views.py:80-105 | a commit moves the object to the target of an available transition of that name and appends exactly one row with the transition, both states, the normalised comment, user, time, data and object |
| WorkflowView.HookSeesRecord | crud_views_workflow/lib/views.py:107-108 | the hook gets the new row and the same transition, states, comment, user and data |
| WorkflowView.TransitionKeepsConsistent | crud_views_workflow/lib/views.py:80-105 | if the object's rows chain into its state, they still do after a commit |
| WorkflowView.TransitionKeepsTimeOrder | crud_views_workflow/lib/views.py:96-105 | a commit at a later time keeps the object's rows in timestamp order |
| WorkflowView.TwoTransitionsChain | crud_views_workflow/lib/views.py:80-105 | two commits in a row leave two rows, where the second starts in the state the first ended in |
| WorkflowView.HistoryChained | crud_views_workflow/lib/mixins.py:61-79 | for a consistent, time-ordered log whose badges and labels resolve, the history exists, each entry starts where the previous one ended, and the last ends in the object's state |
| WorkflowView.GetViewFormKwargs | crud_views_workflow/lib/views.py:48-51 | the base kwargs overlaid with the mixin's choices and comment levels |
| WorkflowView.GetContextData | crud_views_workflow/lib/views.py:53-56 | has_workflow_choices holds iff the user has a possible transition; other keys are kept |
| WorkflowView.TerminalState | crud_views_workflow/lib/views.py:53-73 | with no transition offered, the context says so and any submission is refused |
| WorkflowView.RequiredCommentBlocksBlank | crud_views_workflow/lib/forms.py:57-65 | an offered transition that requires a comment rejects a blank one |
| WorkflowLegacy.AsCurrent | crud_views_workflow/mixins.py:107 | the legacy configuration read as the current one, with a default level of NONE |
| WorkflowLegacy.LegacyPossibleTransitions | crud_views_workflow/mixins.py:103-109 | one triple per available transition; the label defaults to the name and the level to NONE |
| WorkflowLegacy.LegacyFormKwargs | crud_views_workflow/mixins.py:127-134 | choices are the offered (name, label) pairs; the comment map is keyed by exactly the offered names |
| WorkflowLegacy.LegacyStateName | crud_views_workflow/mixins.py:47-51 | no choices or an unknown truthy state is an error; a falsy state is "" |
| WorkflowLegacy.LegacyStateBadge | crud_views_workflow/mixins.py:58-70 | a badged state renders the workflow/badge template; others give their plain name |
| WorkflowLegacy.LegacyWorkflowDataAsWrittenFails | crud_views_workflow/mixins.py:80-83 | as written, reading the legacy history is always a FieldError on workflow_object_id |
| WorkflowLegacy.LegacyWorkflowDataAsWritten | crud_views_workflow/mixins.py:80-83 | as written, always a FieldError on workflow_object_id |
| WorkflowLegacy.LegacyWorkflowData | crud_views_workflow/mixins.py:80-100 | succeeds iff every row of the object has its legacy badges and label (so an object without rows has an empty history); then one entry per row in timestamp order, following some timestamp-ordered arrangement of exactly the object's rows, each entry copying its row; with rows already in time order each entry copies the row at its index |
| WorkflowLegacy.LegacyAgreesWithCurrent | crud_views_workflow/mixins.py:103-134 | with the current default at NONE, both mixins offer the same triples, answers and form kwargs |
| WorkflowLegacy.LegacyIgnoresCommentDefault | crud_views_workflow/mixins.py:107 | a transition without a comment entry is NONE in the legacy mixin even where the current one requires a comment |
| WorkflowLegacy.LegacyHasTransitionIff | crud_views_workflow/mixins.py:114-118 | true iff a declared transition of that name is available to the user |
| WorkflowLegacy.LegacyHasAny | crud_views_workflow/mixins.py:111-112 | true iff some declared transition is available to the user in the state |
| WorkflowLegacy.LegacyHasTransition | crud_views_workflow/mixins.py:114-118 | true iff some declared transition with the name is available to the user in the state |
| ChildView.PathContribute | crud_views/lib/views/child.py:31-38 | split at '/', the path is the redirect group followed by the redirect_key group |
| ChildView.GroupsParse | crud_views/lib/views/child.py:36-37 | each group reads back as its kwarg name and KEY |
| ChildView.PathContributeParses | crud_views/lib/views/child.py:31-38 | the path has exactly two groups, named redirect and redirect_key, both matching KEY |
| ChildView.UrlExtraKwargs | crud_views/lib/views/child.py:27-29 | exactly redirect and redirect_key, bound to the configured child view set and key |
| ChildView.ExtraKwargsFillPathGroups | crud_views/lib/views/child.py:27-38 | the extra kwargs name exactly the groups the path declares |
| ChildView.RedirectChildClass | crud_views/lib/views/child.py:10-19 | key redirect_child, path child, backend only, an object view with the extra kwargs; both action labels (template and code) are the child label settings, whatever the base class had; access and icon are inherited |
| ChildView.DefaultChildLabels | crud_views/lib/settings.py:183-190 | with the settings' defaults, the redirect view's label and short label render the child action templates, whatever the base class's labels |
| ChildView.LinkNamesRedirectTarget | crud_views/lib/views/child.py:27-29 | every link to the redirect view carries the child view set and key, whatever the caller passes |
| ChildView.GetRedirectUrl | crud_views/lib/views/child.py:22-25 | the child view set's route for the key; an unknown view set is ViewNotFound, no parent AttributeError, another parent ParentViewSetError; for a child of this view set it succeeds iff the request holds every parent arg after the first (a KeyError otherwise), and the first carries the loaded object's id |
| ChildView.RedirectToChildOfObject | crud_views/lib/views/child.py:22-25 | a view set that is not a child is refused; a first-level child gets the object's id as its parent arg |
| ChildView.ChildKeyIsKey | crud_views/lib/views/child.py:11 | redirect_child matches KEY |
| ViewMeta.Lookup | crud_views/lib/view/meta.py:18 | the value from the first namespace defining the name, or none iff no namespace defines it |
| ViewMeta.GetAttr | crud_views/lib/view/meta.py:18 | the class's own attribute first, then the bases in resolution order, else None |
| ViewMeta.MetaNew | crud_views/lib/view/meta.py:13-23 | the class is returned unchanged; a falsy own cv registers nothing; a None key is a ViewSetViewError; an own cv that is not a view set is an AttributeError; otherwise one registration under the key |
| ViewMeta.DefineAll | crud_views/lib/view/meta.py:13-23 | a series of class definitions goes through iff every class either has no own cv or has an own view set and a key |
| ViewMeta.InheritedViewSetNotRegistered | crud_views/lib/view/meta.py:15-16 | a class without its own cv is never registered, whatever its bases hold |
| ViewMeta.InheritedKeyUsed | crud_views/lib/view/meta.py:18-22 | a class with its own cv and an inherited key is registered under the first base's key |
| ViewMeta.DefineAllRegistersOnce | crud_views/lib/view/meta.py:15-22 | the log grows by exactly the registrations of the classes with their own view set, in definition order, each under its view set, key and class name, after the earlier ones |
| Polymorphic.GetChildModels | crud_views_polymorphic/lib/utils.py:10-21 | a non-polymorphic model is an AssertionError; otherwise the transitive subclasses; a leaf gives [] |
| Polymorphic.Subclasses | crud_views_polymorphic/lib/utils.py:16-21 | empty iff the model has no direct subclass; otherwise the first direct subclass comes first |
| Polymorphic.SubclassesIff | crud_views_polymorphic/lib/utils.py:16-21 | a class is listed iff it lies strictly below the model in the subclass tree |
| Polymorphic.SubclassesSmaller | crud_views_polymorphic/lib/utils.py:16-21 | the list has one entry per class below the model, each strictly smaller, and never the model itself |
| Polymorphic.PreOrder | crud_views_polymorphic/lib/utils.py:16-19 | every listed class is immediately followed by exactly its own subclass list |
| Polymorphic.ParseInt | crud_views_polymorphic/lib/utils.py:46 | succeeds iff, after stripping, an optional sign precedes digits with single underscores between them; the value is the digits' value, negated exactly after a '-'; failure is a ValueError |
| Polymorphic.ParseShow | crud_views_polymorphic/lib/utils.py:46 | int() of the decimal text of a natural number gives the number back |
| Polymorphic.ParseShowNegative | crud_views_polymorphic/lib/utils.py:46 | int() of "-" followed by the decimal text of n gives -n |
| Polymorphic.CtypeId | crud_views_polymorphic/lib/utils.py:37-46 | a truthy URL kwarg is parsed by int(); otherwise the loaded instance's ctype, a TypeError when it has none, and a load failure passes through |
| Polymorphic.PolymorphicModel | crud_views_polymorphic/lib/utils.py:48-62 | the model class of the content type with that id; an unknown id is ObjectDoesNotExist |
| Polymorphic.GetFormClass | crud_views_polymorphic/lib/utils.py:64-72 | the form registered for the model; no form dict is an AttributeError; a missing or falsy entry is a ValueError |
| Polymorphic.FormOfSelectedType | crud_views_polymorphic/lib/utils.py:42-72 | with the URL kwarg naming a content type, the form is the one registered for that type's model |
| Polymorphic.ModelOfLoadedObject | crud_views_polymorphic/lib/utils.py:42-55 | without a URL ctype, the model is that of the loaded instance's ctype |

## Left out

- Template rendering: the engine is a map from source to output. Django's template language and `mark_safe` are not modelled.
- `reverse` and router names: URLs stay symbolic as route plus kwargs. `NoReverseMatch` and the format of router names belong to the `ViewSet` class, which is not part of this model.
- `has_perms` follows Django's model backend: an inactive user has no permission, an active superuser has them all, and anyone else needs each one granted. Group permissions are folded into the granted set, and object permissions are not modelled.
- `parse_qs`: percent-decoding of names and values is not modelled. Otherwise splitting, blank-value dropping and '+' are modelled.
- `PathRegs.IntLanguage`: `\d` is taken to mean the ASCII digits. Python's `re` also accepts other Unicode decimal digits in str patterns.
- `Polymorphic.ParseInt`: accepts only ASCII digits. Python's `int()` also accepts other Unicode decimal digits, and does not strip every Unicode space. It also raises ValueError for a string of more than 4300 digits (`sys.int_info.str_digits_check_threshold`, adjustable at run time); the model has no such length limit and parses it.
- `SessionData` (crud_views/lib/session.py) is not part of this model. The session is a map from name to JSON value, written on leaving the `with` block.
- JSON decoding of the POST body: the body arrives decoded, so malformed JSON and UTF-8 errors are not modelled.
- crud_views/lib/check.py is not part of this model. The checks are their id plus a pass flag. E240 passes iff the value is not None, and `super().checks()` and the message texts are left out.
- django-fsm is not modelled. A transition is data (name, sources, target, permitted users, custom label and comment). Running its method is an `Effects` value (returned data, or the error of save or hook).
- `transaction.atomic` is the all-or-nothing result of `WorkflowView.TakeTransition`. Row creation time (`auto_now_add`) is a parameter.
- `order_by("timestamp")` is modelled as a stable sort. The database may order rows with equal timestamps in any order.
- `property_display` (crud_views/lib/views/detail.py:31-33) only returns `cv_property_display`, so it is the DetailClass `display` field and not a separate member.
- `state_increment` (crud_views_workflow/lib/mixins.py:23-24 and mixins.py:44-45) only bumps a version counter, so it is not modelled.
- `cached_property` caching of the label map and `polymorphic_model` is not modelled. Each call recomputes the same value.
- `get_object()` and its 404 are not modelled: the loaded object, or the failure to load it, is a parameter.
- `ContentType.objects.get_for_model(s)` and `get_polymorphic_child_models_content_types` are database queries. A content type is an integer id with a map to model names.
- `__subclasses__()` forms a DAG under multiple inheritance. The model is a tree, so a class reachable twice appears twice, as the generator yields it.
- `vs_get_header_icon`, `vs_header`, `vs_paragraph`, `vs_get_meta`, `vs_get_view_context` and `get_cancel_button_context` (crud_views/lib/view/base.py) only route other attributes into templates, so they are not modelled.
- `register_view_class` and `cv_raise` (crud_views/lib/exceptions.py) are not part of this model. A registration is a logged call, and `cv_raise` raises a ViewSetViewError.
- Buttons.PlainButtonContext: uses the corrected `render_label`, as does the rest of the model. As written, crud_views/lib/view/buttons.py:48 reaches line 25, which raises AttributeError for a button labelled by code alone (see `PlainButtonContextAsWritten` and `CodeOnlyButtonFails`).
- Buttons.ButtonContext: a plain button's context is the corrected `PlainButtonContext`, so for a button labelled by code alone it succeeds where crud_views/lib/view/base.py:263-265, reaching buttons.py:48, raises AttributeError.
- Buttons.VsGetContext: a matching plain button's context comes from `ButtonContext` and carries the same correction for a button labelled by code alone.
- ViewBase.VsGetUrl: crud_views/lib/view/base.py:195-211 writes into the caller's `extra_kwargs` dict in place. The model returns a new map and leaves the caller's dict as it was.
- The assertion and exception messages are not modelled. Errors carry a kind and a short argument only.

## Findings

| source | as written | input that shows it | evidently intended | confidence | as-written member | corrected member |
|---|---|---|---|---|---|---|
| crud_views_workflow/lib/views.py:103 | the audit row is created with `workflow_object_id`, but `WorkflowInfo` has no such field; its key column is `workflow_object_pk` (crud_views_workflow/models.py:18) | any transition the user may take, whose method and save succeed | store the object's key under `workflow_object_pk` | not executed | WorkflowView.AsWrittenNeverCommits | WorkflowView.TransitionRecord |
| crud_views_workflow/lib/mixins.py:57 | the history query filters on `workflow_object_id`, which is not a field of `WorkflowInfo`, so Django raises FieldError | reading `workflow_data` of any workflow object | filter on `workflow_object_pk` | not executed | Workflow.WorkflowDataAsWrittenFails | Workflow.HistoryFollowsTable |
| crud_views_workflow/mixins.py:82 | the legacy history query filters on `workflow_object_id` as well | reading `workflow_data` of any legacy workflow object | filter on `workflow_object_pk` | not executed | WorkflowLegacy.LegacyWorkflowDataAsWrittenFails | Workflow.HistoryFollowsTable |
| crud_views/lib/view/buttons.py:25 | `render_label` calls `render_snippet` on the `ViewContext`, which has no such method | a context button with `label_template_code` set and `label_template` unset | call `context.view.render_snippet` with the template code | not executed | Buttons.LabelCodeOnlyFails | Buttons.RenderLabel |
| crud_views_workflow/lib/mixins.py:27 | `get_state_name` asserts `STATE_ENUM`, but the test project's `Campaign` (tests/test1/app/models.py:56-57), built on this mixin, sets only `STATE_CHOICES`; that file also imports `BadgeEnum` from this module (line 10), which defines it only in crud_views_workflow/lib/enums.py:10 | the name or badge of any state of that `Campaign` | read state names from the choices the model declares | not executed | Workflow.StateEnumUnsetFails | Workflow.StateNameOfChoice |
