/** The older `WorkflowMixin` (crud_views_workflow/mixins.py). It answers
    the same queries as the current mixin, with three differences: the state
    names come from `STATE_CHOICES`, a transition without a "comment" entry
    always defaults to `Comment.NONE` (there is no `COMMENT_DEFAULT`), and
    the badge template lives under `workflow/`. Its `Comment` enum has the
    same three levels as `WorkflowComment`. */
module WorkflowLegacy {
  import opened Common
  import opened Workflow

  /** The class-level configuration of a legacy workflow model. */
  datatype LegacyModel = LegacyModel(
    stateChoices: seq<(string, string)>,   // STATE_CHOICES
    badges: map<string, string>,           // STATE_BADGES
    badgeDefault: string,                  // STATE_BADGES_DEFAULT
    transitions: seq<Transition>)

  /** The current mixin's view of the same configuration, with the comment
      default the legacy mixin hard-codes. */
  function AsCurrent(lm: LegacyModel): (m: WorkflowModel)
    ensures m.commentDefault == NONE
    ensures m.transitions == lm.transitions && m.badges == lm.badges
    ensures m.stateEnum.None? <==> |lm.stateChoices| == 0
    ensures m.stateEnum.Some? ==> m.stateEnum.value == lm.stateChoices
  {
    // `assert self.STATE_CHOICES` fails exactly for an empty tuple
    var choices := if |lm.stateChoices| == 0 then None else Some(lm.stateChoices);
    WorkflowModel(choices, lm.badges, lm.badgeDefault, NONE, lm.transitions)
  }

  const LegacyBadgeTemplate: string := "crud_views_workflow/workflow/badge.html"

  /** `workflow_get_possible_transitions(user)`: a missing label is the name,
      a missing comment level is NONE. */
  function LegacyPossibleTransitions(lm: LegacyModel, state: string, user: User): (cs: seq<Choice>)
    ensures var av := Available(lm.transitions, state, user);
            && |cs| == |av|
            && forall i :: 0 <= i < |av| ==>
                 && cs[i].name == av[i].name
                 && cs[i].caption == av[i].customLabel.GetOr(av[i].name)
                 && cs[i].level == av[i].customComment.GetOr(NONE)
  {
    Choices(Available(lm.transitions, state, user), NONE)
  }

  /** `workflow_has_any_possible_transition(user)`: some declared
      transition is available to the user in the state. */
  function LegacyHasAny(lm: LegacyModel, state: string, user: User): (r: bool)
    ensures r <==> exists t :: t in lm.transitions && AvailableTo(t, state, user)
  {
    HasAnyIff(AsCurrent(lm), state, user);
    |LegacyPossibleTransitions(lm, state, user)| > 0
  }

  /** `workflow_has_transition(user, name)`: a declared transition of that
      name is available to the user in the state. */
  function LegacyHasTransition(lm: LegacyModel, state: string, user: User, name: string): (r: bool)
    ensures r <==> exists t :: t in lm.transitions && AvailableTo(t, state, user) && t.name == name
  {
    HasTransitionIff(AsCurrent(lm), state, user, name);
    NameOffered(LegacyPossibleTransitions(lm, state, user), name)
  }

  /** `workflow_get_form_kwargs(user)`. */
  function LegacyFormKwargs(lm: LegacyModel, state: string, user: User): (k: FormKwargs)
    ensures var cs := LegacyPossibleTransitions(lm, state, user);
            && |k.choices| == |cs|
            && (forall i :: 0 <= i < |cs| ==> k.choices[i] == (cs[i].name, cs[i].caption))
            && k.transitionComments.Keys == set i | 0 <= i < |cs| :: cs[i].name
  {
    GetFormKwargs(AsCurrent(lm), state, user)
  }

  /** `get_state_name(state)`: "" for a falsy state, otherwise its
      `STATE_CHOICES` label. */
  function LegacyStateName(lm: LegacyModel, state: string): (r: Result<string>)
    ensures r.Err? <==> |lm.stateChoices| == 0 || (state != "" && forall i :: 0 <= i < |lm.stateChoices| ==> lm.stateChoices[i].0 != state)
    ensures |lm.stateChoices| > 0 && state == "" ==> r == Ok("")
  {
    GetStateName(AsCurrent(lm), state)
  }

  /** `get_state_badge(state)` with the legacy template. */
  function LegacyStateBadge(lm: LegacyModel, state: string): (r: Result<Shown>)
    ensures r.Ok? <==> |lm.badges| > 0 && LegacyStateName(lm, state).Ok?
    ensures r.Ok? && state in lm.badges ==>
              r.value == Badge(LegacyBadgeTemplate, state, LegacyStateName(lm, state).value, lm.badges[state])
    ensures r.Ok? && state !in lm.badges ==> r.value == Plain(LegacyStateName(lm, state).value)
  {
    StateBadge(AsCurrent(lm), LegacyBadgeTemplate, state)
  }

  /** `workflow_data` as written: it filters on `workflow_object_id` too. */
  function LegacyWorkflowDataAsWritten(lm: LegacyModel, log: seq<WorkflowInfo>, obj: ObjectRef): (r: Result<seq<HistoryEntry>>)
    ensures r == Err(FieldError("workflow_object_id"))
  {
    assert "workflow_object_id" !in InfoFields;
    WorkflowDataBy(AsCurrent(lm), LegacyBadgeTemplate, "workflow_object_id", log, obj)
  }

  lemma LegacyWorkflowDataAsWrittenFails(lm: LegacyModel, log: seq<WorkflowInfo>, obj: ObjectRef)
    ensures LegacyWorkflowDataAsWritten(lm, log, obj) == Err(FieldError("workflow_object_id"))
  {
    assert "workflow_object_id" !in InfoFields;
  }

  /** `workflow_data` filtering on `workflow_object_pk`. */
  function LegacyWorkflowData(lm: LegacyModel, log: seq<WorkflowInfo>, obj: ObjectRef): (r: Result<seq<HistoryEntry>>)
    ensures RecordsOf(log, obj) == [] ==> r == Ok([])
    ensures r.Ok? <==> EntriesBuild(AsCurrent(lm), LegacyBadgeTemplate, RecordsOf(log, obj))
    ensures r.Ok? ==> |r.value| == |RecordsOf(log, obj)|
    ensures r.Ok? ==> forall i, j :: 0 <= i < j < |r.value| ==> r.value[i].timestamp <= r.value[j].timestamp
    ensures r.Ok? ==> HistoryOfRows(r.value, log, obj)
    ensures r.Ok? && SortedByTimestamp(RecordsOf(log, obj)) ==>
              forall i :: 0 <= i < |RecordsOf(log, obj)| ==>
                && r.value[i].transition == RecordsOf(log, obj)[i].transition
                && r.value[i].stateOld == RecordsOf(log, obj)[i].stateOld
                && r.value[i].stateNew == RecordsOf(log, obj)[i].stateNew
                && r.value[i].comment == RecordsOf(log, obj)[i].comment
  {
    assert "workflow_object_pk" in InfoFields;
    var d := WorkflowDataBy(AsCurrent(lm), LegacyBadgeTemplate, "workflow_object_pk", log, obj);
    if d.Ok? && SortedByTimestamp(RecordsOf(log, obj)) then
      HistoryFollowsTable(AsCurrent(lm), LegacyBadgeTemplate, log, obj);
      d
    else d
  }

  /** The legacy mixin offers what the current one offers when the current
      one's default comment level is NONE: the same triples, the same
      answers to both queries and the same form kwargs. */
  lemma LegacyAgreesWithCurrent(lm: LegacyModel, m: WorkflowModel, state: string, user: User, name: string)
    requires m.transitions == lm.transitions && m.commentDefault == NONE
    ensures LegacyPossibleTransitions(lm, state, user) == PossibleTransitions(m, state, user)
    ensures LegacyHasAny(lm, state, user) <==> HasAnyPossibleTransition(m, state, user)
    ensures LegacyHasTransition(lm, state, user, name) <==> HasTransition(m, state, user, name)
    ensures LegacyFormKwargs(lm, state, user) == GetFormKwargs(m, state, user)
  {
  }

  /** The legacy mixin ignores a configured default: a transition without a
      "comment" entry is offered at level NONE even where the current mixin
      with `COMMENT_DEFAULT = REQUIRED` demands a comment. */
  lemma LegacyIgnoresCommentDefault(lm: LegacyModel, m: WorkflowModel, state: string, user: User, i: nat)
    requires m.transitions == lm.transitions && m.commentDefault == REQUIRED
    requires i < |Available(lm.transitions, state, user)| && Available(lm.transitions, state, user)[i].customComment.None?
    ensures LegacyPossibleTransitions(lm, state, user)[i].level == NONE
    ensures PossibleTransitions(m, state, user)[i].level == REQUIRED
  {
  }

  /** A user may take a transition in the legacy mixin exactly when a
      declared transition of that name is available to them. */
  lemma LegacyHasTransitionIff(lm: LegacyModel, state: string, user: User, name: string)
    ensures LegacyHasTransition(lm, state, user, name) <==>
            exists t :: t in lm.transitions && AvailableTo(t, state, user) && t.name == name
  {
    HasTransitionIff(AsCurrent(lm), state, user, name);
  }
}
