/** The workflow mixin of models with a django-fsm state field
    (crud_views_workflow/lib/mixins.py, levels from lib/enums.py): the
    comment levels, the transitions available to a user, their labels and
    comment levels as handed to the form, state names and badges, and the
    audit history read back from the `WorkflowInfo` table.

    django-fsm is abstracted: a transition is available in a state to a user
    when the state is one of its sources and the user is one it is permitted
    to (its conditions and permission folded into one set). The audit table
    is a sequence of records; a query is a filter followed by a sort. */
module Workflow {
  import opened Common

  /** `WorkflowComment`: how strongly a transition asks for a comment. */
  datatype CommentLevel = NONE | OPTIONAL | REQUIRED {
    /** The `IntEnum` value. */
    function Value(): nat {
      match this
      case NONE => 0
      case OPTIONAL => 1
      case REQUIRED => 2
    }
  }

  /** The integer values order the levels as declared, and tell them apart. */
  lemma LevelOrder(a: CommentLevel, b: CommentLevel)
    ensures a.Value() < b.Value() <==> (a == NONE && b != NONE) || (a == OPTIONAL && b == REQUIRED)
    ensures a.Value() == b.Value() <==> a == b
  {
  }

  type User = string

  /** A django-fsm transition: the name of its method, the states it leaves
      from, its target, the "label" and "comment" entries of its `custom`
      dict, and the users it is available to. */
  datatype Transition = Transition(
    name: string,
    sources: set<string>,
    target: string,
    customLabel: Option<string>,
    customComment: Option<CommentLevel>,
    permitted: set<User>)

  /** The class-level configuration of a workflow model. An unset
      `STATE_ENUM` is `None`; an unset or empty `STATE_BADGES` is the empty
      map. */
  datatype WorkflowModel = WorkflowModel(
    stateEnum: Option<seq<(string, string)>>,  // STATE_ENUM: None when unset, else its choices
    badges: map<string, string>,           // STATE_BADGES
    badgeDefault: string,                  // STATE_BADGES_DEFAULT
    commentDefault: CommentLevel,          // COMMENT_DEFAULT
    transitions: seq<Transition>)          // every declared transition, in declaration order

  /** Whether `t` can be taken from `state` by `user`. */
  predicate AvailableTo(t: Transition, state: string, user: User) {
    state in t.sources && user in t.permitted
  }

  /** `get_available_user_state_transitions(user)`: the declared transitions
      available in `state` to `user`, in declaration order. */
  function Available(ts: seq<Transition>, state: string, user: User): (r: seq<Transition>)
    ensures |r| <= |ts|
    ensures forall t :: t in r <==> t in ts && AvailableTo(t, state, user)
  {
    if |ts| == 0 then []
    else
      var rest := Available(ts[1..], state, user);
      assert forall t :: t in ts <==> t == ts[0] || t in ts[1..];
      if AvailableTo(ts[0], state, user) then [ts[0]] + rest else rest
  }

  /** One offered transition: `(name, label, comment level)`. */
  datatype Choice = Choice(name: string, caption: string, level: CommentLevel)

  /** The triple of one transition: the label defaults to the name and the
      level to the given default. */
  function ChoiceOf(t: Transition, default: CommentLevel): (c: Choice)
    ensures c.name == t.name
    ensures t.customLabel.None? ==> c.caption == t.name
    ensures t.customComment.None? ==> c.level == default
  {
    Choice(t.name, t.customLabel.GetOr(t.name), t.customComment.GetOr(default))
  }

  /** The triples of a sequence of transitions, in order. */
  function Choices(ts: seq<Transition>, default: CommentLevel): (cs: seq<Choice>)
    ensures |cs| == |ts|
    ensures forall i :: 0 <= i < |ts| ==> cs[i] == ChoiceOf(ts[i], default)
  {
    if |ts| == 0 then [] else [ChoiceOf(ts[0], default)] + Choices(ts[1..], default)
  }

  /** `workflow_get_possible_transitions(user)`. */
  function PossibleTransitions(m: WorkflowModel, state: string, user: User): (cs: seq<Choice>)
    ensures var av := Available(m.transitions, state, user);
            && |cs| == |av|
            && forall i :: 0 <= i < |av| ==>
                 && cs[i].name == av[i].name
                 && cs[i].caption == av[i].customLabel.GetOr(av[i].name)
                 && cs[i].level == av[i].customComment.GetOr(m.commentDefault)
  {
    Choices(Available(m.transitions, state, user), m.commentDefault)
  }

  /** Every offered triple comes from a declared transition available to the
      user, and every such transition is offered. */
  lemma PossibleTransitionsAreAvailable(m: WorkflowModel, state: string, user: User)
    ensures forall c :: c in PossibleTransitions(m, state, user) <==>
              exists t :: t in m.transitions && AvailableTo(t, state, user) && c == ChoiceOf(t, m.commentDefault)
  {
    var av := Available(m.transitions, state, user);
    var cs := PossibleTransitions(m, state, user);
    forall c
      ensures c in cs <==> exists t :: t in m.transitions && AvailableTo(t, state, user) && c == ChoiceOf(t, m.commentDefault)
    {
      if c in cs {
        var i :| 0 <= i < |cs| && cs[i] == c;
        assert av[i] in av;
      }
      if exists t :: t in m.transitions && AvailableTo(t, state, user) && c == ChoiceOf(t, m.commentDefault) {
        var t :| t in m.transitions && AvailableTo(t, state, user) && c == ChoiceOf(t, m.commentDefault);
        var i :| 0 <= i < |av| && av[i] == t;
        assert cs[i] == c;
      }
    }
  }

  /** `workflow_has_any_possible_transition(user)`: some declared
      transition is available to the user in the state. */
  function HasAnyPossibleTransition(m: WorkflowModel, state: string, user: User): (r: bool)
    ensures r <==> exists t :: t in m.transitions && AvailableTo(t, state, user)
  {
    HasAnyIff(m, state, user);
    |PossibleTransitions(m, state, user)| > 0
  }

  /** Some triple in `cs` carries the name `name` (the loop with early return). */
  function NameOffered(cs: seq<Choice>, name: string): (r: bool)
    ensures r <==> exists i :: 0 <= i < |cs| && cs[i].name == name
  {
    if |cs| == 0 then false
    else if cs[0].name == name then true
    else
      var r := NameOffered(cs[1..], name);
      assert forall i :: 1 <= i < |cs| ==> cs[i] == cs[1..][i - 1];
      r
  }

  /** `workflow_has_transition(user, name)`: a declared transition of that
      name is available to the user in the state. */
  function HasTransition(m: WorkflowModel, state: string, user: User, name: string): (r: bool)
    ensures r <==> exists t :: t in m.transitions && AvailableTo(t, state, user) && t.name == name
  {
    HasTransitionIff(m, state, user, name);
    NameOffered(PossibleTransitions(m, state, user), name)
  }

  /** The user may take `name` exactly when a declared transition of that
      name is available to them in the current state. */
  lemma {:induction false} HasTransitionIff(m: WorkflowModel, state: string, user: User, name: string)
    ensures NameOffered(PossibleTransitions(m, state, user), name) <==>
            exists t :: t in m.transitions && AvailableTo(t, state, user) && t.name == name
  {
    var av := Available(m.transitions, state, user);
    var cs := PossibleTransitions(m, state, user);
    if NameOffered(cs, name) {
      var i :| 0 <= i < |cs| && cs[i].name == name;
      assert av[i] in av && av[i].name == name;
    }
    if exists t :: t in m.transitions && AvailableTo(t, state, user) && t.name == name {
      var t :| t in m.transitions && AvailableTo(t, state, user) && t.name == name;
      var i :| 0 <= i < |av| && av[i] == t;
      assert cs[i].name == name;
    }
  }

  /** A model has something to offer exactly when some declared transition
      is available. */
  lemma HasAnyIff(m: WorkflowModel, state: string, user: User)
    ensures |PossibleTransitions(m, state, user)| > 0 <==>
            exists t :: t in m.transitions && AvailableTo(t, state, user)
  {
    var av := Available(m.transitions, state, user);
    if |av| > 0 {
      assert av[0] in av;
    }
  }

  // ---------------------------------------------------------------------
  // labels and form kwargs

  /** `(name, label)` of every declared transition, in declaration order. */
  function NamedLabels(ts: seq<Transition>): (ps: seq<(string, string)>)
    ensures |ps| == |ts|
    ensures forall i :: 0 <= i < |ts| ==> ps[i] == (ts[i].name, ts[i].customLabel.GetOr(ts[i].name))
  {
    if |ts| == 0 then [] else [(ts[0].name, ts[0].customLabel.GetOr(ts[0].name))] + NamedLabels(ts[1..])
  }

  /** `workflow_get_transition_label_map`: every declared transition's name,
      available or not, mapped to its label. */
  function LabelMap(m: WorkflowModel): (lm: map<string, string>)
    ensures lm.Keys == set i | 0 <= i < |m.transitions| :: m.transitions[i].name
  {
    var ps := NamedLabels(m.transitions);
    var lm := DictOf(ps);
    assert forall i :: 0 <= i < |ps| ==> ps[i].0 == m.transitions[i].name;
    lm
  }

  /** A transition declared last under its name contributes its label. */
  lemma LabelOfDeclared(m: WorkflowModel, i: nat)
    requires i < |m.transitions|
    requires forall j :: i < j < |m.transitions| ==> m.transitions[j].name != m.transitions[i].name
    ensures LabelMap(m)[m.transitions[i].name] == m.transitions[i].customLabel.GetOr(m.transitions[i].name)
  {
    DictOfLastWins(NamedLabels(m.transitions), i);
  }

  /** `workflow_get_transition_label(name)`: a KeyError for an undeclared name. */
  function TransitionLabel(m: WorkflowModel, name: string): (r: Result<string>)
    ensures r.Err? <==> forall i :: 0 <= i < |m.transitions| ==> m.transitions[i].name != name
    ensures r.Err? ==> r.error == KeyError(name)
    ensures r.Ok? ==> r.value == LabelMap(m)[name]
  {
    var lm := LabelMap(m);
    if name in lm then Ok(lm[name]) else Err(KeyError(name))
  }

  /** The keyword arguments the workflow form is built with. */
  datatype FormKwargs = FormKwargs(choices: seq<(string, string)>, transitionComments: map<string, CommentLevel>)

  function NameLabel(c: Choice): (string, string) { (c.name, c.caption) }
  function NameLevel(c: Choice): (string, CommentLevel) { (c.name, c.level) }

  function Project<T>(cs: seq<Choice>, f: Choice -> T): (r: seq<T>)
    ensures |r| == |cs|
    ensures forall i :: 0 <= i < |cs| ==> r[i] == f(cs[i])
  {
    if |cs| == 0 then [] else [f(cs[0])] + Project(cs[1..], f)
  }

  /** `workflow_get_form_kwargs(user)`: the `(name, label)` choices in order
      and each offered name mapped to its comment level. */
  function GetFormKwargs(m: WorkflowModel, state: string, user: User): (k: FormKwargs)
    ensures var cs := PossibleTransitions(m, state, user);
            && |k.choices| == |cs|
            && (forall i :: 0 <= i < |cs| ==> k.choices[i] == (cs[i].name, cs[i].caption))
            && k.transitionComments.Keys == set i | 0 <= i < |cs| :: cs[i].name
  {
    var cs := PossibleTransitions(m, state, user);
    var levels := Project(cs, NameLevel);
    assert forall i :: 0 <= i < |cs| ==> levels[i].0 == cs[i].name;
    FormKwargs(Project(cs, NameLabel), DictOf(levels))
  }

  /** An offered name is mapped to the level of its last triple. */
  lemma FormLevelOfOffered(m: WorkflowModel, state: string, user: User, i: nat)
    requires var cs := PossibleTransitions(m, state, user);
             i < |cs| && forall j :: i < j < |cs| ==> cs[j].name != cs[i].name
    ensures var cs := PossibleTransitions(m, state, user);
            GetFormKwargs(m, state, user).transitionComments[cs[i].name] == cs[i].level
  {
    var cs := PossibleTransitions(m, state, user);
    DictOfLastWins(Project(cs, NameLevel), i);
  }

  /** `workflow_comment_kwargs(comment)`: the comment only when it is truthy. */
  function CommentKwargs(comment: Option<string>): (kw: map<string, string>)
    ensures "comment" in kw <==> comment.Some? && comment.value != ""
    ensures kw.Keys <= {"comment"}
    ensures "comment" in kw ==> kw["comment"] == comment.value
  {
    if comment.Some? && comment.value != "" then map["comment" := comment.value] else map[]
  }

  // ---------------------------------------------------------------------
  // state names and badges

  /** `get_state_name(state)`: an unset `STATE_ENUM` fails the assertion
      (an enum class is truthy even without members); otherwise "" for a
      falsy state, and the label `dict(STATE_ENUM.choices)` gives it. */
  function GetStateName(m: WorkflowModel, state: string): (r: Result<string>)
    ensures r.Err? <==> m.stateEnum.None? || (state != "" && forall i :: 0 <= i < |m.stateEnum.value| ==> m.stateEnum.value[i].0 != state)
    ensures m.stateEnum.None? ==> r.Err? && r.error.AssertionError?
    ensures m.stateEnum.Some? && state == "" ==> r == Ok("")
  {
    match m.stateEnum
    case None => Err(AssertionError("STATE_ENUM must be defined"))
    case Some(choices) =>
      if state == "" then Ok("")
      else
        var names := DictOf(choices);
        if state in names then Ok(names[state]) else Err(KeyError(state))
  }

  /** A set `STATE_ENUM` passes the assertion even when it has no members:
      the empty state is then named "", and every other state is a KeyError. */
  lemma EmptyEnumPassesAssertion(m: WorkflowModel, state: string)
    requires m.stateEnum == Some([])
    ensures state == "" ==> GetStateName(m, state) == Ok("")
    ensures state != "" ==> GetStateName(m, state) == Err(KeyError(state))
  {
    assert DictOf(m.stateEnum.value) == map[];
  }

  /** A model that leaves `STATE_ENUM` unset has no state names at all:
      every lookup, even of the empty state, fails the assertion, and so
      does every badge. */
  lemma StateEnumUnsetFails(m: WorkflowModel, template: string, state: string)
    requires m.stateEnum.None?
    ensures GetStateName(m, state).Err? && GetStateName(m, state).error.AssertionError?
    ensures StateBadge(m, template, state).Err?
  {
  }

  /** `state_name`: the name of the current state, which must be set. */
  function CurrentStateName(m: WorkflowModel, state: string): (r: Result<string>)
    ensures state == "" ==> r.Err? && r.error.AssertionError?
    ensures state != "" ==> r == GetStateName(m, state)
  {
    if state == "" then Err(AssertionError("FSM state column missing")) else GetStateName(m, state)
  }

  /** A state is named by the label of its last pair in the choices. */
  lemma StateNameOfChoice(m: WorkflowModel, i: nat)
    requires m.stateEnum.Some?
    requires i < |m.stateEnum.value| && m.stateEnum.value[i].0 != ""
    requires forall j :: i < j < |m.stateEnum.value| ==> m.stateEnum.value[j].0 != m.stateEnum.value[i].0
    ensures GetStateName(m, m.stateEnum.value[i].0) == Ok(m.stateEnum.value[i].1)
  {
    DictOfLastWins(m.stateEnum.value, i);
  }

  /** What a state is shown as: the rendered badge template with its context,
      or the plain name. */
  datatype Shown = Plain(text: string) | Badge(template: string, state: string, name: string, cls: string)

  const BadgeTemplate: string := "crud_views_workflow/badge.html"

  /** `get_state_badge(state)` with the badge template as a parameter. */
  function StateBadge(m: WorkflowModel, template: string, state: string): (r: Result<Shown>)
    ensures r.Ok? <==> |m.badges| > 0 && GetStateName(m, state).Ok?
    ensures r.Ok? ==> (r.value.Badge? <==> state in m.badges)
    ensures r.Ok? && state in m.badges ==>
              r.value == Badge(template, state, GetStateName(m, state).value, m.badges[state])
    ensures r.Ok? && state !in m.badges ==> r.value == Plain(GetStateName(m, state).value)
  {
    if |m.badges| == 0 then Err(AssertionError("STATE_BADGES must be defined"))
    else
      var name :- GetStateName(m, state);
      if state in m.badges then
        var cls := if state in m.badges then m.badges[state] else m.badgeDefault;
        Ok(Badge(template, state, name, cls))
      else Ok(Plain(name))
  }

  function GetStateBadge(m: WorkflowModel, state: string): (r: Result<Shown>)
    ensures r.Ok? <==> |m.badges| > 0 && GetStateName(m, state).Ok?
    ensures r.Ok? && state in m.badges ==>
              r.value == Badge("crud_views_workflow/badge.html", state, GetStateName(m, state).value, m.badges[state])
    ensures r.Ok? && state !in m.badges ==> r.value == Plain(GetStateName(m, state).value)
  {
    StateBadge(m, BadgeTemplate, state)
  }

  /** `STATE_BADGES_DEFAULT` is never shown: a state outside `STATE_BADGES`
      gets its plain name, not a badge in the default class. */
  lemma BadgeDefaultUnused(m: WorkflowModel, template: string, state: string)
    requires StateBadge(m, template, state).Ok?
    ensures StateBadge(m, template, state).value.Badge? ==> StateBadge(m, template, state).value.cls in m.badges.Values
  {
  }

  // ---------------------------------------------------------------------
  // the audit table

  /** A `WorkflowInfo` row. `objectType` and `objectPk` are the generic
      foreign key to the workflow object. */
  datatype WorkflowInfo = WorkflowInfo(
    transition: string,
    stateOld: string,
    stateNew: string,
    comment: Option<string>,
    user: User,
    timestamp: int,
    data: Json,
    objectType: string,
    objectPk: string)

  /** The workflow object a row refers to: its content type and primary key. */
  datatype ObjectRef = ObjectRef(contentType: string, pk: string)

  function RefOf(info: WorkflowInfo): ObjectRef {
    ObjectRef(info.objectType, info.objectPk)
  }

  /** The columns of `WorkflowInfo` a query may filter on
      (crud_views_workflow/models.py). */
  const InfoFields: set<string> := {"id", "transition", "state_old", "state_new", "comment", "user", "timestamp",
                                    "data", "workflow_object_content_type", "workflow_object_pk"}

  /** The rows of one object, in table order. */
  function RecordsOf(log: seq<WorkflowInfo>, obj: ObjectRef): (rs: seq<WorkflowInfo>)
    ensures |rs| <= |log|
    ensures forall r :: r in rs <==> r in log && RefOf(r) == obj
  {
    if |log| == 0 then []
    else
      var init := RecordsOf(log[..|log| - 1], obj);
      assert forall r :: r in log <==> r in log[..|log| - 1] || r == log[|log| - 1];
      if RefOf(log[|log| - 1]) == obj then init + [log[|log| - 1]] else init
  }

  lemma RecordsOfAppend(log: seq<WorkflowInfo>, info: WorkflowInfo, obj: ObjectRef)
    ensures RecordsOf(log + [info], obj) == if RefOf(info) == obj then RecordsOf(log, obj) + [info] else RecordsOf(log, obj)
  {
    assert (log + [info])[..|log|] == log;
  }

  predicate SortedByTimestamp(rs: seq<WorkflowInfo>) {
    forall i, j :: 0 <= i < j < |rs| ==> rs[i].timestamp <= rs[j].timestamp
  }

  /** Inserts `x` after every row of `rs` not later than it. */
  function Insert(rs: seq<WorkflowInfo>, x: WorkflowInfo): (r: seq<WorkflowInfo>)
    ensures |r| == |rs| + 1
    ensures multiset(r) == multiset(rs) + multiset{x}
    decreases |rs|
  {
    if |rs| == 0 || rs[|rs| - 1].timestamp <= x.timestamp then rs + [x]
    else
      assert rs == rs[..|rs| - 1] + [rs[|rs| - 1]];
      Insert(rs[..|rs| - 1], x) + [rs[|rs| - 1]]
  }

  /** Inserting into sorted rows keeps them sorted. */
  lemma {:induction false} InsertSorted(rs: seq<WorkflowInfo>, x: WorkflowInfo)
    requires SortedByTimestamp(rs)
    ensures SortedByTimestamp(Insert(rs, x))
    decreases |rs|
  {
    if |rs| > 0 && rs[|rs| - 1].timestamp > x.timestamp {
      var last := rs[|rs| - 1];
      var init := rs[..|rs| - 1];
      assert rs == init + [last];
      InsertSorted(init, x);
      var r0 := Insert(init, x);
      forall k | 0 <= k < |r0|
        ensures r0[k].timestamp <= last.timestamp
      {
        var y := r0[k];
        assert y in multiset(r0);
        if y != x {
          assert y in multiset(init);
          var j :| 0 <= j < |init| && init[j] == y;
          assert rs[j] == y;
        }
      }
    }
  }

  /** `order_by("timestamp")`: a stable sort of the rows by their timestamp. */
  function SortByTimestamp(rs: seq<WorkflowInfo>): (r: seq<WorkflowInfo>)
    ensures |r| == |rs|
    ensures multiset(r) == multiset(rs)
    ensures SortedByTimestamp(r)
  {
    if |rs| == 0 then []
    else
      var init := SortByTimestamp(rs[..|rs| - 1]);
      InsertSorted(init, rs[|rs| - 1]);
      assert rs == rs[..|rs| - 1] + [rs[|rs| - 1]];
      Insert(init, rs[|rs| - 1])
  }

  /** Rows already in timestamp order come back unchanged. */
  lemma {:induction false} SortKeepsSorted(rs: seq<WorkflowInfo>)
    requires SortedByTimestamp(rs)
    ensures SortByTimestamp(rs) == rs
  {
    if |rs| > 0 {
      var init := rs[..|rs| - 1];
      assert SortedByTimestamp(init);
      SortKeepsSorted(init);
      assert rs == init + [rs[|rs| - 1]];
    }
  }

  /** `WorkflowInfo.objects.filter(<lookup>=pk, content_type=...).order_by("timestamp")`:
      a lookup on a name that is not a column is a FieldError. */
  function QueryInfos(log: seq<WorkflowInfo>, lookup: string, obj: ObjectRef): (r: Result<seq<WorkflowInfo>>)
    ensures r.Err? <==> lookup !in InfoFields
    ensures r.Ok? ==> SortedByTimestamp(r.value) && multiset(r.value) == multiset(RecordsOf(log, obj))
  {
    if lookup !in InfoFields then Err(FieldError(lookup))
    else Ok(SortByTimestamp(RecordsOf(log, obj)))
  }

  /** One entry of `workflow_data`. */
  datatype HistoryEntry = HistoryEntry(
    timestamp: int,
    user: User,
    stateOld: string,
    stateNew: string,
    stateOldBadge: Shown,
    stateNewBadge: Shown,
    transition: string,
    transitionLabel: string,
    comment: Option<string>)

  /** The entry of one row: the row's own fields plus the badges of both states
      and the transition's label. */
  function EntryOf(m: WorkflowModel, template: string, info: WorkflowInfo): (r: Result<HistoryEntry>)
    ensures r.Ok? <==> StateBadge(m, template, info.stateOld).Ok? && StateBadge(m, template, info.stateNew).Ok?
                       && TransitionLabel(m, info.transition).Ok?
    ensures r.Ok? ==> r.value.transition == info.transition && r.value.stateOld == info.stateOld
                      && r.value.stateNew == info.stateNew && r.value.comment == info.comment
                      && r.value.timestamp == info.timestamp && r.value.user == info.user
    ensures r.Ok? ==> && r.value.stateOldBadge == StateBadge(m, template, info.stateOld).value
                      && r.value.stateNewBadge == StateBadge(m, template, info.stateNew).value
                      && r.value.transitionLabel == TransitionLabel(m, info.transition).value
  {
    var oldBadge :- StateBadge(m, template, info.stateOld);
    var newBadge :- StateBadge(m, template, info.stateNew);
    var caption :- TransitionLabel(m, info.transition);
    Ok(HistoryEntry(info.timestamp, info.user, info.stateOld, info.stateNew, oldBadge, newBadge,
                    info.transition, caption, info.comment))
  }

  /** The entries of the rows, in order; the first failing row's error otherwise. */
  function Entries(m: WorkflowModel, template: string, rs: seq<WorkflowInfo>): (r: Result<seq<HistoryEntry>>)
    ensures r.Ok? <==> forall i :: 0 <= i < |rs| ==> EntryOf(m, template, rs[i]).Ok?
    ensures r.Ok? ==> |r.value| == |rs| && forall i :: 0 <= i < |rs| ==> r.value[i] == EntryOf(m, template, rs[i]).value
  {
    if |rs| == 0 then Ok([])
    else
      var e :- EntryOf(m, template, rs[0]);
      var es :- Entries(m, template, rs[1..]);
      assert forall i :: 1 <= i < |rs| ==> rs[i] == rs[1..][i - 1];
      Ok([e] + es)
  }

  /** Every row's entry can be built: both state badges and the transition's
      label resolve. */
  predicate EntriesBuild(m: WorkflowModel, template: string, rs: seq<WorkflowInfo>) {
    forall i :: 0 <= i < |rs| ==> EntryOf(m, template, rs[i]).Ok?
  }

  /** Whether every entry builds depends only on which rows there are. */
  lemma EntriesBuildOfSub(m: WorkflowModel, template: string, a: seq<WorkflowInfo>, b: seq<WorkflowInfo>)
    requires multiset(b) <= multiset(a) && EntriesBuild(m, template, a)
    ensures EntriesBuild(m, template, b)
  {
    forall i | 0 <= i < |b|
      ensures EntryOf(m, template, b[i]).Ok?
    {
      assert b[i] in multiset(b);
      assert b[i] in a;
      var j :| 0 <= j < |a| && a[j] == b[i];
    }
  }

  /** So reordering the rows, as the query does, changes nothing about it. */
  lemma EntriesBuildPermuted(m: WorkflowModel, template: string, a: seq<WorkflowInfo>, b: seq<WorkflowInfo>)
    requires multiset(a) == multiset(b)
    ensures EntriesBuild(m, template, a) <==> EntriesBuild(m, template, b)
  {
    if EntriesBuild(m, template, a) {
      EntriesBuildOfSub(m, template, a, b);
    }
    if EntriesBuild(m, template, b) {
      EntriesBuildOfSub(m, template, b, a);
    }
  }

  /** Entry `i` is built from row `i`, for every row. */
  predicate EntriesFollow(es: seq<HistoryEntry>, rs: seq<WorkflowInfo>) {
    && |es| == |rs|
    && forall i :: 0 <= i < |rs| ==>
         && es[i].transition == rs[i].transition && es[i].stateOld == rs[i].stateOld
         && es[i].stateNew == rs[i].stateNew && es[i].comment == rs[i].comment
         && es[i].timestamp == rs[i].timestamp && es[i].user == rs[i].user
  }

  /** The object's rows, in some timestamp order, each giving the entry at
      its position. */
  ghost predicate HistoryOfRows(es: seq<HistoryEntry>, log: seq<WorkflowInfo>, obj: ObjectRef) {
    exists rs :: multiset(rs) == multiset(RecordsOf(log, obj)) && SortedByTimestamp(rs) && EntriesFollow(es, rs)
  }

  /** `workflow_data` when the query filters on the column `lookup`. */
  function WorkflowDataBy(m: WorkflowModel, template: string, lookup: string, log: seq<WorkflowInfo>, obj: ObjectRef): (r: Result<seq<HistoryEntry>>)
    ensures lookup !in InfoFields ==> r == Err(FieldError(lookup))
    ensures r.Ok? <==> lookup in InfoFields && EntriesBuild(m, template, RecordsOf(log, obj))
    ensures r.Ok? ==> |r.value| == |RecordsOf(log, obj)|
    ensures r.Ok? ==> forall i, j :: 0 <= i < j < |r.value| ==> r.value[i].timestamp <= r.value[j].timestamp
    ensures r.Ok? ==> HistoryOfRows(r.value, log, obj)
  {
    var rs :- QueryInfos(log, lookup, obj);
    EntriesBuildPermuted(m, template, rs, RecordsOf(log, obj));
    var es :- Entries(m, template, rs);
    assert |rs| == |multiset(rs)| == |multiset(RecordsOf(log, obj))| == |RecordsOf(log, obj)|;
    assert EntriesFollow(es, rs);
    Ok(es)
  }

  /** `workflow_data` as written: it filters on `workflow_object_id`, a
      column `WorkflowInfo` does not have. */
  function WorkflowDataAsWritten(m: WorkflowModel, log: seq<WorkflowInfo>, obj: ObjectRef): (r: Result<seq<HistoryEntry>>)
    ensures r == Err(FieldError("workflow_object_id"))
  {
    assert "workflow_object_id" !in InfoFields;
    WorkflowDataBy(m, BadgeTemplate, "workflow_object_id", log, obj)
  }

  /** As written, reading the history always fails with a FieldError. */
  lemma WorkflowDataAsWrittenFails(m: WorkflowModel, log: seq<WorkflowInfo>, obj: ObjectRef)
    ensures WorkflowDataAsWritten(m, log, obj) == Err(FieldError("workflow_object_id"))
  {
    assert "workflow_object_id" !in InfoFields;
  }

  /** `workflow_data` filtering on the generic key's `workflow_object_pk`. */
  function WorkflowData(m: WorkflowModel, log: seq<WorkflowInfo>, obj: ObjectRef): (r: Result<seq<HistoryEntry>>)
    ensures RecordsOf(log, obj) == [] ==> r == Ok([])
    ensures r.Ok? <==> EntriesBuild(m, BadgeTemplate, RecordsOf(log, obj))
    ensures r.Ok? ==> |r.value| == |RecordsOf(log, obj)|
    ensures r.Ok? ==> forall i, j :: 0 <= i < j < |r.value| ==> r.value[i].timestamp <= r.value[j].timestamp
    ensures r.Ok? ==> HistoryOfRows(r.value, log, obj)
    ensures r.Ok? && SortedByTimestamp(RecordsOf(log, obj)) ==>
              forall i :: 0 <= i < |RecordsOf(log, obj)| ==>
                && r.value[i].transition == RecordsOf(log, obj)[i].transition
                && r.value[i].stateOld == RecordsOf(log, obj)[i].stateOld
                && r.value[i].stateNew == RecordsOf(log, obj)[i].stateNew
                && r.value[i].comment == RecordsOf(log, obj)[i].comment
  {
    assert "workflow_object_pk" in InfoFields;
    var d := WorkflowDataBy(m, BadgeTemplate, "workflow_object_pk", log, obj);
    if d.Ok? && SortedByTimestamp(RecordsOf(log, obj)) then
      HistoryFollowsTable(m, BadgeTemplate, log, obj);
      d
    else d
  }

  /** With the rows of the object already in timestamp order, the history
      lists them in table order, one entry each, copying transition, states
      and comment. */
  lemma HistoryFollowsTable(m: WorkflowModel, template: string, log: seq<WorkflowInfo>, obj: ObjectRef)
    requires SortedByTimestamp(RecordsOf(log, obj))
    requires EntriesBuild(m, template, RecordsOf(log, obj))
    ensures WorkflowDataBy(m, template, "workflow_object_pk", log, obj).Ok?
    ensures var es := WorkflowDataBy(m, template, "workflow_object_pk", log, obj).value;
            var rs := RecordsOf(log, obj);
            forall i :: 0 <= i < |rs| ==>
              es[i].transition == rs[i].transition && es[i].stateOld == rs[i].stateOld
              && es[i].stateNew == rs[i].stateNew && es[i].comment == rs[i].comment
  {
    assert "workflow_object_pk" in InfoFields;
    var rs := RecordsOf(log, obj);
    SortKeepsSorted(rs);
    assert QueryInfos(log, "workflow_object_pk", obj) == Ok(rs);
    var es := Entries(m, template, rs);
    assert es.Ok?;
    assert WorkflowDataBy(m, template, "workflow_object_pk", log, obj) == es;
    forall i | 0 <= i < |rs|
      ensures es.value[i].transition == rs[i].transition && es.value[i].stateOld == rs[i].stateOld
              && es.value[i].stateNew == rs[i].stateNew && es.value[i].comment == rs[i].comment
    {
      assert es.value[i] == EntryOf(m, template, rs[i]).value;
    }
  }
}
