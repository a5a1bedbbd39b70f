/** `WorkflowView` (crud_views_workflow/lib/views.py): the form view that
    offers the possible transitions of an object and, on a valid form,
    takes the chosen transition and writes one audit record.

    The database is the pair (stored object, audit table); taking a
    transition is a pure function from that pair to a new pair or an error.
    The atomic block is the `Result`: on any error the caller keeps the pair
    it had. The transition method's body, `save()` and the `on_transition`
    hook are code outside the model; what they return or raise is the
    parameter `Effects`. */
module WorkflowView {
  import opened Common
  import opened Workflow
  import WorkflowForm

  /** The workflow object as stored: which row it is and its state. */
  datatype WorkflowObject = WorkflowObject(ref: ObjectRef, state: string)

  /** The outcome of the code the view calls but does not define: the value
      the transition method returns (or the error it raises), and an error
      raised by `save()` or by an overridden `on_transition`. */
  datatype Effects = Effects(data: Result<Json>, saveError: Option<Error>, hookError: Option<Error>)

  /** The arguments `on_transition` receives. */
  datatype HookCall = HookCall(
    info: WorkflowInfo,
    transition: string,
    stateOld: string,
    stateNew: string,
    comment: Option<string>,
    user: User,
    data: Json)

  /** The committed result: the object, the audit table, and the one hook call. */
  datatype Committed = Committed(obj: WorkflowObject, log: seq<WorkflowInfo>, hook: HookCall)

  /** A string comment is stripped, and a blank one becomes None. */
  function NormaliseComment(comment: Option<string>): (r: Option<string>)
    ensures r.None? <==> comment.None? || IsBlank(comment.value)
    ensures r.Some? ==> r.value == Strip(comment.value) && r.value != ""
  {
    match comment
    case None => None
    case Some(c) =>
      StripEmptyIffBlank(c);
      var s := Strip(c);
      if s == "" then None else Some(s)
  }

  /** Normalising twice is normalising once. */
  lemma NormaliseIdempotent(comment: Option<string>)
    ensures NormaliseComment(NormaliseComment(comment)) == NormaliseComment(comment)
  {
    if comment.Some? {
      StripIdempotent(comment.value);
    }
  }

  /** The first transition in `ts` named `name`. */
  function FirstNamed(ts: seq<Transition>, name: string): (r: Option<Transition>)
    ensures r.None? <==> forall t :: t in ts ==> t.name != name
    ensures r.Some? ==> r.value in ts && r.value.name == name
  {
    if |ts| == 0 then None
    else if ts[0].name == name then Some(ts[0])
    else FirstNamed(ts[1..], name)
  }

  /** The keyword arguments `WorkflowInfo.objects.create` receives, as written. */
  const CreateKwargsAsWritten: set<string> :=
    {"transition", "state_old", "state_new", "comment", "user", "data", "workflow_object_id", "workflow_object_content_type"}

  /** The same with the generic key's column `workflow_object_pk`. */
  const CreateKwargs: set<string> :=
    {"transition", "state_old", "state_new", "comment", "user", "data", "workflow_object_pk", "workflow_object_content_type"}

  /** `Model(**kwargs)`: a keyword that is not a column is a TypeError. */
  function CreateInfo(kwargs: set<string>, info: WorkflowInfo): (r: Result<WorkflowInfo>)
    ensures r.Ok? <==> kwargs <= InfoFields
    ensures r.Ok? ==> r.value == info
    ensures r.Err? ==> r.error.TypeError?
  {
    if kwargs <= InfoFields then Ok(info) else Err(TypeError("unexpected keyword arguments"))
  }

  /** `cv_form_valid_hook` with `WorkflowInfo` created from `kwargs`; `now`
      is the clock reading `auto_now_add` stores. */
  function TakeTransitionWith(kwargs: set<string>, m: WorkflowModel, obj: WorkflowObject, log: seq<WorkflowInfo>,
                              user: User, name: string, comment: Option<string>, fx: Effects, now: int): (r: Result<Committed>)
    ensures !HasTransition(m, obj.state, user, name) ==> r.Err? && r.error.SuspiciousOperation?
    ensures r.Ok? <==> HasTransition(m, obj.state, user, name) && fx.data.Ok? && fx.saveError.None?
                       && kwargs <= InfoFields && fx.hookError.None?
  {
    var c := NormaliseComment(comment);
    if !HasTransition(m, obj.state, user, name) then Err(SuspiciousOperation("Invalid transition " + name))
    else
      HasTransitionIff(m, obj.state, user, name);
      var t := FirstNamed(Available(m.transitions, obj.state, user), name).value;
      var data :- fx.data;
      var moved := obj.(state := t.target);
      if fx.saveError.Some? then Err(fx.saveError.value)
      else
        var info :- CreateInfo(kwargs, WorkflowInfo(name, obj.state, moved.state, c, user, now, data,
                                                    obj.ref.contentType, obj.ref.pk));
        if fx.hookError.Some? then Err(fx.hookError.value)
        else Ok(Committed(moved, log + [info], HookCall(info, name, obj.state, moved.state, c, user, data)))
  }

  /** The view as written: it creates the record with `workflow_object_id`. */
  function TakeTransitionAsWritten(m: WorkflowModel, obj: WorkflowObject, log: seq<WorkflowInfo>,
                                   user: User, name: string, comment: Option<string>, fx: Effects, now: int): (r: Result<Committed>)
    ensures r.Err?
    ensures HasTransition(m, obj.state, user, name) && fx.data.Ok? && fx.saveError.None? ==> r.error.TypeError?
  {
    assert "workflow_object_id" in CreateKwargsAsWritten && "workflow_object_id" !in InfoFields;
    TakeTransitionWith(CreateKwargsAsWritten, m, obj, log, user, name, comment, fx, now)
  }

  /** As written, no transition is ever committed: even when every step
      succeeds, creating the audit record raises a TypeError. */
  lemma AsWrittenNeverCommits(m: WorkflowModel, obj: WorkflowObject, log: seq<WorkflowInfo>,
                              user: User, name: string, comment: Option<string>, fx: Effects, now: int)
    ensures TakeTransitionAsWritten(m, obj, log, user, name, comment, fx, now).Err?
    ensures HasTransition(m, obj.state, user, name) && fx.data.Ok? && fx.saveError.None? ==>
              TakeTransitionAsWritten(m, obj, log, user, name, comment, fx, now).error.TypeError?
  {
    assert "workflow_object_id" in CreateKwargsAsWritten && "workflow_object_id" !in InfoFields;
  }

  /** The view creating the record with the column it has. */
  function TakeTransition(m: WorkflowModel, obj: WorkflowObject, log: seq<WorkflowInfo>,
                          user: User, name: string, comment: Option<string>, fx: Effects, now: int): (r: Result<Committed>)
    ensures r.Ok? <==> HasTransition(m, obj.state, user, name) && fx.data.Ok? && fx.saveError.None? && fx.hookError.None?
  {
    assert CreateKwargs <= InfoFields;
    TakeTransitionWith(CreateKwargs, m, obj, log, user, name, comment, fx, now)
  }

  /** A successful transition appends exactly one record: the transition,
      the state before and after, the normalised comment, the user, the
      returned data and the object; the object moves to the target of an
      available transition of that name. */
  lemma TransitionRecord(m: WorkflowModel, obj: WorkflowObject, log: seq<WorkflowInfo>,
                         user: User, name: string, comment: Option<string>, fx: Effects, now: int)
    requires TakeTransition(m, obj, log, user, name, comment, fx, now).Ok?
    ensures var c := TakeTransition(m, obj, log, user, name, comment, fx, now).value;
            && c.obj.ref == obj.ref
            && (exists t :: t in m.transitions && AvailableTo(t, obj.state, user) && t.name == name && c.obj.state == t.target)
            && c.log == log + [WorkflowInfo(name, obj.state, c.obj.state, NormaliseComment(comment), user, now,
                                            fx.data.value, obj.ref.contentType, obj.ref.pk)]
  {
    assert CreateKwargs <= InfoFields;
    HasTransitionIff(m, obj.state, user, name);
  }

  /** The hook runs once, after the record is written, with the record and
      the same values. */
  lemma HookSeesRecord(m: WorkflowModel, obj: WorkflowObject, log: seq<WorkflowInfo>,
                       user: User, name: string, comment: Option<string>, fx: Effects, now: int)
    requires TakeTransition(m, obj, log, user, name, comment, fx, now).Ok?
    ensures var c := TakeTransition(m, obj, log, user, name, comment, fx, now).value;
            && c.hook.info == c.log[|c.log| - 1]
            && c.hook == HookCall(c.hook.info, name, obj.state, c.obj.state, NormaliseComment(comment), user, fx.data.value)
  {
    assert CreateKwargs <= InfoFields;
  }

  // ---------------------------------------------------------------------
  // the audit chain

  /** The records of one object continue one another: each starts in the
      state the previous one ended in. */
  predicate Chained(rs: seq<WorkflowInfo>) {
    forall i :: 0 < i < |rs| ==> rs[i].stateOld == rs[i - 1].stateNew
  }

  /** The audit table agrees with the stored object: its records are chained
      and the last one ends in the object's state. */
  predicate Consistent(log: seq<WorkflowInfo>, obj: WorkflowObject) {
    var rs := RecordsOf(log, obj.ref);
    Chained(rs) && (|rs| > 0 ==> rs[|rs| - 1].stateNew == obj.state)
  }

  /** A record that starts where the last one ended extends a chain. */
  lemma ChainedAppend(rs: seq<WorkflowInfo>, info: WorkflowInfo)
    requires Chained(rs) && (|rs| > 0 ==> rs[|rs| - 1].stateNew == info.stateOld)
    ensures Chained(rs + [info])
  {
  }

  /** A record no earlier than every row keeps the rows in timestamp order. */
  lemma SortedAppend(rs: seq<WorkflowInfo>, info: WorkflowInfo)
    requires SortedByTimestamp(rs) && forall r :: r in rs ==> r.timestamp <= info.timestamp
    ensures SortedByTimestamp(rs + [info])
  {
    var s := rs + [info];
    forall i, j | 0 <= i < j < |s|
      ensures s[i].timestamp <= s[j].timestamp
    {
      if j == |rs| {
        assert s[i] in rs;
      }
    }
  }

  /** Taking a transition keeps the table consistent with the object. */
  lemma TransitionKeepsConsistent(m: WorkflowModel, obj: WorkflowObject, log: seq<WorkflowInfo>,
                                  user: User, name: string, comment: Option<string>, fx: Effects, now: int)
    requires Consistent(log, obj)
    requires TakeTransition(m, obj, log, user, name, comment, fx, now).Ok?
    ensures var c := TakeTransition(m, obj, log, user, name, comment, fx, now).value;
            Consistent(c.log, c.obj)
  {
    TransitionRecord(m, obj, log, user, name, comment, fx, now);
    var c := TakeTransition(m, obj, log, user, name, comment, fx, now).value;
    var info := c.log[|c.log| - 1];
    RecordsOfAppend(log, info, obj.ref);
    ChainedAppend(RecordsOf(log, obj.ref), info);
  }

  /** When the clock does not go back, the object's records stay in
      timestamp order. */
  lemma TransitionKeepsTimeOrder(m: WorkflowModel, obj: WorkflowObject, log: seq<WorkflowInfo>,
                                 user: User, name: string, comment: Option<string>, fx: Effects, now: int)
    requires SortedByTimestamp(RecordsOf(log, obj.ref)) && forall r :: r in log ==> r.timestamp <= now
    requires TakeTransition(m, obj, log, user, name, comment, fx, now).Ok?
    ensures SortedByTimestamp(RecordsOf(TakeTransition(m, obj, log, user, name, comment, fx, now).value.log, obj.ref))
  {
    TransitionRecord(m, obj, log, user, name, comment, fx, now);
    var c := TakeTransition(m, obj, log, user, name, comment, fx, now).value;
    var info := c.log[|c.log| - 1];
    RecordsOfAppend(log, info, obj.ref);
    SortedAppend(RecordsOf(log, obj.ref), info);
  }

  /** Two transitions in a row: the second record starts where the first
      ended, and the history lists both in that order. */
  lemma TwoTransitionsChain(m: WorkflowModel, obj: WorkflowObject, user: User,
                            n1: string, c1: Option<string>, fx1: Effects, t1: int,
                            n2: string, c2: Option<string>, fx2: Effects, t2: int)
    requires TakeTransition(m, obj, [], user, n1, c1, fx1, t1).Ok?
    requires var s1 := TakeTransition(m, obj, [], user, n1, c1, fx1, t1).value;
             TakeTransition(m, s1.obj, s1.log, user, n2, c2, fx2, t2).Ok?
    requires t1 <= t2
    ensures var s1 := TakeTransition(m, obj, [], user, n1, c1, fx1, t1).value;
            var s2 := TakeTransition(m, s1.obj, s1.log, user, n2, c2, fx2, t2).value;
            && |s2.log| == 2
            && s2.log[0].stateOld == obj.state
            && s2.log[1].stateOld == s2.log[0].stateNew
            && s2.log[1].stateNew == s2.obj.state
            && s2.log[0].transition == n1 && s2.log[1].transition == n2
  {
    var s1 := TakeTransition(m, obj, [], user, n1, c1, fx1, t1).value;
    TransitionRecord(m, obj, [], user, n1, c1, fx1, t1);
    TransitionRecord(m, s1.obj, s1.log, user, n2, c2, fx2, t2);
  }

  /** The history of a consistent, time-ordered table is chained. */
  lemma HistoryChained(m: WorkflowModel, log: seq<WorkflowInfo>, obj: WorkflowObject)
    requires Consistent(log, obj) && SortedByTimestamp(RecordsOf(log, obj.ref))
    requires EntriesBuild(m, BadgeTemplate, RecordsOf(log, obj.ref))
    ensures WorkflowData(m, log, obj.ref).Ok?
    ensures var es := WorkflowData(m, log, obj.ref).value;
            && (forall i :: 0 < i < |es| ==> es[i].stateOld == es[i - 1].stateNew)
            && (|es| > 0 ==> es[|es| - 1].stateNew == obj.state)
  {
    var es := WorkflowData(m, log, obj.ref).value;
    var rs := RecordsOf(log, obj.ref);
    assert |es| == |rs|;
    forall i | 0 < i < |es|
      ensures es[i].stateOld == es[i - 1].stateNew
    {
      assert es[i].stateOld == rs[i].stateOld && es[i - 1].stateNew == rs[i - 1].stateNew;
    }
  }

  // ---------------------------------------------------------------------
  // form kwargs and context

  /** A keyword argument of the form. */
  datatype Kwarg = Other(value: string) | ChoicesArg(choices: seq<(string, string)>) | CommentsArg(levels: map<string, CommentLevel>)

  /** `get_form_kwargs`: the inherited keyword arguments updated with the
      object's choices and levels for the requesting user. */
  function GetViewFormKwargs(base: map<string, Kwarg>, m: WorkflowModel, obj: WorkflowObject, user: User): (kw: map<string, Kwarg>)
    ensures kw.Keys == base.Keys + {"choices", "transition_comments"}
    ensures kw["choices"] == ChoicesArg(GetFormKwargs(m, obj.state, user).choices)
    ensures kw["transition_comments"] == CommentsArg(GetFormKwargs(m, obj.state, user).transitionComments)
    ensures forall k :: k in base && k != "choices" && k != "transition_comments" ==> kw[k] == base[k]
  {
    var wf := GetFormKwargs(m, obj.state, user);
    base["choices" := ChoicesArg(wf.choices)]["transition_comments" := CommentsArg(wf.transitionComments)]
  }

  /** `get_context_data`: the inherited context plus `has_workflow_choices`. */
  function GetContextData(base: map<string, Json>, m: WorkflowModel, obj: WorkflowObject, user: User): (ctx: map<string, Json>)
    ensures ctx.Keys == base.Keys + {"has_workflow_choices"}
    ensures ctx["has_workflow_choices"] == JBool(HasAnyPossibleTransition(m, obj.state, user))
    ensures forall k :: k in base && k != "has_workflow_choices" ==> ctx[k] == base[k]
  {
    base["has_workflow_choices" := JBool(HasAnyPossibleTransition(m, obj.state, user))]
  }

  /** In a state no declared transition leaves to the user, the page renders
      with `has_workflow_choices` false, and any submitted transition is
      rejected as suspicious. */
  lemma TerminalState(base: map<string, Json>, m: WorkflowModel, obj: WorkflowObject, log: seq<WorkflowInfo>,
                      user: User, name: string, comment: Option<string>, fx: Effects, now: int)
    requires forall t :: t in m.transitions ==> !AvailableTo(t, obj.state, user)
    ensures GetContextData(base, m, obj, user)["has_workflow_choices"] == JBool(false)
    ensures TakeTransition(m, obj, log, user, name, comment, fx, now).Err?
    ensures TakeTransition(m, obj, log, user, name, comment, fx, now).error.SuspiciousOperation?
  {
    HasAnyIff(m, obj.state, user);
    HasTransitionIff(m, obj.state, user, name);
    assert CreateKwargs <= InfoFields;
  }

  /** The form the view builds and validates: a transition whose level is
      REQUIRED cannot be submitted with a blank comment. */
  lemma RequiredCommentBlocksBlank(m: WorkflowModel, obj: WorkflowObject, user: User, name: string, comment: Option<string>)
    requires var kw := GetFormKwargs(m, obj.state, user);
             name in kw.transitionComments && kw.transitionComments[name] == REQUIRED
    requires comment.None? || IsBlank(comment.value)
    ensures var kw := GetFormKwargs(m, obj.state, user);
            WorkflowForm.Clean(WorkflowForm.Init(kw.choices, kw.transitionComments),
                               WorkflowForm.Cleaned(Some(name), comment)).1 != []
  {
  }
}
