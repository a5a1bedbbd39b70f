/** `WorkflowForm` (crud_views_workflow/lib/forms.py): the form offering the
    possible transitions as radio choices with a comment box that is hidden
    when no offered transition takes a comment, and whose `clean` demands a
    non-blank comment for a transition whose level is REQUIRED. */
module WorkflowForm {
  import opened Common
  import opened Workflow

  datatype Widget = RadioSelect | Textarea | HiddenInput

  /** The parts of a form field the form decides on. */
  datatype FormField = FormField(required: bool, widget: Widget)

  /** A constructed form: its choices, the comment level of each offered
      transition, the highest of those levels, and its two fields. */
  datatype Form = Form(
    choices: seq<(string, string)>,
    transitionComments: map<string, CommentLevel>,
    transitionComment: CommentLevel,
    transition: FormField,
    comment: FormField)

  /** `max(levels)`, or NONE for no levels. */
  function MaxLevel(levels: set<CommentLevel>): (r: CommentLevel)
    ensures levels == {} ==> r == NONE
    ensures levels != {} ==> r in levels
    ensures forall l :: l in levels ==> l.Value() <= r.Value()
  {
    if REQUIRED in levels then REQUIRED
    else if OPTIONAL in levels then OPTIONAL
    else
      assert forall l | l in levels :: l == NONE;
      NONE
  }

  lemma NonEmptyValues<K, V>(m: map<K, V>)
    ensures m != map[] ==> m.Values != {}
  {
    if m != map[] {
      var k :| k in m;
      assert m[k] in m.Values;
    }
  }

  /** `WorkflowForm.__init__(choices=..., transition_comments=...)`. */
  function Init(choices: seq<(string, string)>, transitionComments: map<string, CommentLevel>): (f: Form)
    ensures f.transitionComments == transitionComments
    ensures f.transitionComment == NONE <==> forall l :: l in transitionComments.Values ==> l == NONE
    ensures transitionComments != map[] ==> f.transitionComment in transitionComments.Values
    ensures forall l :: l in transitionComments.Values ==> l.Value() <= f.transitionComment.Value()
    ensures f.comment.widget.HiddenInput? <==> f.transitionComment == NONE
    ensures f.transition.required && !f.comment.required
    ensures f.choices == choices
  {
    var level := MaxLevel(transitionComments.Values);
    NonEmptyValues(transitionComments);
    Form(choices, transitionComments, level,
         FormField(true, RadioSelect),
         FormField(false, if level == NONE then HiddenInput else Textarea))
  }

  /** The fields of `cleaned_data` that `clean` reads; a field that failed
      its own validation is absent. */
  datatype Cleaned = Cleaned(transition: Option<string>, comment: Option<string>)

  datatype FormError = FormError(field: string, message: string)

  const CommentRequiredMessage: string := "Comment is required for this transition"

  /** `not comment` after `comment.strip()`: no comment, or only whitespace. */
  function CommentMissing(comment: Option<string>): (b: bool)
    ensures b <==> comment.None? || IsBlank(comment.value)
  {
    match comment
    case None => true
    case Some(c) => StripEmptyIffBlank(c); Strip(c) == ""
  }

  /** `WorkflowForm.clean()`: the cleaned data and the errors added. A
      missing required comment is reported on the comment field, and
      `add_error` takes that field out of the cleaned data. */
  function Clean(f: Form, cleaned: Cleaned): (r: (Cleaned, seq<FormError>))
    ensures r.1 == [] ==> r.0 == cleaned
    ensures r.1 != [] ==> r.0 == cleaned.(comment := None)
    ensures |r.1| <= 1
    ensures r.1 != [] <==> && cleaned.transition.Some?
                           && cleaned.transition.value in f.transitionComments
                           && f.transitionComments[cleaned.transition.value] == REQUIRED
                           && (cleaned.comment.None? || IsBlank(cleaned.comment.value))
    ensures r.1 != [] ==> r.1 == [FormError("comment", CommentRequiredMessage)]
  {
    var missing := CommentMissing(cleaned.comment);
    var level := if cleaned.transition.Some? && cleaned.transition.value in f.transitionComments
                 then Some(f.transitionComments[cleaned.transition.value]) else None;
    if level == Some(REQUIRED) && missing
    then (cleaned.(comment := None), [FormError("comment", CommentRequiredMessage)])
    else (cleaned, [])
  }

  /** When the comment box is hidden no offered transition requires a
      comment, so `clean` never complains about it. */
  lemma HiddenCommentNeverRequired(choices: seq<(string, string)>, tc: map<string, CommentLevel>, cleaned: Cleaned)
    requires Init(choices, tc).comment.widget.HiddenInput?
    ensures Clean(Init(choices, tc), cleaned).1 == []
  {
    var f := Init(choices, tc);
    if cleaned.transition.Some? && cleaned.transition.value in tc {
      assert tc[cleaned.transition.value] in tc.Values;
    }
  }

  /** The form the workflow view builds: every offered transition is a
      choice, and its level counts towards the comment box. */
  lemma FormOfOfferedTransitions(m: WorkflowModel, state: string, user: User)
    ensures var kw := GetFormKwargs(m, state, user);
            var f := Init(kw.choices, kw.transitionComments);
            && |f.choices| == |PossibleTransitions(m, state, user)|
            && (f.comment.widget.HiddenInput? <==> forall l :: l in kw.transitionComments.Values ==> l == NONE)
            && (!HasAnyPossibleTransition(m, state, user) ==> f.comment.widget.HiddenInput?)
  {
    var kw := GetFormKwargs(m, state, user);
    if !HasAnyPossibleTransition(m, state, user) {
      assert kw.transitionComments.Keys == {};
      assert kw.transitionComments == map[];
    }
  }
}
