/** The onboarding answers: the per-step validator and the looser checks made on what was stored. */
module WizardAnswers {
  import opened Json

  const STEP_COUNT := 3
  const DESCRIPTION_MAX := 2000
  const NOTES_MAX := 500
  const CHANNELS := ["Instagram", "Facebook", "TikTok", "Physical Location", "Others"]

  /** Stored answers by step number. */
  type Answers = map<nat, Json>

  function Answer(answers: Answers, step: nat): Option<Json> {
    if step in answers then Some(answers[step]) else None
  }

  // ----- JavaScript reads -----

  /** v?.key, where v may be undefined. */
  function Read(v: Option<Json>, key: string): Option<Json> {
    if v.Some? then v.value.Get(key) else None
  }

  predicate Truthy(v: Option<Json>) {
    match v
    case None => false
    case Some(Null) => false
    case Some(Bool(b)) => b
    case Some(Number(n)) => n != NaN && n != Fin(0.0)
    case Some(Str(s)) => s != ""
    case _ => true
  }

  /** !!v?.length */
  predicate HasLength(v: Option<Json>) {
    match v
    case Some(Arr(items)) => items != []
    case Some(Str(s)) => s != ""
    case Some(Obj(_)) => Truthy(Read(v, "length"))
    case _ => false
  }

  predicate Nullish(v: Option<Json>) {
    v.None? || v.value.Null?
  }

  // ----- the checks on stored answers -----

  datatype Presence = Present | Absent | Throws

  predicate HasDescription(answer: Option<Json>) {
    Truthy(Read(answer, "business_description"))
  }

  /** customer_tags?.type?.length || additional_notes?.trim(); trim throws on anything but a string. */
  function TagsOrNotes(answer: Option<Json>): Presence {
    var notes := Read(answer, "additional_notes");
    if HasLength(Read(Read(answer, "customer_tags"), "type")) then Present
    else if Nullish(notes) then Absent
    else if !notes.value.Str? then Throws
    else if IsBlank(notes.value.s) then Absent
    else Present
  }

  predicate HasChannel(answer: Option<Json>) {
    var channel := Read(answer, "discovery_channel");
    Truthy(channel) && (channel.value.Arr? ==> channel.value.items != [])
  }

  datatype Completeness = Complete | Incomplete(missing: seq<nat>) | Thrown

  /** Collects the missing steps in order. */
  method ValidateAnswers(answers: Answers) returns (r: Completeness)
    ensures r.Thrown? <==> TagsOrNotes(Answer(answers, 2)).Throws?
    ensures r == Judged(answers)
    ensures r.Incomplete? ==>
              && r.missing != []
              && (1 in r.missing <==> !HasDescription(Answer(answers, 1)))
              && (2 in r.missing <==> TagsOrNotes(Answer(answers, 2)).Absent?)
              && (3 in r.missing <==> !HasChannel(Answer(answers, 3)))
  {
    var missing: seq<nat> := [];
    if !HasDescription(Answer(answers, 1)) {
      missing := missing + [1];
    }
    var presence := TagsOrNotes(Answer(answers, 2));
    if presence.Throws? {
      return Thrown;
    }
    if presence.Absent? {
      missing := missing + [2];
    }
    if !HasChannel(Answer(answers, 3)) {
      missing := missing + [3];
    }
    r := if missing == [] then Complete else Incomplete(missing);
  }

  function Judged(answers: Answers): Completeness {
    var presence := TagsOrNotes(Answer(answers, 2));
    var missing := (if HasDescription(Answer(answers, 1)) then [] else [1])
                   + (if presence.Absent? then [2] else [])
                   + (if HasChannel(Answer(answers, 3)) then [] else [3]);
    if presence.Throws? then Thrown else if missing == [] then Complete else Incomplete(missing)
  }

  // ----- the validator of one step's answer -----

  predicate OptionalStrings(v: Option<Json>) {
    Nullish(v) || (v.value.Arr? && forall i | 0 <= i < |v.value.items| :: v.value.items[i].Str?)
  }

  /** ValidateNested, with nothing to check on a missing value and element by element on an array. */
  predicate ValidTags(v: Json)
    decreases v
  {
    match v
    case Null => true
    case Obj(_) => OptionalStrings(v.Get("type")) && OptionalStrings(v.Get("location"))
        && OptionalStrings(v.Get("wants"))
    case Arr(items) => forall i | 0 <= i < |items| :: ValidTags(items[i])
    case _ => false
  }

  predicate TagsOrNotesConstraint(answer: Json) {
    var types, notes := Read(answer.Get("customer_tags"), "type"), answer.Get("additional_notes");
    || (types.Some? && types.value.Arr? && types.value.items != [])
    || (notes.Some? && notes.value.Str? && !IsBlank(notes.value.s))
  }

  predicate ValidStep1(answer: Json) {
    var d := answer.GetString("business_description");
    d.Some? && 1 <= |d.value| <= DESCRIPTION_MAX
  }

  predicate ValidStep2(answer: Json) {
    var notes := answer.Get("additional_notes");
    && answer.Obj?
    && TagsOrNotesConstraint(answer)
    && (answer.Get("customer_tags").Some? ==> ValidTags(answer.Get("customer_tags").value))
    && (Nullish(notes) || (notes.value.Str? && |notes.value.s| <= NOTES_MAX))
  }

  predicate ValidStep3(answer: Json) {
    var channel := answer.Get("discovery_channel");
    && channel.Some? && channel.value.Arr? && channel.value.items != []
    && forall i | 0 <= i < |channel.value.items| :: channel.value.items[i].Str? && channel.value.items[i].s in CHANNELS
  }

  predicate ValidAnswer(step: nat, answer: Json) {
    match step
    case 1 => ValidStep1(answer)
    case 2 => ValidStep2(answer)
    case 3 => ValidStep3(answer)
    case _ => false
  }

  /** What each step accepts. */
  lemma ValidAnswersRead(answer: Json)
    ensures ValidAnswer(1, answer) <==>
              && answer.Obj? && "business_description" in answer.fields && answer.fields["business_description"].Str?
              && 1 <= |answer.fields["business_description"].s| <= 2000
    ensures ValidAnswer(2, answer) <==>
              && answer.Obj? && (HasTypeTag(answer) || HasNotes(answer))
              && ("customer_tags" in answer.fields ==> ValidTags(answer.fields["customer_tags"]))
              && ("additional_notes" in answer.fields ==> ValidNotes(answer.fields["additional_notes"]))
    ensures ValidAnswer(3, answer) <==>
              && answer.Obj? && "discovery_channel" in answer.fields && answer.fields["discovery_channel"].Arr?
              && answer.fields["discovery_channel"].items != []
              && forall c | c in answer.fields["discovery_channel"].items ::
                   c.Str? && c.s in ["Instagram", "Facebook", "TikTok", "Physical Location", "Others"]
    ensures forall step | step == 0 || step > 3 :: !ValidAnswer(step, answer)
  {
  }

  /** A non-empty list of types among the customer tags. */
  predicate HasTypeTag(answer: Json) {
    && answer.Obj? && "customer_tags" in answer.fields && answer.fields["customer_tags"].Obj?
    && "type" in answer.fields["customer_tags"].fields && answer.fields["customer_tags"].fields["type"].Arr?
    && answer.fields["customer_tags"].fields["type"].items != []
  }

  /** Notes with more than white space in them. */
  predicate HasNotes(answer: Json) {
    && answer.Obj? && "additional_notes" in answer.fields && answer.fields["additional_notes"].Str?
    && exists c | c in answer.fields["additional_notes"].s :: !IsWhite(c)
  }

  predicate ValidNotes(notes: Json) {
    notes.Null? || (notes.Str? && |notes.s| <= 500)
  }

  // ----- validator and checks agree -----

  /** Validated answers to an initial segment of the steps. */
  predicate ValidPrefix(answers: Answers) {
    && (forall step | step in answers :: ValidAnswer(step, answers[step]))
    && (3 in answers ==> 2 in answers) && (2 in answers ==> 1 in answers)
  }

  lemma ValidStepInRange(step: nat, answer: Json)
    requires ValidAnswer(step, answer)
    ensures 1 <= step <= STEP_COUNT
  {
  }

  lemma PrefixGrows(answers: Answers, step: nat, answer: Json)
    requires ValidPrefix(answers) && ValidAnswer(step, answer)
    requires (step >= 2 ==> 1 in answers) && (step == 3 ==> 2 in answers)
    ensures ValidPrefix(answers[step := answer])
  {
    ValidStepInRange(step, answer);
  }

  /** A validated answer passes the check made on it later, and none of those checks throws. */
  lemma ValidatedPassesChecks(answers: Answers)
    requires ValidPrefix(answers)
    ensures HasDescription(Answer(answers, 1)) <==> 1 in answers
    ensures TagsOrNotes(Answer(answers, 2)) == if 2 in answers then Present else Absent
    ensures HasChannel(Answer(answers, 3)) <==> 3 in answers
  {
  }

  /** Complete means all three answered; otherwise the missing list is the rest of 1, 2, 3. */
  lemma CompleteExactlyWhenAllAnswered(answers: Answers)
    requires ValidPrefix(answers)
    ensures Judged(answers).Complete? <==> answers.Keys == {1, 2, 3}
    ensures !Judged(answers).Complete? ==>
              Judged(answers) == Incomplete(if 2 in answers then [3] else if 1 in answers then [2, 3] else [1, 2, 3])
  {
    ValidatedPassesChecks(answers);
    assert forall step | step in answers :: 1 <= step <= 3;
  }

  /** The answered steps are 1, .., k. */
  lemma AnsweredStepsArePrefix(answers: Answers)
    requires ValidPrefix(answers)
    ensures |answers| <= STEP_COUNT && forall step :: step in answers <==> 1 <= step <= |answers|
  {
    assert forall step | step in answers :: 1 <= step <= 3;
    var keys := if 3 in answers then {1, 2, 3} else if 2 in answers then {1, 2} else if 1 in answers then {1} else {};
    assert answers.Keys == keys;
  }
}
