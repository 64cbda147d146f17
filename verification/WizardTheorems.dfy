/** What holds on every run of the wizard, and exactly when a stale save breaks the rest. */
module WizardTheorems {
  import opened Json
  import opened WizardAnswers
  import opened WizardProtocol

  lemma {:induction false} RunKeepsInv(s: State, acts: seq<Action>)
    requires AnswersInv(s) && KnownInv(s)
    ensures AnswersInv(Run(s, acts)) && KnownInv(Run(s, acts))
    decreases |acts|
  {
    if acts != [] {
      StepKeepsAnswersInv(s, acts[0]);
      StepKeepsKnownInv(s, acts[0]);
      RunKeepsInv(Step(s, acts[0]), acts[1..]);
    }
  }

  /** No save's write leaves out a step saved since its load. */
  predicate LosesNothingRun(s: State, acts: seq<Action>)
    decreases |acts|
  {
    acts != [] ==> LosesNothing(s, acts[0]) && LosesNothingRun(Step(s, acts[0]), acts[1..])
  }

  predicate KeptThroughout(s: State, acts: seq<Action>)
    decreases |acts|
  {
    Kept(s) && (acts != [] ==> KeptThroughout(Step(s, acts[0]), acts[1..]))
  }

  /** Over any run every successfully saved answer is there all the time exactly when no save's write
      leaves out a step saved since its load. */
  lemma {:induction false} AnswersKeptExactlyWhenNothingIsLost(s: State, acts: seq<Action>)
    requires AnswersInv(s) && KnownInv(s) && Kept(s)
    ensures KeptThroughout(s, acts) <==> LosesNothingRun(s, acts)
    ensures LosesNothingRun(s, acts) ==> Kept(Run(s, acts))
    decreases |acts|
  {
    if acts != [] {
      StepKeepsAnswersInv(s, acts[0]);
      StepKeepsKnownInv(s, acts[0]);
      StepKeepsAnswersExactlyWhen(s, acts[0]);
      if LosesNothing(s, acts[0]) {
        AnswersKeptExactlyWhenNothingIsLost(Step(s, acts[0]), acts[1..]);
      }
    }
  }

  predicate HarmlessRun(s: State, acts: seq<Action>)
    decreases |acts|
  {
    acts != [] ==> Harmless(s, acts[0]) && HarmlessRun(Step(s, acts[0]), acts[1..])
  }

  predicate OneLiveThroughout(s: State, acts: seq<Action>)
    decreases |acts|
  {
    OneLive(s) && (acts != [] ==> OneLiveThroughout(Step(s, acts[0]), acts[1..]))
  }

  /** Over any run the user has at most one live session all the time, counting the one a start is
      about to insert, exactly when every save's write is harmless. */
  lemma {:induction false} OneLiveExactlyOnHarmlessRuns(s: State, acts: seq<Action>)
    requires AnswersInv(s) && KnownInv(s) && StartsInv(s) && OneLive(s)
    ensures OneLiveThroughout(s, acts) <==> HarmlessRun(s, acts)
    ensures HarmlessRun(s, acts) ==> OneLive(Run(s, acts))
    decreases |acts|
  {
    if acts != [] {
      var t := Step(s, acts[0]);
      StepKeepsAnswersInv(s, acts[0]);
      StepKeepsKnownInv(s, acts[0]);
      StepKeepsStartsInv(s, acts[0]);
      StepKeepsOneLiveExactlyWhenHarmless(s, acts[0]);
      if OneLive(t) {
        OneLiveExactlyOnHarmlessRuns(t, acts[1..]);
      }
    }
  }

  lemma {:induction false} RunAppend(s: State, a: seq<Action>, b: seq<Action>)
    ensures Run(s, a + b) == Run(Run(s, a), b)
    decreases |a|
  {
    if a == [] {
      assert a + b == b;
    } else {
      assert (a + b)[1..] == a[1..] + b;
      RunAppend(Step(s, a[0]), a[1..], b);
    }
  }

  // ----- every interleaving -----

  /** Stale saves or not: the answered steps of every session are 1, .., k with validated answers,
      k is what steps_completed says, and no later check throws on them. */
  lemma AnsweredStepsStayPrefix(now: int, acts: seq<Action>, id: nat)
    requires id < |Run(Initial(now), acts).rows|
    ensures var row := Run(Initial(now), acts).rows[id];
            && row.steps <= STEP_COUNT
            && (forall step :: step in row.answers <==> 1 <= step <= row.steps)
            && (forall step | step in row.answers :: ValidAnswer(step, row.answers[step]))
            && !Judged(row.answers).Thrown?
  {
    RunKeepsInv(Initial(now), acts);
    var s := Run(Initial(now), acts);
    assert s.rows[id] in s.rows;
    AnsweredStepsArePrefix(s.rows[id].answers);
    ValidatedPassesChecks(s.rows[id].answers);
  }

  // ----- one live session -----

  /** So while no save's write does harm, only one session of the user is in progress and not expired,
      now or at any later time; the clock of a start is read before the lock is taken. */
  lemma OneLiveSession(now: int, acts: seq<Action>, later: int)
    requires HarmlessRun(Initial(now), acts) && Run(Initial(now), acts).now <= later
    ensures !TwoLive(Run(Initial(now), acts).rows, later)
  {
    OneLiveExactlyOnHarmlessRuns(Initial(now), acts);
    var s := Run(Initial(now), acts);
    assert forall row :: LiveSession(row, later) ==> LiveSession(row, s.now);
  }

  // ----- three saves and a completion -----

  /** Under every interleaving: an accepted session has had its three steps saved, and a live one with
      all three saved is refused exactly when one of those answers was lost. */
  lemma RefusedExactlyWhenAnAnswerWasLost(now: int, acts: seq<Action>, id: nat)
    requires id < |Run(Initial(now), acts).rows|
    requires var s := Run(Initial(now), acts); LiveSession(s.rows[id], s.now)
    ensures var s := Run(Initial(now), acts);
            var reply := CompleteChecks(s.rows[id], s.now);
            && |s.saved| == |s.rows|
            && (reply.CompleteAccepted? ==> s.saved[id] == {1, 2, 3})
            && (s.saved[id] == {1, 2, 3} ==> (reply.CompleteRefused? <==> !(s.saved[id] <= s.rows[id].answers.Keys)))
  {
    RunKeepsInv(Initial(now), acts);
    var s := Run(Initial(now), acts);
    assert s.rows[id] in s.rows;
    RepliesListUnsaved(s.rows[id], s.now);
  }

  /** When no save loses an answer, an open session is completed exactly when its three saves
      succeeded; otherwise the reply lists exactly the steps never saved. */
  lemma CompletedExactlyAfterThreeSaves(now: int, acts: seq<Action>, id: nat)
    requires LosesNothingRun(Initial(now), acts) && id < |Run(Initial(now), acts).rows|
    requires var s := Run(Initial(now), acts); LiveSession(s.rows[id], s.now)
    ensures var s := Run(Initial(now), acts);
            var reply := CompleteChecks(s.rows[id], s.now);
            && |s.saved| == |s.rows|
            && (reply.CompleteAccepted? <==> s.saved[id] == {1, 2, 3})
            && (!reply.CompleteAccepted? ==>
                 reply.CompleteRefused? &&
                  forall step | 1 <= step <= 3 :: step in reply.missing <==> step !in s.saved[id])
  {
    RunKeepsInv(Initial(now), acts);
    AnswersKeptExactlyWhenNothingIsLost(Initial(now), acts);
    var s := Run(Initial(now), acts);
    assert s.rows[id] in s.rows;
    assert s.rows[id].answers.Keys == s.saved[id];
    RepliesListUnsaved(s.rows[id], s.now);
  }

  lemma RepliesListUnsaved(row: Session, now: int)
    requires ValidPrefix(row.answers) && LiveSession(row, now)
    ensures var reply := CompleteChecks(row, now);
            && (reply.CompleteAccepted? <==> row.answers.Keys == {1, 2, 3})
            && (!reply.CompleteAccepted? ==>
                  reply.CompleteRefused? &&
                  forall step | 1 <= step <= 3 :: step in reply.missing <==> step !in row.answers)
  {
    CompleteExactlyWhenAllAnswered(row.answers);
    if row.answers.Keys != {1, 2, 3} {
      MissingAreUnanswered(row.answers);
    }
  }

  lemma MissingAreUnanswered(answers: Answers)
    requires ValidPrefix(answers) && answers.Keys != {1, 2, 3}
    ensures var missing := if 2 in answers then [3] else if 1 in answers then [2, 3] else [1, 2, 3];
            forall step | 1 <= step <= 3 :: step in missing <==> step !in answers
  {
    AnsweredStepsArePrefix(answers);
    assert 3 in answers ==> answers.Keys == {1, 2, 3};
  }

  /** A completed session holds an answer to every step. */
  lemma CompletedHasAllAnswers(now: int, acts: seq<Action>, id: nat)
    requires LosesNothingRun(Initial(now), acts) && id < |Run(Initial(now), acts).rows|
    requires Run(Initial(now), acts).rows[id].status.Completed?
    ensures Run(Initial(now), acts).rows[id].answers.Keys == {1, 2, 3}
  {
    RunKeepsInv(Initial(now), acts);
    AnswersKeptExactlyWhenNothingIsLost(Initial(now), acts);
  }

  // ----- what a stale save breaks -----

  /** A validated answer for each step. */
  predicate ValidTriple(a: Answers) {
    a.Keys == {1, 2, 3} && ValidPrefix(a)
  }

  lemma ValidTripleExists() returns (a: Answers)
    ensures ValidTriple(a)
  {
    var first := Obj(map["business_description" := Str("shoes")]);
    var second := SomeTaggedAnswer("walkers");
    var third := SomeChannelAnswer();
    assert ValidStep1(first);
    a := map[1 := first, 2 := second, 3 := third];
  }

  lemma SomeTaggedAnswer(tag: string) returns (answer: Json)
    ensures ValidStep2(answer)
  {
    var tags := Obj(map["type" := Arr([Str(tag)])]);
    assert tags.Get("location") == None && tags.Get("wants") == None;
    answer := Obj(map["customer_tags" := tags]);
  }

  lemma SomeChannelAnswer() returns (answer: Json)
    ensures ValidStep3(answer)
  {
    answer := Obj(map["discovery_channel" := Arr([Str("TikTok")])]);
  }

  function FirstAnswers(a: Answers, k: nat): Answers {
    map step | step in a && step <= k :: a[step]
  }

  /** The session after the saves of steps 1 to k. */
  function Row(a: Answers, k: nat): Session
  {
    Session(InProgress, |FirstAnswers(a, k)|, FirstAnswers(a, k), 0)
  }

  lemma RowGrows(a: Answers, step: nat)
    requires ValidTriple(a) && 1 <= step <= 3
    ensures SaveChecks(Row(a, step - 1), 0, step, a[step]).Saved?
    ensures WithAnswer(Row(a, step - 1), step, a[step]) == Row(a, step)
  {
    var before := FirstAnswers(a, step - 1);
    assert ValidPrefix(before);
    ValidatedPassesChecks(before);
    assert before[step := a[step]] == FirstAnswers(a, step);
  }

  function Steps(k: nat): set<nat> {
    if k == 0 then {} else Steps(k - 1) + {k}
  }

  lemma RunTwo(s: State, a: Action, b: Action)
    ensures Run(s, [a, b]) == Step(Step(s, a), b)
  {
    assert [a, b][1..] == [b] && Run(Step(s, a), [b]) == Step(Step(s, a), b);
  }

  /** One session and nothing under way but the saves of other requests. */
  predicate Holds(s: State, row: Session) {
    s.rows == [row] && |s.saved| == 1 && s.now == 0 && 0 !in s.saves && s.starts == map[0 := 0] && s.holder.None?
    && s.completes == map[]
  }

  predicate SavedUpTo(s: State, t: State, a: Answers, k: nat) {
    a.Keys == {1, 2, 3} && k <= 3 && |s.saved| == 1
    && Holds(t, Row(a, k)) && t.saves == s.saves && t.saved[0] == s.saved[0] + Steps(k)
  }

  lemma {:induction false} SavesGoThrough(s: State, a: Answers, k: nat) returns (acts: seq<Action>)
    requires ValidTriple(a) && k <= 3 && Holds(s, Row(a, 0))
    ensures SavedUpTo(s, Run(s, acts), a, k)
  {
    acts := [];
    if k == 0 {
      NoSaves(s, a);
    } else {
      acts := SavesGoThrough(s, a, k - 1);
      acts := OneMoreSave(s, acts, a, k);
    }
  }

  lemma NoSaves(s: State, a: Answers)
    requires ValidTriple(a) && Holds(s, Row(a, 0))
    ensures SavedUpTo(s, Run(s, []), a, 0)
  {
  }

  lemma OneMoreSave(s: State, acts: seq<Action>, a: Answers, step: nat) returns (more: seq<Action>)
    requires ValidTriple(a) && 1 <= step <= 3 && SavedUpTo(s, Run(s, acts), a, step - 1)
    ensures SavedUpTo(s, Run(s, more), a, step)
  {
    more := acts + [ALoadSave(0, 0, step, a[step]), AWriteSave(0)];
    var t := Run(s, acts);
    RunAppend(s, acts, [ALoadSave(0, 0, step, a[step]), AWriteSave(0)]);
    RowGrows(a, step);
    RunTwo(t, ALoadSave(0, 0, step, a[step]), AWriteSave(0));
    var u := LoadSave(t, 0, 0, step, a[step]);
    assert u == t.(saves := t.saves[0 := Save(0, Row(a, step - 1), step, a[step])]);
    assert u.saves - {0} == t.saves;
    assert s.saved[0] + Steps(step - 1) + {step} == s.saved[0] + Steps(step);
  }

  const OPENING := [AReadClock(0), AFind(0)] + [AInsert]

  lemma OpeningCreatesSession(a: Answers)
    requires ValidTriple(a)
    ensures Run(Initial(0), OPENING) == State([Row(a, 0)], [{}], 0, map[0 := 0], None, map[], map[])
  {
    RunTwo(Initial(0), AReadClock(0), AFind(0));
    RunAppend(Initial(0), [AReadClock(0), AFind(0)], [AInsert]);
    var s := State([], [], 0, map[0 := 0], Some(0), map[], map[]);
    assert Run(s, [AInsert]) == Insert(s);
    assert FirstAnswers(a, 0) == map[];
  }

  predicate Loaded(s: State, a: Answers, k: nat) {
    1 in a && Holds(s, Row(a, 3)) && s.saves == map[1 := Save(0, Row(a, k), 1, a[1])] && s.saved == [{1, 2, 3}]
  }

  /** The session opened, request 1 loading it, then all three steps saved by others. */
  lemma EarlyLoad(a: Answers) returns (acts: seq<Action>)
    requires ValidTriple(a)
    ensures Loaded(Run(Initial(0), acts), a, 0)
  {
    OpeningCreatesSession(a);
    var s := Run(Initial(0), OPENING);
    var load := [ALoadSave(1, 0, 1, a[1])];
    LoadIsAccepted(s, a, 0);
    RunAppend(Initial(0), OPENING, load);
    acts := OPENING + load;
    var saves := SavesGoThrough(Run(Initial(0), acts), a, 3);
    RunAppend(Initial(0), acts, saves);
    acts := acts + saves;
    ThreeSteps();
  }

  /** The same with the load after the three saves. */
  lemma LateLoad(a: Answers) returns (acts: seq<Action>)
    requires ValidTriple(a)
    ensures Loaded(Run(Initial(0), acts), a, 3)
  {
    OpeningCreatesSession(a);
    var saves := SavesGoThrough(Run(Initial(0), OPENING), a, 3);
    RunAppend(Initial(0), OPENING, saves);
    acts := OPENING + saves;
    LoadIsAccepted(Run(Initial(0), acts), a, 3);
    var load := [ALoadSave(1, 0, 1, a[1])];
    RunAppend(Initial(0), acts, load);
    acts := acts + load;
    ThreeSteps();
  }

  lemma ThreeSteps()
    ensures Steps(3) == {1, 2, 3}
  {
    assert Steps(1) == {1} && Steps(2) == {1, 2};
  }

  lemma LoadIsAccepted(s: State, a: Answers, k: nat)
    requires ValidTriple(a) && k <= 3 && Holds(s, Row(a, k))
    ensures Run(s, [ALoadSave(1, 0, 1, a[1])]) == s.(saves := s.saves[1 := Save(0, Row(a, k), 1, a[1])])
  {
    assert ValidAnswer(1, a[1]);
    assert SaveChecks(Row(a, k), 0, 1, a[1]).Saved?;
    assert Run(s, [ALoadSave(1, 0, 1, a[1])]) == LoadSave(s, 1, 0, 1, a[1]);
  }

  /** All three saves run between another save's load and its write: every step was saved with
      success, and the session is still refused as incomplete. */
  lemma StaleSaveLosesAnswers(a: Answers)
    requires ValidTriple(a)
    ensures exists acts :: var s := Run(Initial(0), acts);
              && |s.rows| == 1 && s.saved == [{1, 2, 3}] && CompleteChecks(s.rows[0], s.now).CompleteRefused?
              && !LosesNothingRun(Initial(0), acts)
  {
    var acts := EarlyLoad(a);
    RunAppend(Initial(0), acts, [AWriteSave(1)]);
    EarlyWrite(Run(Initial(0), acts), a);
    RowIsJudged(a, 1);
    OneAnswerIsLeft(a, Run(Initial(0), acts + [AWriteSave(1)]), acts + [AWriteSave(1)]);
  }

  lemma EarlyWrite(s: State, a: Answers)
    requires ValidTriple(a) && Loaded(s, a, 0)
    ensures var t := Run(s, [AWriteSave(1)]);
            t.rows == [Row(a, 1)] && t.saved == [{1, 2, 3}] && t.now == 0
  {
    assert Run(s, [AWriteSave(1)]) == WriteSave(s, 1);
    RowGrows(a, 1);
    assert WriteSave(s, 1).saved[0] == {1, 2, 3};
  }

  lemma OneAnswerIsLeft(a: Answers, t: State, acts: seq<Action>)
    requires ValidTriple(a) && t == Run(Initial(0), acts) && t.rows == [Row(a, 1)] && t.saved == [{1, 2, 3}]
    ensures !LosesNothingRun(Initial(0), acts)
  {
    assert 2 in t.saved[0] && 2 !in t.rows[0].answers;
    assert !Kept(t);
    AnswersKeptExactlyWhenNothingIsLost(Initial(0), acts);
  }

  lemma RowIsJudged(a: Answers, k: nat)
    requires ValidTriple(a) && k <= 3
    ensures CompleteChecks(Row(a, k), 0).CompleteAccepted? <==> k == 3
    ensures k < 3 ==> CompleteChecks(Row(a, k), 0).CompleteRefused?
  {
    var answers := FirstAnswers(a, k);
    assert ValidPrefix(answers);
    assert k == 3 ==> answers.Keys == {1, 2, 3};
    CompleteExactlyWhenAllAnswered(answers);
  }

  /** A save that was loaded before the session was completed writes it back as in progress: after a
      new session was inserted, or between a start's search and its insert, when nothing else is live. */
  lemma StaleSaveReopensSession(a: Answers, early: bool) returns (acts: seq<Action>)
    requires ValidTriple(a)
    ensures var s := Run(Initial(0), acts); TwoLive(s.rows, s.now)
    ensures !HarmlessRun(Initial(0), acts)
  {
    acts := LateLoad(a);
    var s := Run(Initial(0), acts);
    CompletionGoesThrough(s, a);
    RunAppend(Initial(0), acts, COMPLETION);
    acts := acts + COMPLETION;
    var ending := if early then [AWriteSave(1)] + [AInsert] else [AInsert] + [AWriteSave(1)];
    SearchGoesThrough(Run(Initial(0), acts), a);
    RunAppend(Initial(0), acts, SEARCH);
    acts := acts + SEARCH;
    BothOrders(Run(Initial(0), acts), a, early);
    RunAppend(Initial(0), acts, ending);
    acts := acts + ending;
    OneLiveExactlyOnHarmlessRuns(Initial(0), acts);
  }

  const COMPLETION := [ALoadComplete(0, 0), AWriteComplete(0)]
  const SEARCH := [AReadClock(1), AFind(1)]

  lemma CompletionGoesThrough(s: State, a: Answers)
    requires ValidTriple(a) && Loaded(s, a, 3)
    ensures Run(s, COMPLETION) == s.(rows := [Row(a, 3).(status := Completed)])
  {
    RowIsJudged(a, 3);
    RunTwo(s, ALoadComplete(0, 0), AWriteComplete(0));
    assert LoadComplete(s, 0, 0) == s.(completes := map[0 := 0]);
  }

  /** The session is completed and a start of request 1 has found nothing. */
  predicate Searched(s: State, a: Answers) {
    && 1 in a && s.rows == [Row(a, 3).(status := Completed)] && |s.saved| == 1 && s.now == 0
    && s.holder == Some(1) && 1 in s.starts && s.starts[1] == 0
    && 1 in s.saves && s.saves[1] == Save(0, Row(a, 3), 1, a[1])
  }

  lemma SearchGoesThrough(s: State, a: Answers)
    requires s.rows == [Row(a, 3).(status := Completed)] && |s.saved| == 1 && s.now == 0 && 1 in a
    requires 1 !in s.starts && s.holder.None? && 1 in s.saves && s.saves[1] == Save(0, Row(a, 3), 1, a[1])
    ensures Searched(Run(s, SEARCH), a)
  {
    RunTwo(s, AReadClock(1), AFind(1));
    var t := s.(starts := s.starts[1 := 0]);
    assert Find(t, 1) == t.(holder := Some(1));
  }

  lemma BothOrders(s: State, a: Answers, early: bool)
    requires Searched(s, a)
    ensures var t := Run(s, if early then [AWriteSave(1)] + [AInsert] else [AInsert] + [AWriteSave(1)]);
            TwoLive(t.rows, t.now)
  {
    var row := WithAnswer(Row(a, 3), 1, a[1]);
    TwoRowsAreTwoLive(row, Fresh(0));
    assert LiveSession(row, 0) && LiveSession(Fresh(0), 0);
    if early {
      RunAppend(s, [AWriteSave(1)], [AInsert]);
      RunSingle(s, AWriteSave(1));
      RunSingle(WriteSave(s, 1), AInsert);
      assert Insert(WriteSave(s, 1)).rows == [row, Fresh(0)];
    } else {
      RunAppend(s, [AInsert], [AWriteSave(1)]);
      RunSingle(s, AInsert);
      RunSingle(Insert(s), AWriteSave(1));
      assert WriteSave(Insert(s), 1).rows == [row, Fresh(0)];
    }
  }

  lemma TwoRowsAreTwoLive(a: Session, b: Session)
    requires a.status.InProgress? && b.status.InProgress? && a.at == 0 && b.at == 0
    ensures TwoLive([a, b], 0)
  {
    var rows := [a, b];
    assert LiveSession(rows[0], 0) && LiveSession(rows[1], 0);
  }

  lemma RunSingle(s: State, a: Action)
    ensures Run(s, [a]) == Step(s, a)
  {
    assert [a][1..] == [];
  }
}
