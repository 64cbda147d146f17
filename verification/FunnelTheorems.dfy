/** What holds on every run of the funnel protocol, and what some run can reach. */
module FunnelTheorems {
  import opened Json
  import opened StageData
  import opened FunnelRows
  import opened FunnelProtocol

  // ----- runs -----

  lemma {:induction false} RunKeepsInv(s: State, acts: seq<Action>)
    requires Inv(s)
    ensures Inv(Run(s, acts))
    decreases |acts|
  {
    if acts != [] {
      StepKeepsInv(s, acts[0]);
      RunKeepsInv(Step(s, acts[0]), acts[1..]);
    }
  }

  lemma {:induction false} RunAppend(s: State, a: seq<Action>, b: seq<Action>)
    ensures Run(s, a + b) == Run(Run(s, a), b)
    decreases |a|
  {
    if a == [] {
      assert a + b == b;
    } else {
      assert (a + b)[1..] == a[1..] + b;
      RunAppend(Step(s, a[0]), a[1..], b);
    }
  }

  lemma RunOne(s: State, acts: seq<Action>, a: Action)
    ensures Run(s, acts + [a]) == Step(Run(s, acts), a)
  {
    RunAppend(s, acts, [a]);
  }

  /** Every state of the system, whatever the interleaving. */
  ghost predicate Reachable(s: State) {
    exists user, max, acts :: s == Run(Initial(user, max), acts)
  }

  lemma ReachableInv(s: State)
    requires Reachable(s)
    ensures Inv(s)
  {
    var user, max, acts :| s == Run(Initial(user, max), acts);
    RunKeepsInv(Initial(user, max), acts);
  }

  // ----- safety -----

  /** Stages hold tasks exactly when the funnel is ACTIVE, and then every stage has at least two. */
  lemma TasksExactlyWhenActive(s: State)
    requires Reachable(s) && s.row.Present?
    ensures s.row.f.status.Active? <==> exists st | st in s.row.f.stages :: st.tasks != []
    ensures s.row.f.status.Active? ==> forall st | st in s.row.f.stages :: |st.tasks| >= TASKS_MIN
  {
    ReachableInv(s);
    assert s.row.f.stages[0] in s.row.f.stages;
  }

  /** Over all retries the task batch is committed at most once, and announced at most once. */
  lemma BatchInsertedAtMostOnce(s: State)
    requires Reachable(s)
    ensures s.inserts <= 1 && s.generatedEvents <= s.inserts
    ensures s.row.Present? ==> (s.inserts == 1 <==> s.row.f.status.Active?)
  {
    ReachableInv(s);
  }

  predicate StaysActive(s: State, t: State) {
    s.row.Present? && t.row.Present? && t.row.f.status.Active? && t.row.f.user == s.row.f.user
  }

  lemma WorkerLeavesActive(s: State, a: Action)
    requires Inv(s) && s.row.Present? && s.row.f.status.Active? && OnWorker(a)
    ensures StaysActive(s, Step(s, a))
  {
  }

  lemma RequestLeavesActive(s: State, a: Action)
    requires Inv(s) && s.row.Present? && s.row.f.status.Active? && OnRequest(a)
    ensures StaysActive(s, Step(s, a))
  {
    if a.ACommitCompletion? && a.r in s.reqs && s.reqs[a.r].Unlocked? {
      assert RequestInv(s, s.reqs[a.r]);
    }
  }

  predicate OnRequest(a: Action) {
    a.AAsk? || a.AReadFunnel? || a.AReadStage? || a.ACountTasks? || a.AAbortRequest?
    || a.AMarkComplete? || a.AUnlockNext? || a.ACommitCompletion? || a.APublishCompleted?
  }

  /** An ACTIVE funnel stays ACTIVE through every action except a delete that leaves the user
      another ACTIVE funnel. */
  lemma ActiveLeftOnlyByDeletion(s: State, a: Action)
    requires Reachable(s) && s.row.Present? && s.row.f.status.Active?
    ensures var t := Step(s, a);
            || (t.row.Present? && t.row.f.status.Active? && t.row.f.user == s.row.f.user)
            || (t.row.Absent? && a.AFinishDelete? && a.othersActive > 0 && s.deleting)
  {
    ReachableInv(s);
    if OnWorker(a) {
      WorkerLeavesActive(s, a);
    } else if OnRequest(a) {
      RequestLeavesActive(s, a);
    }
  }

  /** By position the stages read COMPLETE^k, one current stage if k < 4, then LOCKED, and k is the
      number of committed completions, which happened in the order 1, 2, .., k. */
  lemma StagesReadAsPrefix(s: State)
    requires Reachable(s) && s.row.Present?
    ensures |s.row.f.stages| == STAGE_COUNT && |s.log| <= STAGE_COUNT
    ensures StagesRead(s.row.f.stages, |s.log|)
    ensures s.log == seq(|s.log|, i => i + 1)
  {
    ReachableInv(s);
  }

  /** Nobody checks the affected-row count of activateStageIfLocked: it is 1 exactly when a next
      stage exists. */
  lemma UncheckedUnlockAffectsOneRow(s: State, r: nat)
    requires Reachable(s) && r in s.reqs && s.reqs[r].Unlocked?
    ensures s.row.Present?
    ensures s.reqs[r].affected == (if HasStage(s.row.f, s.reqs[r].p + 1) then 1 else 0)
  {
    ReachableInv(s);
    assert RequestInv(s, s.reqs[r]);
  }

  /** Only one completion can be between its first UPDATE and its commit. */
  lemma OneCompletionInTransaction(s: State, r: nat, t: nat)
    requires Reachable(s) && r in s.reqs && t in s.reqs
    requires InTransaction(s.reqs[r]) && InTransaction(s.reqs[t])
    ensures r == t
  {
    ReachableInv(s);
  }

  /** The "stage has no tasks" reply is given exactly when the funnel was deleted after the stage was read. */
  lemma NoTasksReplyExactlyAfterDeletion(s: State, r: nat)
    requires Reachable(s) && r in s.reqs && s.reqs[r].StageSeen?
    ensures CountTasks(s, r).reqs[r] == Answered(StageHasNoTasks) <==> s.row.Absent?
  {
    ReachableInv(s);
    assert RequestInv(s, s.reqs[r]);
    if s.row.Present? {
      assert StageAt(s.row.f, s.reqs[r].p) in s.row.f.stages;
    }
  }

  /** Losing the race for a stage is answered 409 only when the funnel is gone, otherwise 200. */
  lemma ConflictReplyExactlyAfterDeletion(s: State, r: nat, at: int)
    requires Reachable(s) && r in s.reqs && s.reqs[r].TasksSeen?
    ensures MarkComplete(s, r, at).reqs[r] == Answered(ConcurrentUpdate) <==> s.row.Absent?
  {
    ReachableInv(s);
    assert RequestInv(s, s.reqs[r]);
    if s.row.Present? {
      assert StageReads(s.row.f.stages, s.reqs[r].p - 1, |s.log|);
    }
  }

  /** FAILED is not terminal, but only the generation commit or a delete leaves it. */
  lemma FailedLeftOnlyByGenerationOrDelete(s: State, a: Action)
    requires Reachable(s) && s.row.Present? && s.row.f.status.Failed?
    ensures var t := Step(s, a);
            || (t.row.Present? && t.row.f.status.Failed?)
            || (t.row.Present? && t.row.f.status.Active? && a.ACommitWrite? && s.worker.Flipped?)
            || (t.row.Absent? && a.AFinishDelete?)
  {
    ReachableInv(s);
    forall r | r in s.reqs
      ensures !InTransaction(s.reqs[r])
    {
      assert RequestInv(s, s.reqs[r]);
    }
  }

  // ----- STAGE_COMPLETED events -----

  /** Each stage is announced at most once, and only after its completion was committed. */
  lemma EventsAreCommittedAndUnique(s: State)
    requires Reachable(s)
    ensures NoRepeats(s.completedEvents)
    ensures forall p | p in s.completedEvents :: p in s.log
  {
    ReachableInv(s);
    forall p | p in s.completedEvents
      ensures p in s.log
    {
      assert s.log[p - 1] == p;
    }
  }

  predicate Publishes(s: State, a: Action) {
    a.APublishCompleted? && a.r in s.reqs && s.reqs[a.r].Committed?
  }

  /** An event is sent only when those of all earlier stages are out. */
  predicate OldestFirst(s: State, a: Action) {
    Publishes(s, a) ==> forall p | 1 <= p < s.reqs[a.r].p :: p in s.completedEvents
  }

  predicate OldestRun(s: State, acts: seq<Action>)
    decreases |acts|
  {
    acts != [] ==> OldestFirst(s, acts[0]) && OldestRun(Step(s, acts[0]), acts[1..])
  }

  lemma OtherActionsKeepEvents(s: State, a: Action)
    requires !Publishes(s, a)
    ensures Step(s, a).completedEvents == s.completedEvents
  {
  }

  lemma EventsOnlyGrow(s: State, a: Action)
    ensures s.completedEvents <= Step(s, a).completedEvents
  {
    if !Publishes(s, a) {
      OtherActionsKeepEvents(s, a);
    }
  }

  lemma {:induction false} RunEventsOnlyGrow(s: State, acts: seq<Action>)
    ensures s.completedEvents <= Run(s, acts).completedEvents
    decreases |acts|
  {
    if acts != [] {
      EventsOnlyGrow(s, acts[0]);
      RunEventsOnlyGrow(Step(s, acts[0]), acts[1..]);
    }
  }

  lemma PublishKeepsOrderExactlyForOldest(s: State, a: Action)
    requires Inv(s) && OneTo(s.completedEvents)
    ensures OneTo(Step(s, a).completedEvents) <==> OldestFirst(s, a)
  {
    if Publishes(s, a) {
      var events, p := s.completedEvents, s.reqs[a.r].p;
      assert RequestInv(s, s.reqs[a.r]);
      var t := Step(s, a);
      assert t.completedEvents == events + [p];
      if OneTo(t.completedEvents) {
        assert t.completedEvents[|events|] == |events| + 1;
        forall q | 1 <= q < p
          ensures q in events
        {
          assert events[q - 1] == q;
        }
      } else if OldestFirst(s, a) {
        OldestIsNext(events, p);
      }
    } else {
      OtherActionsKeepEvents(s, a);
    }
  }

  lemma OldestIsNext(events: seq<int>, p: int)
    requires OneTo(events) && p >= 1 && p !in events && forall q | 1 <= q < p :: q in events
    ensures p == |events| + 1 && OneTo(events + [p])
  {
    InOneTo(events, p);
    InOneTo(events, |events| + 1);
  }

  lemma InOneTo(events: seq<int>, p: int)
    requires OneTo(events) && p >= 1
    ensures p in events <==> p <= |events|
  {
    if p <= |events| {
      assert events[p - 1] == p;
    }
  }

  /** STAGE_COMPLETED events follow their commits as separate steps. Over any run from a state whose
      events are 1, 2, .. they stay 1, 2, .. exactly when each is sent after those of all earlier stages. */
  lemma {:induction false} EventsInOrderExactlyForOldestRuns(s: State, acts: seq<Action>)
    requires Inv(s) && OneTo(s.completedEvents)
    ensures OneTo(Run(s, acts).completedEvents) <==> OldestRun(s, acts)
    decreases |acts|
  {
    if acts != [] {
      var t := Step(s, acts[0]);
      StepKeepsInv(s, acts[0]);
      PublishKeepsOrderExactlyForOldest(s, acts[0]);
      if OldestFirst(s, acts[0]) {
        EventsInOrderExactlyForOldestRuns(t, acts[1..]);
      } else {
        RunEventsOnlyGrow(t, acts[1..]);
        PrefixOfOneTo(t.completedEvents, Run(t, acts[1..]).completedEvents);
      }
    }
  }

  lemma PrefixOfOneTo(events: seq<int>, more: seq<int>)
    requires events <= more
    ensures OneTo(more) ==> OneTo(events)
  {
    assert forall i | 0 <= i < |events| :: events[i] == more[i];
  }

  /** A completion whose event nobody is left to send: its request died after the commit. */
  ghost predicate EventLost(s: State, p: int) {
    1 <= p <= |s.log| && p !in s.completedEvents && forall r | r in s.reqs :: s.reqs[r] != Committed(p)
  }

  lemma StepKeepsEventLost(s: State, a: Action, p: int)
    requires Inv(s) && EventLost(s, p)
    ensures EventLost(Step(s, a), p)
  {
    var t := Step(s, a);
    if Publishes(s, a) {
      assert t.completedEvents == s.completedEvents + [s.reqs[a.r].p];
    } else {
      OtherActionsKeepEvents(s, a);
    }
    if a.ACommitCompletion? {
      if a.r in s.reqs {
        assert RequestInv(s, s.reqs[a.r]);
      }
    } else {
      OnlyCommitsCommit(s, a);
    }
  }

  lemma OnlyCommitsCommit(s: State, a: Action)
    requires !a.ACommitCompletion?
    ensures Step(s, a).log == s.log
    ensures forall r | r in Step(s, a).reqs && Step(s, a).reqs[r].Committed? ::
              r in s.reqs && s.reqs[r] == Step(s, a).reqs[r]
  {
    if OnWorker(a) {
      WorkerLeavesRequests(s, a);
    } else if OnRequest(a) {
      RequestCommitsNothing(s, a);
    }
  }

  lemma WorkerLeavesRequests(s: State, a: Action)
    requires OnWorker(a)
    ensures Step(s, a).log == s.log && Step(s, a).reqs == s.reqs
  {
  }

  lemma RequestCommitsNothing(s: State, a: Action)
    requires OnRequest(a) && !a.ACommitCompletion?
    ensures Step(s, a).log == s.log
    ensures forall r | r in Step(s, a).reqs && Step(s, a).reqs[r].Committed? ::
              r in s.reqs && s.reqs[r] == Step(s, a).reqs[r]
  {
    if a.AMarkComplete? || a.AUnlockNext? || a.APublishCompleted? {
      WriteCommitsNothing(s, a);
    }
  }

  lemma WriteCommitsNothing(s: State, a: Action)
    requires a.AMarkComplete? || a.AUnlockNext? || a.APublishCompleted?
    ensures Step(s, a).log == s.log
    ensures forall r | r in Step(s, a).reqs && Step(s, a).reqs[r].Committed? ::
              r in s.reqs && s.reqs[r] == Step(s, a).reqs[r]
  {
  }

  lemma AbortLosesEvent(s: State, r: nat)
    requires Inv(s) && r in s.reqs && s.reqs[r].Committed?
    ensures EventLost(Step(s, AAbortRequest(r)), s.reqs[r].p)
  {
    assert RequestInv(s, s.reqs[r]);
    assert Step(s, AAbortRequest(r)) == Put(s, r, Answered(Aborted));
  }

  /** A lost event stays lost, so from then on the events of later stages are out of order. */
  lemma {:induction false} LostEventBreaksOrder(s: State, acts: seq<Action>, p: int)
    requires Inv(s) && EventLost(s, p)
    ensures p !in Run(s, acts).completedEvents
    ensures OneTo(Run(s, acts).completedEvents) ==> |Run(s, acts).completedEvents| < p
    decreases |acts|
  {
    if acts != [] {
      StepKeepsInv(s, acts[0]);
      StepKeepsEventLost(s, acts[0], p);
      LostEventBreaksOrder(Step(s, acts[0]), acts[1..], p);
    } else if OneTo(s.completedEvents) {
      InOneTo(s.completedEvents, p);
    }
  }

  // ----- progress -----

  lemma FreshRequest(used: set<nat>) returns (r: nat)
    ensures r !in used
  {
    r := 0;
    var rest := used;
    while rest != {}
      invariant rest <= used && forall y :: y in used && y !in rest ==> y < r
      decreases rest
    {
      var x :| x in rest;
      rest := rest - {x};
      r := if x < r then r else x + 1;
    }
  }

  /** An ACTIVE funnel with k completed stages. */
  predicate ActiveWith(s: State, k: nat) {
    Inv(s) && s.row.Present? && s.row.f.status.Active? && |s.log| == k
  }

  /** Ticking one task of the current stage. */
  lemma TickOne(s: State, k: nat, i: nat) returns (acts: seq<Action>, t: State)
    requires ActiveWith(s, k) && k < STAGE_COUNT && i < |s.row.f.stages[k].tasks|
    ensures t == Run(s, acts) && ActiveWith(t, k)
    ensures var tasks := s.row.f.stages[k].tasks; t.row.f.stages[k].tasks == tasks[i := tasks[i].(complete := true)]
    ensures t.reqs == s.reqs && t.completedEvents == s.completedEvents && t.row.f.user == s.row.f.user
  {
    acts := [AAllowTick(k + 1, i, true), AWriteTick(k + 1, i, true)];
    t := Step(Step(s, acts[0]), acts[1]);
    assert Run(s, acts) == t by {
      RunOne(s, [acts[0]], acts[1]);
      RunOne(s, [], acts[0]);
      assert acts == [acts[0]] + [acts[1]];
    }
    assert StageReads(s.row.f.stages, k, k);
    StepKeepsInv(s, acts[0]);
    StepKeepsInv(Step(s, acts[0]), acts[1]);
  }

  /** Ticking the tasks of the current stage one by one. */
  lemma {:induction false} TickFrom(s: State, k: nat, i: nat) returns (acts: seq<Action>)
    requires ActiveWith(s, k) && k < STAGE_COUNT
    requires i <= |s.row.f.stages[k].tasks| && AllDone(s.row.f.stages[k].tasks[..i])
    ensures ActiveWith(Run(s, acts), k) && AllDone(Run(s, acts).row.f.stages[k].tasks)
    ensures Run(s, acts).reqs == s.reqs && Run(s, acts).completedEvents == s.completedEvents
    ensures Run(s, acts).row.f.user == s.row.f.user
    decreases |s.row.f.stages[k].tasks| - i
  {
    var tasks := s.row.f.stages[k].tasks;
    if i == |tasks| {
      assert tasks[..i] == tasks;
      return [];
    }
    var first, t := TickOne(s, k, i);
    assert t.row.f.stages[k].tasks[..i + 1] == tasks[..i] + [tasks[i].(complete := true)];
    var rest := TickFrom(t, k, i + 1);
    RunAppend(s, first, rest);
    acts := first + rest;
  }

  lemma NoRequestInTransaction(s: State)
    requires Inv(s) && forall q | q in s.reqs :: !InTransaction(s.reqs[q])
    requires s.inserts == 1
    ensures forall r: nat, p :: StageFree(s, r, p)
  {
  }

  /** A fresh request passes its three reads: first the funnel's, then the stage's and the tasks'. */
  lemma FunnelReadGoesThrough(s: State, r: nat, p: int)
    requires s.row.Present? && s.row.f.status.Active? && r !in s.reqs
    ensures Run(s, [AAsk(r, s.row.f.user, p), AReadFunnel(r)]) == Put(s, r, FunnelSeen(p))
  {
    var first := AAsk(r, s.row.f.user, p);
    RunOne(s, [], first);
    RunOne(s, [first], AReadFunnel(r));
    assert [first] + [AReadFunnel(r)] == [first, AReadFunnel(r)];
    assert Ask(s, r, s.row.f.user, p) == Put(s, r, Asked(s.row.f.user, p));
  }

  lemma StageReadsGoThrough(s: State, r: nat, p: int)
    requires s.row.Present? && r in s.reqs && s.reqs[r] == FunnelSeen(p)
    requires HasStage(s.row.f, p) && StageAt(s.row.f, p).status.Current?
    requires AllDone(StageAt(s.row.f, p).tasks) && StageAt(s.row.f, p).tasks != []
    ensures Run(s, [AReadStage(r), ACountTasks(r)]) == Put(s, r, TasksSeen(p))
  {
    NothingPendingMeansAllDone(StageAt(s.row.f, p).tasks);
    RunOne(s, [], AReadStage(r));
    RunOne(s, [AReadStage(r)], ACountTasks(r));
    assert [AReadStage(r)] + [ACountTasks(r)] == [AReadStage(r), ACountTasks(r)];
    assert ReadStage(s, r) == Put(s, r, StageSeen(p));
  }

  lemma CommitGoesThrough(s: State, k: nat, r: nat)
    requires ActiveWith(s, k) && k < STAGE_COUNT && r in s.reqs && s.reqs[r].Unlocked?
    ensures ActiveWith(Step(s, ACommitCompletion(r)), k + 1)
    ensures Step(s, ACommitCompletion(r)).reqs == s.reqs[r := Committed(k + 1)]
  {
    assert RequestInv(s, s.reqs[r]);
    StepKeepsInv(s, ACommitCompletion(r));
  }

  lemma UnlockGoesThrough(s: State, k: nat, r: nat)
    requires ActiveWith(s, k) && k < STAGE_COUNT && r in s.reqs && s.reqs[r].Marked?
    ensures ActiveWith(Step(s, AUnlockNext(r)), k)
    ensures exists q: Request :: q.Unlocked? && Step(s, AUnlockNext(r)) == Put(s, r, q)
  {
    assert RequestInv(s, s.reqs[r]);
    StepKeepsInv(s, AUnlockNext(r));
    forall q | q in s.reqs && q != r
      ensures !Holds(s.reqs[q], k + 2)
    {
      assert !InTransaction(s.reqs[q]);
    }
    assert StageFree(s, r, k + 2);
    var t := Step(s, AUnlockNext(r));
    assert t.reqs[r].Unlocked? && t == Put(s, r, t.reqs[r]);
  }

  lemma MarkGoesThrough(s: State, k: nat, r: nat, at: int)
    requires ActiveWith(s, k) && k < STAGE_COUNT && r in s.reqs && s.reqs[r] == TasksSeen(k + 1)
    requires forall q | q in s.reqs :: !InTransaction(s.reqs[q])
    ensures ActiveWith(Step(s, AMarkComplete(r, at)), k)
    ensures Step(s, AMarkComplete(r, at)) == Put(s, r, Marked(k + 1, at))
  {
    assert StageReads(s.row.f.stages, k, k);
    NoRequestInTransaction(s);
    assert StageFree(s, r, k + 1);
    StepKeepsInv(s, AMarkComplete(r, at));
  }

  /** From its task count, or from anywhere inside its transaction, a request can go on to commit. */
  lemma FinishRequest(s: State, k: nat, r: nat, at: int) returns (acts: seq<Action>)
    requires ActiveWith(s, k) && k < STAGE_COUNT && r in s.reqs
    requires InTransaction(s.reqs[r]) ||
             (s.reqs[r] == TasksSeen(k + 1) && forall q | q in s.reqs :: !InTransaction(s.reqs[q]))
    ensures ActiveWith(Run(s, acts), k + 1) && Run(s, acts).reqs == s.reqs[r := Committed(k + 1)]
    ensures Run(s, acts).completedEvents == s.completedEvents
    decreases if s.reqs[r].TasksSeen? then 2 else if s.reqs[r].Marked? then 1 else 0
  {
    if s.reqs[r].Unlocked? {
      CommitGoesThrough(s, k, r);
      RunOne(s, [], ACommitCompletion(r));
      return [ACommitCompletion(r)];
    }
    var a := if s.reqs[r].Marked? then AUnlockNext(r) else AMarkComplete(r, at);
    if s.reqs[r].Marked? {
      UnlockGoesThrough(s, k, r);
    } else {
      MarkGoesThrough(s, k, r, at);
    }
    var t := Step(s, a);
    RunOne(s, [], a);
    var rest := FinishRequest(t, k, r, at);
    RunAppend(s, [a], rest);
    acts := [a] + rest;
    assert t.reqs[r := Committed(k + 1)] == s.reqs[r := Committed(k + 1)];
  }

  lemma ReadsGoThrough(s: State, r: nat, p: int) returns (acts: seq<Action>)
    requires s.row.Present? && s.row.f.status.Active? && r !in s.reqs
    requires HasStage(s.row.f, p) && StageAt(s.row.f, p).status.Current?
    requires AllDone(StageAt(s.row.f, p).tasks) && StageAt(s.row.f, p).tasks != []
    ensures Run(s, acts) == Put(s, r, TasksSeen(p))
  {
    var funnelReads := [AAsk(r, s.row.f.user, p), AReadFunnel(r)];
    var stageReads := [AReadStage(r), ACountTasks(r)];
    FunnelReadGoesThrough(s, r, p);
    StageReadsGoThrough(Put(s, r, FunnelSeen(p)), r, p);
    RunAppend(s, funnelReads, stageReads);
    acts := funnelReads + stageReads;
  }

  /** A fresh request walks from its first read to its commit, with nothing in its way. */
  lemma WalkRequest(s: State, k: nat, r: nat, at: int) returns (acts: seq<Action>)
    requires ActiveWith(s, k) && k < STAGE_COUNT && r !in s.reqs
    requires AllDone(s.row.f.stages[k].tasks) && forall q | q in s.reqs :: !InTransaction(s.reqs[q])
    ensures ActiveWith(Run(s, acts), k + 1) && Run(s, acts).reqs == s.reqs[r := Committed(k + 1)]
    ensures Run(s, acts).completedEvents == s.completedEvents
  {
    assert StageReads(s.row.f.stages, k, k);
    assert s.row.f.stages[k] in s.row.f.stages;
    var t := Put(s, r, TasksSeen(k + 1));
    var opening := ReadsGoThrough(s, r, k + 1);
    RunKeepsInv(s, opening);
    var rest := FinishRequest(t, k, r, at);
    RunAppend(s, opening, rest);
    acts := opening + rest;
    assert t.reqs[r := Committed(k + 1)] == s.reqs[r := Committed(k + 1)];
  }

  /** From an ACTIVE funnel with k < 4 completed stages a finite run completes stage k + 1. */
  lemma CompleteNextStage(s: State, k: nat) returns (acts: seq<Action>, r: nat)
    requires ActiveWith(s, k) && k < STAGE_COUNT
    ensures ActiveWith(Run(s, acts), k + 1) && Run(s, acts).completedEvents == s.completedEvents
    ensures r in Run(s, acts).reqs && Run(s, acts).reqs[r] == Committed(k + 1)
    ensures forall q | q in s.reqs && s.reqs[q].Committed? ::
              q in Run(s, acts).reqs && Run(s, acts).reqs[q] == s.reqs[q]
  {
    if q :| q in s.reqs && InTransaction(s.reqs[q]) {
      r := q;
      acts := FinishRequest(s, k, q, 0);
    } else {
      r := FreshRequest(s.reqs.Keys);
      var ticks := TickFrom(s, k, 0);
      var walk := WalkRequest(Run(s, ticks), k, r, 0);
      RunAppend(s, ticks, walk);
      acts := ticks + walk;
    }
  }

  /** From every reachable ACTIVE funnel some finite run completes all four stages. */
  lemma AllStagesCanBeCompleted(s: State, k: nat) returns (acts: seq<Action>)
    requires ActiveWith(s, k)
    ensures ActiveWith(Run(s, acts), STAGE_COUNT)
    ensures forall st | st in Run(s, acts).row.f.stages :: st.status.Complete?
    decreases STAGE_COUNT - k
  {
    if k == STAGE_COUNT {
      forall i | 0 <= i < |s.row.f.stages|
        ensures s.row.f.stages[i].status.Complete?
      {
        assert StageReads(s.row.f.stages, i, k);
      }
      return [];
    }
    var first, r := CompleteNextStage(s, k);
    var rest := AllStagesCanBeCompleted(Run(s, first), k + 1);
    RunAppend(s, first, rest);
    acts := first + rest;
  }

  lemma ReachableActiveCanFinish(s: State) returns (acts: seq<Action>)
    requires Reachable(s) && s.row.Present? && s.row.f.status.Active?
    ensures Run(s, acts).row.Present?
    ensures forall st | st in Run(s, acts).row.f.stages :: st.status.Complete?
  {
    ReachableInv(s);
    acts := AllStagesCanBeCompleted(s, |s.log|);
  }

  // ----- what some run does -----

  function SampleStage(p: int): StageData {
    StageData(p, "c", "", "", [TaskData("n", "t"), TaskData("n", "t")])
  }

  const SAMPLE: seq<StageData> := [SampleStage(1), SampleStage(2), SampleStage(3), SampleStage(4)]

  /** A sweep can mark a funnel FAILED while its worker is generating; the worker still makes it ACTIVE. */
  lemma ReapedFunnelBecomesActive(user: nat, max: nat) returns (before: seq<Action>, after: seq<Action>)
    ensures Run(Initial(user, max), before).row.Present?
    ensures Run(Initial(user, max), before).row.f.status.Failed?
    ensures ActiveWith(Run(Initial(user, max), before + after), 0)
    ensures Run(Initial(user, max), before + after).reqs == map[]
    ensures Run(Initial(user, max), before + after).completedEvents == []
  {
    var s := Initial(user, max);
    var s4 := SweepMark(SweepFind(StartAttempt(CommitCreation(s, 0))));
    before := [ACommitCreation(0)];
    RunOne(s, [], ACommitCreation(0));
    RunOne(s, before, AStartAttempt);
    before := before + [AStartAttempt];
    RunOne(s, before, ASweepFind);
    before := before + [ASweepFind];
    RunOne(s, before, ASweepMark);
    before := before + [ASweepMark];
    assert Run(s, before) == s4;
    RunKeepsInv(s, before);
    after := GenerationGoesThrough(s4);
    RunAppend(s, before, after);
  }

  /** A prompted worker with no locks in its way reaches its commit, whatever the funnel's status. */
  lemma GenerationGoesThrough(s: State) returns (acts: seq<Action>)
    requires Inv(s) && s.row.Present? && s.worker.Prompted? && !s.deleting && s.reqs == map[]
    ensures ActiveWith(Run(s, acts), 0) && Run(s, acts).reqs == map[]
    ensures Run(s, acts).completedEvents == s.completedEvents
  {
    var data := SAMPLE;
    assert FromSource(data) && DistinctPositions(data);
    acts := WritingIsReached(s, data);
    RunKeepsInv(s, acts);
    var rest := WritesGoThrough(Run(s, acts), data, 0);
    RunAppend(s, acts, rest);
    acts := acts + rest;
  }

  lemma WritingIsReached(s: State, data: seq<StageData>) returns (acts: seq<Action>)
    requires Inv(s) && s.row.Present? && s.worker.Prompted? && FromSource(data) && DistinctPositions(data)
    ensures Run(s, acts) == s.(worker := Writing(data, 0, STAGE_COUNT))
  {
    SourcePassesExactlyWhenDistinct(data);
    acts := [AGenerate(data)];
    RunOne(s, [], AGenerate(data));
    RunOne(s, acts, AOpenWrite);
    acts := acts + [AOpenWrite];
    RunOne(s, acts, AFindStages);
    acts := acts + [AFindStages];
  }

  lemma WritesGoThrough(s: State, data: seq<StageData>, next: nat) returns (acts: seq<Action>)
    requires Inv(s) && s.row.Present? && !s.deleting && s.reqs == map[] && next <= |data|
    requires s.worker == Writing(data, next, STAGE_COUNT)
    requires forall sd | sd in data :: |sd.channel| <= CHANNEL_COLUMN_WIDTH
    ensures ActiveWith(Run(s, acts), 0) && Run(s, acts).reqs == map[]
    ensures Run(s, acts).completedEvents == s.completedEvents
    decreases |data| - next
  {
    if next < |data| {
      var t := WriteNext(s);
      StepKeepsInv(s, AWriteNext);
      assert data[next] in data;
      assert t == s.(worker := Writing(data, next + 1, STAGE_COUNT));
      RunOne(s, [], AWriteNext);
      var rest := WritesGoThrough(t, data, next + 1);
      RunAppend(s, [AWriteNext], rest);
      acts := [AWriteNext] + rest;
    } else {
      acts := [AInsertBatch];
      RunOne(s, [], AInsertBatch);
      RunOne(s, acts, AFlip);
      acts := acts + [AFlip];
      RunOne(s, acts, ACommitWrite);
      acts := acts + [ACommitWrite];
      RunKeepsInv(s, acts);
    }
  }

  /** STAGE_COMPLETED events need not come in stage order: some run announces stage 2 before stage 1. */
  lemma EventsCanBeOutOfOrder(user: nat, max: nat) returns (acts: seq<Action>)
    ensures Run(Initial(user, max), acts).completedEvents == [2, 1]
  {
    var s := Initial(user, max);
    var before, after := ReapedFunnelBecomesActive(user, max);
    acts := before + after;
    var s0 := Run(s, acts);
    var first, r1 := CompleteNextStage(s0, 0);
    var s1 := Run(s0, first);
    RunAppend(s, acts, first);
    acts := acts + first;
    var second, r2 := CompleteNextStage(s1, 1);
    RunAppend(s, acts, second);
    acts := acts + second;
    var s2 := Run(s, acts);
    assert s2.reqs[r1] == Committed(1) && s2.reqs[r2] == Committed(2) && r1 != r2;
    RunOne(s, acts, APublishCompleted(r2));
    acts := acts + [APublishCompleted(r2)];
    RunOne(s, acts, APublishCompleted(r1));
    acts := acts + [APublishCompleted(r1)];
    TwoPublished(s2, r1, r2);
  }

  lemma TwoPublished(s: State, r1: nat, r2: nat)
    requires r1 in s.reqs && r2 in s.reqs && r1 != r2 && s.reqs[r1] == Committed(1) && s.reqs[r2] == Committed(2)
    ensures Step(Step(s, APublishCompleted(r2)), APublishCompleted(r1)).completedEvents == s.completedEvents + [2, 1]
  {
  }
}
