/** What the funnel's statements write and answer, field by field. */
module FunnelAnswers {
  import opened Json
  import opened StageData
  import opened FunnelRows
  import P = FunnelProtocol
  import T = FunnelTables

  /** A created funnel is GENERATING, with its first stage current and three locked ones, all empty. */
  lemma CreatedFunnelReads(user: nat, at: int)
    ensures var f := CreatedFunnel(user, at);
            && f.user == user && f.status.Generating? && |f.stages| == 4
            && f.stages[0].status.Current? && f.stages[0].unlockedAt == Some(at)
            && (forall i | 1 <= i < 4 :: f.stages[i].status.Locked? && f.stages[i].unlockedAt.None?)
            && forall i | 0 <= i < 4 ::
                 && f.stages[i].completedAt.None? && f.stages[i].tasks == []
                 && f.stages[i].channel == f.stages[i].explanation == f.stages[i].actionPrompt == ""
  {
  }

  lemma {:induction false} AllPending(tasks: seq<Task>)
    requires forall t | t in tasks :: !t.complete
    ensures CountPending(tasks) == |tasks|
  {
    if tasks != [] {
      assert tasks[0] in tasks;
      AllPending(tasks[1..]);
    }
  }

  /** The generation write, field by field: an ACTIVE funnel whose stage at each entry's position has
      that entry's texts and its tasks in order, all still to be done. */
  lemma GeneratedFunnelReads(f: Funnel, data: seq<StageData>, i: nat)
    requires |f.stages| == 4 && FromSource(data) && DistinctPositions(data) && i < |data|
    requires forall st | st in f.stages :: st.tasks == []
    ensures var g := WriteFunnel(f, data);
            && g.user == f.user && g.status.Active? && |g.stages| == 4 && 1 <= data[i].position <= 4
            && var before, stage := f.stages[data[i].position - 1], g.stages[data[i].position - 1];
            && stage.channel == data[i].channel && stage.explanation == data[i].explanation
            && stage.actionPrompt == data[i].actionPrompt
            && stage.status == before.status && stage.unlockedAt == before.unlockedAt
            && stage.completedAt == before.completedAt
            && |stage.tasks| == |data[i].tasks| && CountPending(stage.tasks) == |stage.tasks|
            && forall j | 0 <= j < |stage.tasks| ::
                 && stage.tasks[j].text == data[i].tasks[j].taskText && stage.tasks[j].position == j + 1
                 && !stage.tasks[j].complete && stage.tasks[j].name <= data[i].tasks[j].name
                 && |stage.tasks[j].name| == (if |data[i].tasks[j].name| < 80 then |data[i].tasks[j].name| else 80)
  {
    var p := data[i].position;
    assert data[i] in data;
    WriteTouchesEachStageOnce(f, data, i);
    assert StageAt(f, p) in f.stages;
    AllPending(StageAt(WriteFunnel(f, data), p).tasks);
    WriteTextsAt(f, data, p);
    InsertTasksAt(WriteTexts(f, data), data, p);
  }

  /** When the write is refused: no funnel, no stages, a position without a stage, or a channel longer
      than its column. */
  lemma WriteAnswers(rows: map<nat, Funnel>, id: nat, data: seq<StageData>)
    ensures var reply := T.WriteReplyFor(rows, id, data);
            && (reply.FunnelGone? <==> id !in rows)
            && (reply.Wrote? <==>
                  && id in rows && rows[id].stages != []
                  && forall sd | sd in data :: 1 <= sd.position <= |rows[id].stages| && |sd.channel| <= 100)
  {
  }

  /** A task update changes that task's state and nothing else. */
  lemma TickChangesOneTask(f: Funnel, p: int, i: nat, complete: bool)
    requires HasStage(f, p) && i < |f.stages[p - 1].tasks|
    ensures var g := SetTask(f, p, i, complete);
            && g.user == f.user && g.status == f.status && |g.stages| == |f.stages|
            && (forall q | 0 <= q < |f.stages| && q != p - 1 :: g.stages[q] == f.stages[q])
            && var before, after := f.stages[p - 1], g.stages[p - 1];
            && after.(tasks := []) == before.(tasks := []) && |after.tasks| == |before.tasks|
            && (forall j | 0 <= j < |before.tasks| && j != i :: after.tasks[j] == before.tasks[j])
            && after.tasks[i].complete == complete
            && after.tasks[i].(complete := true) == before.tasks[i].(complete := true)
  {
  }

  /** Ticks are allowed on existing tasks of stages that are not locked. */
  lemma TickAllowedExactlyOnOpenStages(s: P.State, p: int, i: nat, complete: bool)
    requires (p, i, complete) !in s.ticks
    ensures (p, i, complete) in P.AllowTick(s, p, i, complete).ticks <==>
              && s.row.Present? && 1 <= p <= |s.row.f.stages|
              && !s.row.f.stages[p - 1].status.Locked? && i < |s.row.f.stages[p - 1].tasks|
  {
  }

  // ----- completing a stage -----

  /** Every refusal of a completion and its reason; none of them changes the funnel. */
  lemma CompletionRefusals(f: Funnel, user: nat, p: int, at: int)
    ensures var (reply, g) := T.SoloComplete(f, user, p, at);
            && (!reply.Completed? ==> g == f)
            && (if f.user != user then reply.NotFound?
                else if f.status != Active then reply.RequiresActiveFunnel?
                else if !(1 <= p <= |f.stages|) then reply.StageNotFound?
                else
                  var stage := f.stages[p - 1];
                  match stage.status
                  case Complete => reply.AlreadyComplete?
                  case Locked => reply.StageLocked?
                  case Current =>
                    if |stage.tasks| == 0 then reply.StageHasNoTasks?
                    else if exists t | t in stage.tasks :: !t.complete then
                      reply.StageHasPendingTasks? && 1 <= reply.pending <= |stage.tasks|
                    else reply.Completed?)
  {
    if HasStage(f, p) {
      var tasks := StageAt(f, p).tasks;
      NothingPendingMeansAllDone(tasks);
      PendingAtMostAll(tasks);
    }
  }

  lemma {:induction false} PendingAtMostAll(tasks: seq<Task>)
    ensures CountPending(tasks) <= |tasks|
  {
    if tasks != [] {
      PendingAtMostAll(tasks[1..]);
    }
  }

  /** The pending count is the number of tasks still to be done. */
  lemma {:induction false} PendingCounts(tasks: seq<Task>)
    ensures CountPending(tasks) == |set i | 0 <= i < |tasks| && !tasks[i].complete|
  {
    var open := set i | 0 <= i < |tasks| && !tasks[i].complete;
    if tasks == [] {
      assert open == {};
    } else {
      var last := |tasks| - 1;
      var rest := tasks[..last];
      var openRest := set i | 0 <= i < |rest| && !rest[i].complete;
      PendingCounts(rest);
      PendingSnoc(rest, tasks[last]);
      assert tasks == rest + [tasks[last]];
      assert open == if tasks[last].complete then openRest else openRest + {last};
    }
  }

  lemma {:induction false} PendingSnoc(tasks: seq<Task>, t: Task)
    ensures CountPending(tasks + [t]) == CountPending(tasks) + if t.complete then 0 else 1
  {
    if tasks == [] {
      assert tasks + [t] == [t];
    } else {
      assert (tasks + [t])[1..] == tasks[1..] + [t];
      PendingSnoc(tasks[1..], t);
    }
  }

  /** An accepted completion closes its stage at that time, opens the next one if it was locked, and
      touches nothing else. */
  lemma CompletionWrites(f: Funnel, user: nat, p: int, at: int)
    requires T.SoloComplete(f, user, p, at).0.Completed?
    ensures var g := T.SoloComplete(f, user, p, at).1;
            && 1 <= p <= |f.stages| == |g.stages| && g.user == f.user && g.status == f.status
            && g.stages[p - 1] == f.stages[p - 1].(status := Complete, completedAt := Some(at))
            && (p < |f.stages| ==>
                  g.stages[p] == if f.stages[p].status.Locked?
                                 then f.stages[p].(status := Current, unlockedAt := Some(at)) else f.stages[p])
            && forall q | 0 <= q < |f.stages| && q != p - 1 && q != p :: g.stages[q] == f.stages[q]
  {
  }

  // ----- failures -----

  /** An error in an attempt leads to another attempt as long as attempts are left, and only then to the
      failure handler. */
  lemma ErrorsAreRetried(s: P.State)
    requires s.worker.Prompted? || s.worker.Validated? || s.worker.Opened? || s.worker.Writing?
             || s.worker.Inserted? || s.worker.Flipped? || s.worker.Published?
    ensures var t := P.WorkerError(s);
            && t.attempts == s.attempts + 1 && t.row == s.row && t.inserts == s.inserts
            && (t.worker.Waiting? <==> s.attempts + 1 < s.maxAttempts)
            && (t.worker.Failing? <==> s.attempts + 1 >= s.maxAttempts)
  {
  }

  /** The failure handler marks a funnel that is there and not ACTIVE as FAILED and announces it, and
      leaves any other alone. */
  lemma FailureHandlerFails(s: P.State)
    requires s.worker.Failing? && !s.deleting
    ensures var t := P.ReportFailure(P.CheckFailure(s));
            && t.worker.Finished?
            && (if s.row.Present? && !s.row.f.status.Active?
                then t.row == P.Present(s.row.f.(status := Failed)) && t.failedEvents == s.failedEvents + 1
                else t.row == s.row && t.failedEvents == s.failedEvents)
  {
  }

  /** A sweep that finds a GENERATING funnel fails it unless its status changed in between. */
  lemma SweepFails(s: P.State)
    requires s.row.Present? && !s.deleting && !s.worker.Flipped?
    ensures s.row.f.status.Generating? ==>
              && P.SweepFind(s).sweeps == s.sweeps + 1
              && P.SweepMark(P.SweepFind(s)).row == P.Present(s.row.f.(status := Failed))
              && P.SweepMark(P.SweepFind(s)).failedEvents == s.failedEvents + 1
    ensures !s.row.f.status.Generating? ==> P.SweepFind(s) == s && P.SweepMark(s).row == s.row
  {
  }

  // ----- deleting -----

  /** A delete goes through exactly for the user's own funnel that is not the last ACTIVE one. */
  lemma DeleteAnswers(rows: map<nat, Funnel>, user: nat, id: nat)
    ensures var reply := T.DeleteReplyFor(rows, user, id);
            && (reply.DeleteNotFound? <==> !(id in rows && rows[id].user == user))
            && (reply.Deleted? <==>
                  && id in rows && rows[id].user == user
                  && (rows[id].status.Active? ==>
                        exists other | other in rows ::
                          other != id && rows[other].user == user && rows[other].status.Active?))
  {
    var others := T.ActiveOf(rows, user) - {id};
    if others != {} {
      var other :| other in others;
      assert other in rows && other != id && rows[other].user == user && rows[other].status.Active?;
    }
    if other :| other in rows && other != id && rows[other].user == user && rows[other].status.Active? {
      assert other in others;
    }
  }
}
