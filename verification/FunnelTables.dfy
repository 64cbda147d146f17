/** The funnels table with the statements and transactions that run on it, one call at a time.
    Each method is tied to the row functions, and the stage completion to the interleaved protocol. */
module FunnelTables {
  import opened Json
  import opened StageData
  import opened FunnelRows
  import P = FunnelProtocol

  const FUNNEL_STUCK_MS := 8 * 60 * 1000

  // ----- completeStage as one function of the row -----

  function SoloComplete(f: Funnel, user: nat, p: int, at: int): (P.Reply, Funnel) {
    if f.user != user then (P.NotFound, f)
    else if !f.status.Active? then (P.RequiresActiveFunnel, f)
    else if !HasStage(f, p) then (P.StageNotFound, f)
    else if StageAt(f, p).status.Complete? then (P.AlreadyComplete, f)
    else if StageAt(f, p).status.Locked? then (P.StageLocked, f)
    else if StageAt(f, p).tasks == [] then (P.StageHasNoTasks, f)
    else if CountPending(StageAt(f, p).tasks) > 0 then
      (P.StageHasPendingTasks(CountPending(StageAt(f, p).tasks)), f)
    else (P.Completed, UnlockIfLocked(CompleteIfCurrent(f, p, at).1, p + 1, at).1)
  }

  // ----- deleteFunnel's guard -----

  function ActiveOf(rows: map<nat, Funnel>, user: nat): set<nat> {
    set id | id in rows && rows[id].user == user && rows[id].status.Active?
  }

  datatype DeleteReply = Deleted | DeleteNotFound | OnlyActiveFunnel

  function DeleteReplyFor(rows: map<nat, Funnel>, user: nat, id: nat): DeleteReply {
    if id !in rows || rows[id].user != user then DeleteNotFound
    else if rows[id].status.Active? && ActiveOf(rows, user) - {id} == {} then OnlyActiveFunnel
    else Deleted
  }

  datatype WriteReply = Wrote | FunnelGone | WriteFailed

  predicate WriteFits(found: nat, data: seq<StageData>) {
    forall sd | sd in data :: 1 <= sd.position <= found && |sd.channel| <= CHANNEL_COLUMN_WIDTH
  }

  function WriteReplyFor(rows: map<nat, Funnel>, id: nat, data: seq<StageData>): WriteReply {
    if id !in rows then FunnelGone
    else if rows[id].stages == [] || !WriteFits(|rows[id].stages|, data) then WriteFailed
    else Wrote
  }

  datatype CreateReply = Existing(id: nat) | Accepted(id: nat) | RateLimited | SourceRejected | QueueUnavailable

  class FunnelTables {
    var rows: map<nat, Funnel>
    var keys: map<nat, (nat, string)>
    var createdAt: map<nat, int>
    var failedEvents: seq<nat>

    /** Every row has its user's idempotency key, and the composite index holds. */
    predicate Valid()
      reads this
    {
      && keys.Keys == rows.Keys == createdAt.Keys
      && (forall id | id in rows :: keys[id].0 == rows[id].user)
      && forall i, j | i in keys && j in keys && i != j :: keys[i] != keys[j]
    }

    constructor ()
      ensures Valid() && rows == map[] && failedEvents == []
    {
      rows, keys, createdAt, failedEvents := map[], map[], map[], [];
    }

    /** `sourceOk` and `queued` are the outcomes of the source check and of the queue's add. */
    method CreateGeneration(user: nat, key: string, newId: nat, at: int, limited: bool, sourceOk: bool, queued: bool)
      returns (reply: CreateReply)
      requires Valid() && newId !in rows
      modifies this
      ensures Valid() && failedEvents == old(failedEvents)
      ensures reply.Existing? <==> exists id :: id in old(keys) && old(keys)[id] == (user, key)
      ensures reply.Existing? ==> reply.id in old(keys) && old(keys)[reply.id] == (user, key)
      ensures reply.Accepted? <==> !reply.Existing? && !limited && sourceOk && queued
      ensures reply.Accepted? ==> reply.id == newId && rows == old(rows)[newId := CreatedFunnel(user, at)]
                                  && keys == old(keys)[newId := (user, key)]
                                  && createdAt == old(createdAt)[newId := at]
      ensures reply.RateLimited? <==> !reply.Existing? && limited
      ensures reply.SourceRejected? <==> !reply.Existing? && !limited && !sourceOk
      ensures !reply.Accepted? ==> rows == old(rows) && keys == old(keys) && createdAt == old(createdAt)
    {
      if id :| id in keys && keys[id] == (user, key) {
        return Existing(id);
      }
      if limited {
        return RateLimited;
      }
      if !sourceOk {
        return SourceRejected;
      }
      if !queued {
        return QueueUnavailable;
      }
      rows := rows[newId := CreatedFunnel(user, at)];
      keys := keys[newId := (user, key)];
      createdAt := createdAt[newId := at];
      reply := Accepted(newId);
    }

    method UpdateStageStatusIfActive(id: nat, p: int, at: int) returns (affected: nat)
      modifies this`rows
      ensures id in old(rows) ==>
                && affected == CompleteIfCurrent(old(rows)[id], p, at).0
                && rows == old(rows)[id := CompleteIfCurrent(old(rows)[id], p, at).1]
      ensures id !in old(rows) ==> affected == 0 && rows == old(rows)
    {
      affected := 0;
      if id in rows && HasStage(rows[id], p) && StageAt(rows[id], p).status.Current? {
        var stage := StageAt(rows[id], p).(status := Complete, completedAt := Some(at));
        rows := rows[id := WithStage(rows[id], p, stage)];
        affected := 1;
      }
    }

    method ActivateStageIfLocked(id: nat, p: int, at: int) returns (affected: nat)
      modifies this`rows
      ensures id in old(rows) ==>
                && affected == UnlockIfLocked(old(rows)[id], p, at).0
                && rows == old(rows)[id := UnlockIfLocked(old(rows)[id], p, at).1]
      ensures id !in old(rows) ==> affected == 0 && rows == old(rows)
    {
      affected := 0;
      if id in rows && HasStage(rows[id], p) && StageAt(rows[id], p).status.Locked? {
        var stage := StageAt(rows[id], p).(status := Current, unlockedAt := Some(at));
        rows := rows[id := WithStage(rows[id], p, stage)];
        affected := 1;
      }
    }

    /** Only GENERATING rows among `ids` change, and they change to FAILED. */
    method MarkFunnelsFailed(ids: set<nat>)
      modifies this`rows
      ensures rows.Keys == old(rows).Keys
      ensures forall id | id in rows ::
                rows[id] == if id in ids && old(rows)[id].status.Generating?
                            then old(rows)[id].(status := Failed) else old(rows)[id]
    {
      rows := map id | id in rows ::
                if id in ids && rows[id].status.Generating? then rows[id].(status := Failed) else rows[id];
    }

    /** After an undisturbed sweep no funnel older than the limit is GENERATING, each one found is
        announced once, and nothing else changed. */
    method SweepStuckFunnels(now: int) returns (reaped: nat)
      requires Valid()
      modifies this`rows, this`failedEvents
      ensures Valid()
      ensures forall id | id in rows ::
                rows[id] == if old(rows)[id].status.Generating? && createdAt[id] < now - 480_000
                            then old(rows)[id].(status := Failed) else old(rows)[id]
      ensures rows.Keys == old(rows).Keys
      ensures old(failedEvents) <= failedEvents && |failedEvents| == |old(failedEvents)| + reaped
      ensures multiset(failedEvents[|old(failedEvents)|..]) ==
              multiset(set id | id in old(rows) && old(rows)[id].status.Generating?
                  && createdAt[id] < now - 480_000)
    {
      var stuck := set id | id in rows && rows[id].status.Generating? && createdAt[id] < now - FUNNEL_STUCK_MS;
      MarkFunnelsFailed(stuck);
      AnnounceFailures(stuck);
      reaped := |stuck|;
    }

    /** One event for each of them, in any order. */
    method AnnounceFailures(ids: set<nat>)
      modifies this`failedEvents
      ensures old(failedEvents) <= failedEvents && |failedEvents| == |old(failedEvents)| + |ids|
      ensures multiset(failedEvents[|old(failedEvents)|..]) == multiset(ids)
    {
      var rest := ids;
      ghost var announced: seq<nat> := [];
      while rest != {}
        invariant failedEvents == old(failedEvents) + announced && |announced| + |rest| == |ids|
        invariant rest <= ids && multiset(announced) + multiset(rest) == multiset(ids)
        decreases rest
      {
        var id :| id in rest;
        rest := rest - {id};
        failedEvents := failedEvents + [id];
        announced := announced + [id];
      }
      assert failedEvents[|old(failedEvents)|..] == announced;
    }

    /** The generation transaction, run with nothing in between: all of it or none of it. */
    method WriteFunnelData(id: nat, data: seq<StageData>) returns (reply: WriteReply)
      modifies this`rows
      ensures reply == WriteReplyFor(old(rows), id, data)
      ensures rows == if reply.Wrote? then old(rows)[id := WriteFunnel(old(rows)[id], data)] else old(rows)
    {
      if id !in rows {
        return FunnelGone;
      }
      var f := rows[id];
      var found := |f.stages|;
      if found == 0 {
        return WriteFailed;
      }
      for i := 0 to |data|
        invariant rows == old(rows) && f == WriteTexts(rows[id], data[..i])
        invariant forall j | 0 <= j < i :: |data[j].channel| <= CHANNEL_COLUMN_WIDTH
      {
        if |data[i].channel| > CHANNEL_COLUMN_WIDTH {
          assert data[i] in data;
          return WriteFailed;
        }
        OneMoreEntry(rows[id], data, i);
        f := WriteText(f, data[i]);
      }
      assert data[..|data|] == data;
      var g := f;
      for i := 0 to |data|
        invariant rows == old(rows) && g == InsertTasks(f, data[..i])
        invariant forall j | 0 <= j < i :: 1 <= data[j].position <= found
      {
        if !(1 <= data[i].position <= found) {
          assert data[i] in data;
          return WriteFailed;
        }
        OneMoreEntry(f, data, i);
        g := InsertStageTasks(g, data[i]);
      }
      rows := rows[id := g.(status := Active)];
      reply := Wrote;
    }

    method CompleteStage(id: nat, p: int, user: nat, at: int) returns (reply: P.Reply)
      modifies this`rows
      ensures id !in old(rows) ==> reply.NotFound? && rows == old(rows)
      ensures id in old(rows) ==>
                && reply == SoloComplete(old(rows)[id], user, p, at).0
                && rows == old(rows)[id := SoloComplete(old(rows)[id], user, p, at).1]
    {
      if id !in rows || rows[id].user != user {
        return P.NotFound;
      }
      var f := rows[id];
      if !f.status.Active? {
        return P.RequiresActiveFunnel;
      }
      if !HasStage(f, p) {
        return P.StageNotFound;
      }
      if StageAt(f, p).status.Complete? {
        return P.AlreadyComplete;
      }
      if StageAt(f, p).status.Locked? {
        return P.StageLocked;
      }
      var tasks := StageAt(f, p).tasks;
      if tasks == [] {
        return P.StageHasNoTasks;
      }
      if CountPending(tasks) > 0 {
        return P.StageHasPendingTasks(CountPending(tasks));
      }
      var affected := UpdateStageStatusIfActive(id, p, at);
      if HasStage(f, p + 1) {
        affected := ActivateStageIfLocked(id, p + 1, at);
      }
      reply := P.Completed;
    }

    method DeleteFunnel(user: nat, id: nat) returns (reply: DeleteReply)
      requires Valid()
      modifies this
      ensures Valid() && failedEvents == old(failedEvents)
      ensures reply == DeleteReplyFor(old(rows), user, id)
      ensures rows == if reply.Deleted? then old(rows) - {id} else old(rows)
    {
      if id !in rows || rows[id].user != user {
        return DeleteNotFound;
      }
      if rows[id].status.Active? {
        var remainingActive := |ActiveOf(rows, user) - {id}|;
        if remainingActive == 0 {
          return OnlyActiveFunnel;
        }
      }
      rows, keys, createdAt := rows - {id}, keys - {id}, createdAt - {id};
      reply := Deleted;
    }
  }

  lemma OneMoreEntry(f: Funnel, data: seq<StageData>, i: nat)
    requires i < |data|
    ensures WriteTexts(f, data[..i + 1]) == WriteText(WriteTexts(f, data[..i]), data[i])
    ensures InsertTasks(f, data[..i + 1]) == InsertStageTasks(InsertTasks(f, data[..i]), data[i])
  {
    assert data[..i + 1][..i] == data[..i];
  }

  // ----- what the method specifications mean -----

  /** The reads of one request: it ends with its task count or with the refusal SoloComplete names. */
  lemma SoloReads(s: P.State, r: nat, user: nat, p: int)
    requires s.row.Present? && r !in s.reqs
    ensures P.CountTasks(P.ReadStage(P.ReadFunnel(P.Ask(s, r, user, p), r), r), r) ==
            P.Put(s, r, if SoloComplete(s.row.f, user, p, 0).0.Completed? then P.TasksSeen(p)
                        else P.Answered(SoloComplete(s.row.f, user, p, 0).0))
  {
    SoloFunnelRead(s, r, user, p);
    if s.row.f.user == user && s.row.f.status.Active? {
      var s2 := P.Put(s, r, P.FunnelSeen(p));
      var s3 := P.ReadStage(s2, r);
      assert s3 == P.Put(s, r, s3.reqs[r]);
    }
  }

  lemma SoloFunnelRead(s: P.State, r: nat, user: nat, p: int)
    requires r !in s.reqs
    ensures P.ReadFunnel(P.Ask(s, r, user, p), r) ==
            P.Put(s, r, if !s.row.Present? || s.row.f.user != user then P.Answered(P.NotFound)
                        else if !s.row.f.status.Active? then P.Answered(P.RequiresActiveFunnel)
                        else P.FunnelSeen(p))
  {
    assert P.Ask(s, r, user, p) == P.Put(s, r, P.Asked(user, p));
  }

  lemma SoloMark(s: P.State, r: nat, p: int, at: int)
    requires r in s.reqs && s.reqs[r] == P.TasksSeen(p) && s.row.Present?
    requires HasStage(s.row.f, p) && StageAt(s.row.f, p).status.Current?
    requires forall n: int :: P.StageFree(s, r, n)
    ensures P.UnlockNext(P.MarkComplete(s, r, at), r) ==
            P.Put(s, r, P.Unlocked(p, at, UnlockIfLocked(s.row.f, p + 1, at).0))
  {
    assert P.StageFree(s, r, p);
    var s1 := P.MarkComplete(s, r, at);
    assert s1 == P.Put(s, r, P.Marked(p, at));
    assert P.StageFree(s, r, p + 1);
    assert P.StageFree(s1, r, p + 1);
  }

  lemma SoloWrites(s: P.State, r: nat, p: int, at: int)
    requires r in s.reqs && s.reqs[r] == P.TasksSeen(p) && s.row.Present?
    requires HasStage(s.row.f, p) && StageAt(s.row.f, p).status.Current?
    requires forall n: int :: P.StageFree(s, r, n)
    ensures var t := P.PublishCompleted(P.CommitCompletion(P.UnlockNext(P.MarkComplete(s, r, at), r), r), r);
            && t.row == P.Present(UnlockIfLocked(CompleteIfCurrent(s.row.f, p, at).1, p + 1, at).1)
            && r in t.reqs && t.reqs[r] == P.Answered(P.Completed)
  {
    SoloMark(s, r, p, at);
    var s2 := P.Put(s, r, P.Unlocked(p, at, UnlockIfLocked(s.row.f, p + 1, at).0));
    assert P.CommitCompletion(s2, r).reqs[r] == P.Committed(p);
  }

  /** The method is the protocol without interleaving: a fresh request of any user whose eight steps run
      with nothing in between gets SoloComplete's reply and leaves SoloComplete's row. */
  lemma UndisturbedRequestIsSoloComplete(s: P.State, r: nat, user: nat, p: int, at: int)
    requires P.Inv(s) && r !in s.reqs && forall q | q in s.reqs :: !P.InTransaction(s.reqs[q])
    ensures var seen := P.CountTasks(P.ReadStage(P.ReadFunnel(P.Ask(s, r, user, p), r), r), r);
            var t := P.PublishCompleted(P.CommitCompletion(P.UnlockNext(P.MarkComplete(seen, r, at), r), r), r);
            && r in t.reqs
            && (s.row.Present? ==>
                  && t.row == P.Present(SoloComplete(s.row.f, user, p, at).1)
                  && t.reqs[r] == P.Answered(SoloComplete(s.row.f, user, p, at).0))
            && (!s.row.Present? ==> t.row == s.row && t.reqs[r] == P.Answered(P.NotFound))
  {
    if s.row.Present? {
      SoloReads(s, r, user, p);
      var seen := P.CountTasks(P.ReadStage(P.ReadFunnel(P.Ask(s, r, user, p), r), r), r);
      if SoloComplete(s.row.f, user, p, 0).0.Completed? {
        assert forall n: int :: P.StageFree(seen, r, n);
        SoloWrites(seen, r, p, at);
      }
    } else {
      SoloFunnelRead(s, r, user, p);
    }
  }

  function WriteNexts(s: P.State, n: nat): P.State {
    if n == 0 then s else P.WriteNext(WriteNexts(s, n - 1))
  }

  lemma {:induction false} WriteNextsGo(s: P.State, data: seq<StageData>, found: nat, n: nat)
    requires s.worker == P.Writing(data, 0, found) && s.row.Present? && n <= |data|
    requires forall q | q in s.reqs :: !P.InTransaction(s.reqs[q])
    ensures if forall i | 0 <= i < n :: |data[i].channel| <= CHANNEL_COLUMN_WIDTH
            then WriteNexts(s, n) == s.(worker := P.Writing(data, n, found)) else WriteNexts(s, n) == P.Throw(s)
  {
    if n > 0 {
      WriteNextsGo(s, data, found, n - 1);
    }
  }

  /** The statements of the generation transaction with nothing in between. */
  function UndisturbedWrite(s: P.State, n: nat): P.State {
    P.CommitWrite(P.Flip(P.InsertBatch(WriteNexts(P.FindStages(P.OpenWrite(s)), n))))
  }

  /** They write WriteFunnelData's row when the method says so, and otherwise use up the attempt. */
  lemma UndisturbedWriteIsTheMethod(s: P.State, data: seq<StageData>, id: nat)
    requires s.worker == P.Validated(data) && !s.deleting
    requires forall q | q in s.reqs :: !P.InTransaction(s.reqs[q])
    ensures s.row.Present? ==>
              var reply := WriteReplyFor(map[id := s.row.f], id, data);
              UndisturbedWrite(s, |data|) ==
              if reply.Wrote?
              then s.(row := P.Present(WriteFunnel(s.row.f, data)), inserts := s.inserts + 1, worker := P.Published)
              else P.Throw(s)
    ensures !s.row.Present? ==> UndisturbedWrite(s, |data|) == s.(worker := P.Finished)
  {
    if s.row.Present? && s.row.f.stages != [] {
      var found := |s.row.f.stages|;
      var t := s.(worker := P.Writing(data, 0, found));
      assert P.FindStages(P.OpenWrite(s)) == t;
      WriteNextsGo(t, data, found, |data|);
      assert P.Throw(t) == P.Throw(s);
    } else if s.row.Present? {
      assert P.FindStages(P.OpenWrite(s)) == P.Throw(s);
      WritesEndUnlessWriting(P.Throw(s), |data|);
    } else {
      WritesEndUnlessWriting(P.OpenWrite(s), |data|);
    }
  }

  lemma {:induction false} WritesEndUnlessWriting(s: P.State, n: nat)
    requires !s.worker.Writing?
    ensures WriteNexts(s, n) == s
  {
    if n > 0 {
      WritesEndUnlessWriting(s, n - 1);
    }
  }

  /** One delete at a time, a user with an ACTIVE funnel always keeps one. */
  lemma SerialDeleteKeepsOneActive(rows: map<nat, Funnel>, user: nat, caller: nat, id: nat)
    requires ActiveOf(rows, user) != {}
    ensures DeleteReplyFor(rows, caller, id).Deleted? ==> ActiveOf(rows - {id}, user) != {}
  {
    if DeleteReplyFor(rows, caller, id).Deleted? {
      assert ActiveOf(rows - {id}, user) == ActiveOf(rows, user) - {id};
    }
  }
}
