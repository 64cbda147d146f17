/** All deletes of one user's funnels, statement by statement: each locks its own funnel's row, counts
    the other ACTIVE funnels, and removes the row at its commit. */
module FunnelDeletes {
  import R = FunnelRows
  import T = FunnelTables

  /** A delete in its transaction: the row is locked, then the count let it go on. */
  datatype Delete = Locked(id: nat) | Counted(id: nat)

  /** The ids of the user's ACTIVE and other funnels, and the open deletes by request. */
  datatype State = State(active: set<nat>, others: set<nat>, open: map<nat, Delete>)

  predicate RowLocked(s: State, id: nat) {
    exists r | r in s.open :: s.open[r].id == id
  }

  /** SELECT ... FOR UPDATE waits for a row another delete has locked. */
  function Lock(s: State, r: nat, id: nat): State {
    if r in s.open || id !in s.active + s.others || RowLocked(s, id) then s else s.(open := s.open[r := Locked(id)])
  }

  /** For an ACTIVE funnel the count must find another one; rows of open deletes are still there. */
  function Count(s: State, r: nat): State {
    if !(r in s.open && s.open[r].Locked?) then s
    else if s.open[r].id in s.active && s.active - {s.open[r].id} == {} then s.(open := s.open - {r})
    else s.(open := s.open[r := Counted(s.open[r].id)])
  }

  /** DELETE and COMMIT */
  function Remove(s: State, r: nat): State {
    if !(r in s.open && s.open[r].Counted?) then s
    else s.(active := s.active - {s.open[r].id}, others := s.others - {s.open[r].id}, open := s.open - {r})
  }

  function Abandon(s: State, r: nat): State {
    s.(open := s.open - {r})
  }

  /** A worker's commit makes a funnel ACTIVE unless a delete has its row. */
  function Activate(s: State, id: nat): State {
    if id in s.others && !RowLocked(s, id) then s.(active := s.active + {id}, others := s.others - {id}) else s
  }

  function Create(s: State, id: nat): State {
    if id in s.active + s.others then s else s.(others := s.others + {id})
  }

  datatype Action =
    | ALock(r: nat, id: nat) | ACount(r: nat) | ARemove(r: nat) | AAbandon(r: nat)
    | AActivate(id: nat) | ACreate(id: nat)

  function Step(s: State, a: Action): State {
    match a
    case ALock(r, id) => Lock(s, r, id)
    case ACount(r) => Count(s, r)
    case ARemove(r) => Remove(s, r)
    case AAbandon(r) => Abandon(s, r)
    case AActivate(id) => Activate(s, id)
    case ACreate(id) => Create(s, id)
  }

  function Run(s: State, acts: seq<Action>): State
    decreases |acts|
  {
    if acts == [] then s else Run(Step(s, acts[0]), acts[1..])
  }

  predicate Inv(s: State) {
    && s.active !! s.others
    && (forall r | r in s.open :: s.open[r].id in s.active + s.others)
    && (forall r, q | r in s.open && q in s.open && r != q :: s.open[r].id != s.open[q].id)
  }

  lemma StepKeepsInv(s: State, a: Action)
    requires Inv(s)
    ensures Inv(Step(s, a))
  {
  }

  lemma {:induction false} RunKeepsInv(s: State, acts: seq<Action>)
    requires Inv(s)
    ensures Inv(Run(s, acts))
    decreases |acts|
  {
    if acts != [] {
      StepKeepsInv(s, acts[0]);
      RunKeepsInv(Step(s, acts[0]), acts[1..]);
    }
  }

  lemma {:induction false} RunAppend(s: State, a: seq<Action>, b: seq<Action>)
    ensures Run(s, a + b) == Run(Run(s, a), b)
    decreases |a|
  {
    if a == [] {
      assert a + b == b;
    } else {
      assert (a + b)[1..] == a[1..] + b;
      RunAppend(Step(s, a[0]), a[1..], b);
    }
  }

  // ----- spare funnels -----

  /** This funnel's delete has passed its count: nothing stops it any more. */
  predicate Doomed(s: State, id: nat) {
    exists r | r in s.open :: s.open[r] == Counted(id)
  }

  predicate IsSpare(s: State, id: nat) {
    id in s.active && !Doomed(s, id)
  }

  predicate Spare(s: State) {
    exists id | id in s.active :: IsSpare(s, id)
  }

  /** A count that lets an ACTIVE funnel go finds a spare one besides it. */
  predicate Careful(s: State, a: Action) {
    a.ACount? && a.r in s.open && s.open[a.r].Locked? && s.open[a.r].id in s.active
    && s.active - {s.open[a.r].id} != {} ==>
      exists id | id in s.active :: id != s.open[a.r].id && IsSpare(s, id)
  }

  lemma StepKeepsSpareExactlyWhenCareful(s: State, a: Action)
    requires Inv(s) && Spare(s)
    ensures Spare(Step(s, a)) <==> Careful(s, a)
  {
    var t := Step(s, a);
    var id :| id in s.active && IsSpare(s, id);
    if a.ACount? && t.open != s.open && a.r in t.open {
      var own := s.open[a.r].id;
      assert t.open[a.r] == Counted(own) && Doomed(t, own);
      forall x | x in s.active
        ensures IsSpare(t, x) <==> x != own && IsSpare(s, x)
      {
        if Doomed(s, x) {
          var q :| q in s.open && s.open[q] == Counted(x);
          assert t.open[q] == Counted(x);
        }
      }
    } else {
      forall x | Doomed(t, x)
        ensures Doomed(s, x)
      {
        var q :| q in t.open && t.open[q] == Counted(x);
        assert s.open[q] == Counted(x);
      }
      if a.ARemove? && a.r in s.open && s.open[a.r].Counted? {
        assert Doomed(s, s.open[a.r].id);
      }
      assert IsSpare(t, id);
    }
  }

  predicate CarefulRun(s: State, acts: seq<Action>)
    decreases |acts|
  {
    acts != [] ==> Careful(s, acts[0]) && CarefulRun(Step(s, acts[0]), acts[1..])
  }

  predicate SpareThroughout(s: State, acts: seq<Action>)
    decreases |acts|
  {
    Spare(s) && (acts != [] ==> SpareThroughout(Step(s, acts[0]), acts[1..]))
  }

  /** Over any run of any number of deletes a spare ACTIVE funnel is there all the time exactly when
      every count that lets an ACTIVE funnel go found a spare one besides it. */
  lemma {:induction false} SpareThroughoutExactlyCarefulRuns(s: State, acts: seq<Action>)
    requires Inv(s) && Spare(s)
    ensures SpareThroughout(s, acts) <==> CarefulRun(s, acts)
    decreases |acts|
  {
    if acts != [] {
      var t := Step(s, acts[0]);
      StepKeepsInv(s, acts[0]);
      StepKeepsSpareExactlyWhenCareful(s, acts[0]);
      if Spare(t) {
        SpareThroughoutExactlyCarefulRuns(t, acts[1..]);
      }
    }
  }

  // ----- without a spare funnel -----

  /** Open deletes running on, nothing new. */
  predicate Closing(acts: seq<Action>) {
    forall a | a in acts :: a.ARemove? || a.AAbandon?
  }

  lemma {:induction false} SpareOutlivesClosing(s: State, acts: seq<Action>)
    requires Inv(s) && Spare(s) && Closing(acts)
    ensures Spare(Run(s, acts))
    decreases |acts|
  {
    if acts != [] {
      assert acts[0] in acts && forall a | a in acts[1..] :: a in acts;
      StepKeepsInv(s, acts[0]);
      StepKeepsSpareExactlyWhenCareful(s, acts[0]);
      SpareOutlivesClosing(Step(s, acts[0]), acts[1..]);
    }
  }

  /** Every open delete that passed its count removes its funnel. */
  lemma {:induction false} CloseAll(s: State) returns (acts: seq<Action>)
    requires Inv(s) && !Spare(s)
    ensures Closing(acts) && Run(s, acts).active == {}
    decreases |s.open|
  {
    acts := [];
    if s.active != {} {
      var id :| id in s.active;
      assert !IsSpare(s, id);
      var r :| r in s.open && s.open[r] == Counted(id);
      var t := Step(s, ARemove(r));
      StepKeepsInv(s, ARemove(r));
      assert |t.open| < |s.open| by {
        assert t.open.Keys == s.open.Keys - {r};
      }
      forall x | x in t.active
        ensures !IsSpare(t, x)
      {
        assert !IsSpare(s, x);
        var q :| q in s.open && s.open[q] == Counted(x);
        assert t.open[q] == Counted(x);
      }
      var rest := CloseAll(t);
      acts := [ARemove(r)] + rest;
      assert acts[1..] == rest;
    }
  }

  /** From any state, the open deletes can leave the user without an ACTIVE funnel exactly when none
      of the ACTIVE funnels is spare. */
  lemma NoneCanBeLeftExactlyWithoutSpare(s: State)
    requires Inv(s)
    ensures (exists acts :: Closing(acts) && Run(s, acts).active == {}) <==> !Spare(s)
  {
    if Spare(s) {
      forall acts | Closing(acts)
        ensures Run(s, acts).active != {}
      {
        SpareOutlivesClosing(s, acts);
      }
    } else {
      var acts := CloseAll(s);
    }
  }

  // ----- from a user with no open delete -----

  /** No funnel becomes ACTIVE meanwhile. */
  predicate DeletesOnly(acts: seq<Action>) {
    forall a | a in acts :: !a.AActivate?
  }

  lemma {:induction false} OnlyOneStays(s: State, acts: seq<Action>)
    requires Inv(s) && |s.active| == 1 && Spare(s) && DeletesOnly(acts)
    ensures |Run(s, acts).active| == 1
    decreases |acts|
  {
    if acts != [] {
      var t := Step(s, acts[0]);
      assert acts[0] in acts && forall a | a in acts[1..] :: a in acts;
      var id :| id in s.active && IsSpare(s, id);
      OneElement(s.active, id);
      StepKeepsInv(s, acts[0]);
      StepKeepsSpareExactlyWhenCareful(s, acts[0]);
      if acts[0].ARemove? && acts[0].r in s.open && s.open[acts[0].r].Counted? {
        assert Doomed(s, s.open[acts[0].r].id);
        assert t.active == s.active;
      }
      OnlyOneStays(t, acts[1..]);
    }
  }

  lemma OneElement(ids: set<nat>, id: nat)
    requires |ids| == 1 && id in ids
    ensures ids == {id}
  {
    assert |ids - {id}| == 0;
  }

  /** Deletes of the funnels in `todo`, each with a request of its own, all up to their counts. */
  lemma {:induction false} OpenAll(s: State, todo: set<nat>) returns (acts: seq<Action>)
    requires Inv(s) && |s.active| >= 2 && todo <= s.active
    requires forall id | id in todo :: id !in s.open && !RowLocked(s, id)
    requires forall id | id in s.active - todo :: Doomed(s, id)
    ensures DeletesOnly(acts) && Run(s, acts).active == s.active && !Spare(Run(s, acts))
    decreases |todo|
  {
    acts := [];
    if todo != {} {
      var id :| id in todo;
      var two := [ALock(id, id), ACount(id)];
      var t := Run(s, two);
      OpenOne(s, id);
      RunKeepsInv(s, two);
      forall x | x in s.active - (todo - {id})
        ensures Doomed(t, x)
      {
        if x != id {
          assert x in s.active - todo && Doomed(s, x);
          var q :| q in s.open && s.open[q] == Counted(x);
          assert t.open[q] == Counted(x);
        } else {
          assert t.open[id] == Counted(id);
        }
      }
      var rest := OpenAll(t, todo - {id});
      RunAppend(s, two, rest);
      acts := two + rest;
    }
  }

  lemma OpenOne(s: State, id: nat)
    requires Inv(s) && |s.active| >= 2 && id in s.active && id !in s.open && !RowLocked(s, id)
    ensures Run(s, [ALock(id, id), ACount(id)]) == s.(open := s.open[id := Counted(id)])
  {
    assert [ALock(id, id), ACount(id)][1..] == [ACount(id)];
    var t := Step(s, ALock(id, id));
    assert t == s.(open := s.open[id := Locked(id)]);
    assert |s.active - {id}| >= 1;
    assert Run(t, [ACount(id)]) == Count(t, id);
  }

  /** With no delete open and no funnel becoming ACTIVE, some interleaving of deletes leaves the user
      without an ACTIVE funnel exactly when the user did not start with a single one. */
  lemma DeletesCanLeaveNoneExactlyUnlessOne(s: State)
    requires Inv(s) && s.open == map[]
    ensures (exists acts :: DeletesOnly(acts) && Run(s, acts).active == {}) <==> |s.active| != 1
  {
    if |s.active| == 1 {
      var id :| id in s.active;
      assert IsSpare(s, id);
      forall acts | DeletesOnly(acts)
        ensures Run(s, acts).active != {}
      {
        OnlyOneStays(s, acts);
      }
    } else if |s.active| == 0 {
      assert DeletesOnly([]) && Run(s, []).active == {};
    } else {
      var opening := OpenAll(s, s.active);
      RunKeepsInv(s, opening);
      var closing := CloseAll(Run(s, opening));
      RunAppend(s, opening, closing);
      assert DeletesOnly(opening + closing);
    }
  }

  // ----- one delete at a time -----

  predicate SerialRun(s: State, acts: seq<Action>)
    decreases |acts|
  {
    acts != [] ==> (acts[0].ALock? ==> s.open == map[]) && SerialRun(Step(s, acts[0]), acts[1..])
  }

  predicate AtMostOneOpen(s: State) {
    forall r, q | r in s.open && q in s.open :: r == q
  }

  /** When no delete starts before the previous one ended, an ACTIVE funnel always remains. */
  lemma {:induction false} SerialDeletesKeepOneActive(s: State, acts: seq<Action>)
    requires Inv(s) && AtMostOneOpen(s) && Spare(s) && SerialRun(s, acts)
    ensures Spare(Run(s, acts)) && Run(s, acts).active != {}
    decreases |acts|
  {
    if acts != [] {
      var a := acts[0];
      if a.ACount? && a.r in s.open && s.open[a.r].Locked? && s.active - {s.open[a.r].id} != {} {
        var id :| id in s.active - {s.open[a.r].id};
        assert IsSpare(s, id);
      }
      StepKeepsInv(s, a);
      StepKeepsSpareExactlyWhenCareful(s, a);
      SerialDeletesKeepOneActive(Step(s, a), acts[1..]);
    }
  }

  function View(rows: map<nat, R.Funnel>, user: nat): State {
    State(T.ActiveOf(rows, user), set id | id in rows && rows[id].user == user && !rows[id].status.Active?, map[])
  }

  /** A delete with nothing in between is the method: it removes the funnel exactly when the method does. */
  lemma UndisturbedDeleteIsTheMethod(rows: map<nat, R.Funnel>, user: nat, r: nat, id: nat)
    ensures Remove(Count(Lock(View(rows, user), r, id), r), r)
            == View(if T.DeleteReplyFor(rows, user, id).Deleted? then rows - {id} else rows, user)
  {
    var s := View(rows, user);
    if id in rows && rows[id].user == user {
      var t := Lock(s, r, id);
      assert t == s.(open := map[r := Locked(id)]);
      var u := Count(t, r);
      if T.DeleteReplyFor(rows, user, id).Deleted? {
        assert u == s.(open := map[r := Counted(id)]);
        assert Remove(u, r).open == map[];
        assert T.ActiveOf(rows - {id}, user) == s.active - {id};
        assert View(rows - {id}, user).others == s.others - {id};
      } else {
        assert u == s;
      }
    }
  }
}
