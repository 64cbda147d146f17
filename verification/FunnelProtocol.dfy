/** One funnel under every interleaving: its creating transaction, the retried generation worker,
    reaper sweeps, deletes, task updates and any number of concurrent stage completions.
    Each action is one SQL statement (or one emission); an action that is not enabled, or that
    would wait for a row lock, leaves the state as it is. */
module FunnelProtocol {
  import opened Json
  import opened StageData
  import opened FunnelRows

  datatype Row = Uncommitted(user: nat) | Present(f: Funnel) | Absent

  /** Where the one live worker of the job stands (the queue's lock admits one). */
  datatype Worker =
    | Waiting
    | Prompted
    | Validated(data: seq<StageData>)
    | Opened(data: seq<StageData>)
    | Writing(data: seq<StageData>, next: nat, found: nat)
    | Inserted(data: seq<StageData>)
    | Flipped(data: seq<StageData>)
    | Published
    | Failing
    | Reporting
    | Finished

  datatype Reply =
    | NotFound | RequiresActiveFunnel | StageNotFound | AlreadyComplete | StageLocked
    | StageHasNoTasks | StageHasPendingTasks(pending: nat) | ConcurrentUpdate | Completed | Aborted

  /** One completeStage call. */
  datatype Request =
    | Asked(user: nat, p: int)
    | FunnelSeen(p: int)
    | StageSeen(p: int)
    | TasksSeen(p: int)
    | Marked(p: int, at: int)
    | Unlocked(p: int, at: int, affected: nat)
    | Committed(p: int)
    | Answered(reply: Reply)

  /** `inserts` counts committed task batches and `log` lists the committed completions in order;
      `completedEvents` and `generatedEvents` are what was emitted. */
  datatype State = State(
    row: Row, worker: Worker, attempts: nat, maxAttempts: nat,
    sweeps: nat, deleting: bool,
    reqs: map<nat, Request>, ticks: set<(int, nat, bool)>,
    inserts: nat, log: seq<int>,
    completedEvents: seq<int>, generatedEvents: nat, failedEvents: nat)

  function Initial(user: nat, maxAttempts: nat): State {
    State(Uncommitted(user), Waiting, 0, maxAttempts, 0, false, map[], {}, 0, [], [], 0, 0)
  }

  // ----- row locks held by open transactions -----

  predicate WorkerHolds(w: Worker, p: int) {
    match w
    case Writing(data, next, _) => exists i | 0 <= i < next && i < |data| :: data[i].position == p
    case Inserted(_) => true
    case Flipped(_) => true
    case _ => false
  }

  predicate Holds(q: Request, p: int) {
    match q
    case Marked(pos, _) => pos == p
    case Unlocked(pos, _, affected) => pos == p || (affected > 0 && pos + 1 == p)
    case _ => false
  }

  predicate InTransaction(q: Request) {
    q.Marked? || q.Unlocked?
  }

  predicate StageFree(s: State, r: nat, p: int) {
    && !WorkerHolds(s.worker, p)
    && forall q | q in s.reqs && q != r :: !Holds(s.reqs[q], p)
  }

  predicate NoStageLocked(s: State) {
    && !(s.worker.Inserted? || s.worker.Flipped? || (s.worker.Writing? && s.worker.next > 0))
    && forall q | q in s.reqs :: !InTransaction(s.reqs[q])
  }

  // ----- creation -----

  function CommitCreation(s: State, at: int): State {
    if s.row.Uncommitted? then s.(row := Present(CreatedFunnel(s.row.user, at))) else s
  }

  function RollBackCreation(s: State): State {
    if s.row.Uncommitted? then s.(row := Absent) else s
  }

  // ----- worker -----

  /** An attempt throws: the queue retries, or hands the job to the failure handler. */
  function Throw(s: State): State {
    s.(attempts := s.attempts + 1, worker := if s.attempts + 1 < s.maxAttempts then Waiting else Failing)
  }

  function StartAttempt(s: State): State {
    if !s.worker.Waiting? then s
    else match s.row
      case Present(f) => s.(worker := if f.status.Generating? then Prompted else Finished)
      case _ => if s.attempts == 0 then Throw(s) else s.(worker := Finished)
  }

  /** The model or the template delivers `data`; the processor's check decides. */
  function Generate(s: State, data: seq<StageData>): State {
    if !(s.worker.Prompted? && FromSource(data)) then s
    else if ValidStageData(Encode(data)) then s.(worker := Validated(data))
    else Throw(s)
  }

  function OpenWrite(s: State): State {
    if !s.worker.Validated? then s
    else s.(worker := if s.row.Present? then Opened(s.worker.data) else Finished)
  }

  function FindStages(s: State): State {
    if !s.worker.Opened? then s
    else match s.row
      case Present(f) => if f.stages == [] then Throw(s) else s.(worker := Writing(s.worker.data, 0, |f.stages|))
      case _ => s.(worker := Finished)
  }

  /** Worker requests carry no request number, so their own locks never bar them. */
  function WriteNext(s: State): State {
    match s.worker
    case Writing(data, next, found) =>
      if next >= |data| then s
      else if s.row.Present? && exists q | q in s.reqs :: Holds(s.reqs[q], data[next].position) then s
      else if s.row.Present? && |data[next].channel| > CHANNEL_COLUMN_WIDTH then Throw(s)
      else s.(worker := Writing(data, next + 1, found))
    case _ => s
  }

  /** A position without a stage throws; an insert for vanished stages violates the foreign key. */
  function InsertBatch(s: State): State {
    match s.worker
    case Writing(data, next, found) =>
      if next < |data| then s
      else if exists sd | sd in data :: !(1 <= sd.position <= found) then Throw(s)
      else if s.row.Present? then s.(worker := Inserted(data))
      else s.(worker := Finished)
    case _ => s
  }

  /** UPDATE funnels SET status = 'active' WHERE id, with no guard on the status. */
  function Flip(s: State): State {
    if !s.worker.Inserted? || (s.row.Present? && s.deleting) then s
    else s.(worker := if s.row.Present? then Flipped(s.worker.data) else Finished)
  }

  function CommitWrite(s: State): State {
    if s.worker.Flipped? && s.row.Present? then
      s.(row := Present(WriteFunnel(s.row.f, s.worker.data)), inserts := s.inserts + 1, worker := Published)
    else s
  }

  function PublishGenerated(s: State): State {
    if s.worker.Published? then s.(worker := Finished, generatedEvents := s.generatedEvents + 1) else s
  }

  /** Any statement of an attempt may throw; inside the failure handler errors are swallowed. */
  function WorkerError(s: State): State {
    if s.worker.Waiting? || s.worker.Finished? then s
    else if s.worker.Failing? || s.worker.Reporting? then s.(worker := Finished)
    else Throw(s)
  }

  function CheckFailure(s: State): State {
    if !s.worker.Failing? then s
    else s.(worker := if s.row.Present? && !s.row.f.status.Active? then Reporting else Finished)
  }

  function ReportFailure(s: State): State {
    if !s.worker.Reporting? || (s.row.Present? && s.deleting) then s
    else s.(worker := Finished, failedEvents := s.failedEvents + 1,
            row := if s.row.Present? then Present(s.row.f.(status := Failed)) else s.row)
  }

  // ----- reaper -----

  function SweepFind(s: State): State {
    if s.row.Present? && s.row.f.status.Generating? then s.(sweeps := s.sweeps + 1) else s
  }

  /** The guarded bulk UPDATE; the event goes out whether or not the row was changed. */
  function SweepMark(s: State): State {
    if s.sweeps == 0 || (s.row.Present? && (s.deleting || s.worker.Flipped?)) then s
    else s.(sweeps := s.sweeps - 1, failedEvents := s.failedEvents + 1,
            row := if s.row.Present? && s.row.f.status.Generating?
                   then Present(s.row.f.(status := Failed)) else s.row)
  }

  // ----- delete -----

  function LockForDelete(s: State): State {
    if s.row.Present? && !s.deleting && !s.worker.Flipped? then s.(deleting := true) else s
  }

  /** `othersActive` is the number of the user's other ACTIVE funnels. */
  function FinishDelete(s: State, othersActive: nat): State {
    if !(s.deleting && s.row.Present?) then s
    else if s.row.f.status.Active? && othersActive == 0 then s.(deleting := false)
    else if NoStageLocked(s) then s.(row := Absent, deleting := false)
    else s
  }

  function AbandonDelete(s: State): State {
    s.(deleting := false)
  }

  // ----- task updates: check, then write -----

  function AllowTick(s: State, p: int, i: nat, complete: bool): State {
    if s.row.Present? && HasStage(s.row.f, p) && !StageAt(s.row.f, p).status.Locked?
       && i < |StageAt(s.row.f, p).tasks|
    then s.(ticks := s.ticks + {(p, i, complete)}) else s
  }

  function WriteTick(s: State, p: int, i: nat, complete: bool): State {
    if (p, i, complete) !in s.ticks then s
    else s.(ticks := s.ticks - {(p, i, complete)},
            row := if s.row.Present? then Present(SetTask(s.row.f, p, i, complete)) else s.row)
  }

  // ----- completeStage -----

  function Put(s: State, r: nat, q: Request): State {
    s.(reqs := s.reqs[r := q])
  }

  function Ask(s: State, r: nat, user: nat, p: int): State {
    if r in s.reqs then s else Put(s, r, Asked(user, p))
  }

  function ReadFunnel(s: State, r: nat): State {
    if !(r in s.reqs && s.reqs[r].Asked?) then s
    else if !s.row.Present? || s.row.f.user != s.reqs[r].user then Put(s, r, Answered(NotFound))
    else if !s.row.f.status.Active? then Put(s, r, Answered(RequiresActiveFunnel))
    else Put(s, r, FunnelSeen(s.reqs[r].p))
  }

  function ReadStage(s: State, r: nat): State {
    if !(r in s.reqs && s.reqs[r].FunnelSeen?) then s
    else
      var p := s.reqs[r].p;
      if !s.row.Present? || !HasStage(s.row.f, p) then Put(s, r, Answered(StageNotFound))
      else match StageAt(s.row.f, p).status
        case Complete => Put(s, r, Answered(AlreadyComplete))
        case Locked => Put(s, r, Answered(StageLocked))
        case Current => Put(s, r, StageSeen(p))
  }

  function CountTasks(s: State, r: nat): State {
    if !(r in s.reqs && s.reqs[r].StageSeen?) then s
    else
      var p := s.reqs[r].p;
      var tasks := if s.row.Present? && HasStage(s.row.f, p) then StageAt(s.row.f, p).tasks else [];
      if tasks == [] then Put(s, r, Answered(StageHasNoTasks))
      else if CountPending(tasks) > 0 then Put(s, r, Answered(StageHasPendingTasks(CountPending(tasks))))
      else Put(s, r, TasksSeen(p))
  }

  /** updateStageStatusIfActive: the new status stays private until the commit. */
  function MarkComplete(s: State, r: nat, at: int): State {
    if !(r in s.reqs && s.reqs[r].TasksSeen?) then s
    else
      var p := s.reqs[r].p;
      if !s.row.Present? then Put(s, r, Answered(ConcurrentUpdate))
      else if !StageFree(s, r, p) then s
      else if CompleteIfCurrent(s.row.f, p, at).0 == 1 then Put(s, r, Marked(p, at))
      else if HasStage(s.row.f, p) && StageAt(s.row.f, p).status.Complete? then Put(s, r, Answered(AlreadyComplete))
      else Put(s, r, Answered(ConcurrentUpdate))
  }

  /** activateStageIfLocked, whose affected-row count the caller never looks at. */
  function UnlockNext(s: State, r: nat): State {
    if !(r in s.reqs && s.reqs[r].Marked?) then s
    else
      var p, at := s.reqs[r].p, s.reqs[r].at;
      if !s.row.Present? || !HasStage(s.row.f, p + 1) then Put(s, r, Unlocked(p, at, 0))
      else if !StageFree(s, r, p + 1) then s
      else Put(s, r, Unlocked(p, at, UnlockIfLocked(s.row.f, p + 1, at).0))
  }

  function AfterCompletion(f: Funnel, p: int, at: int, affected: nat): Funnel {
    var g := CompleteIfCurrent(f, p, at).1;
    if affected > 0 then UnlockIfLocked(g, p + 1, at).1 else g
  }

  function CommitCompletion(s: State, r: nat): State {
    if !(r in s.reqs && s.reqs[r].Unlocked? && s.row.Present?) then s
    else
      var q := s.reqs[r];
      Put(s, r, Committed(q.p)).(row := Present(AfterCompletion(s.row.f, q.p, q.at, q.affected)), log := s.log + [q.p])
  }

  function PublishCompleted(s: State, r: nat): State {
    if !(r in s.reqs && s.reqs[r].Committed?) then s
    else Put(s, r, Answered(Completed)).(completedEvents := s.completedEvents + [s.reqs[r].p])
  }

  /** A request dies: before its commit the transaction rolls back, after it the event is lost. */
  function AbortRequest(s: State, r: nat): State {
    if r in s.reqs && !s.reqs[r].Answered? then Put(s, r, Answered(Aborted)) else s
  }

  // ----- runs -----

  datatype Action =
    | ACommitCreation(at: int) | ARollBackCreation
    | AStartAttempt | AGenerate(data: seq<StageData>) | AOpenWrite | AFindStages | AWriteNext | AInsertBatch
    | AFlip | ACommitWrite | APublishGenerated | AWorkerError | ACheckFailure | AReportFailure
    | ASweepFind | ASweepMark
    | ALockForDelete | AFinishDelete(othersActive: nat) | AAbandonDelete
    | AAllowTick(p: int, i: nat, complete: bool) | AWriteTick(p: int, i: nat, complete: bool)
    | AAsk(r: nat, user: nat, p: int) | AReadFunnel(r: nat) | AReadStage(r: nat) | ACountTasks(r: nat)
    | AMarkComplete(r: nat, at: int) | AUnlockNext(r: nat) | ACommitCompletion(r: nat)
    | APublishCompleted(r: nat) | AAbortRequest(r: nat)

  function Step(s: State, a: Action): State {
    match a
    case ACommitCreation(at) => CommitCreation(s, at)
    case ARollBackCreation => RollBackCreation(s)
    case AStartAttempt => StartAttempt(s)
    case AGenerate(data) => Generate(s, data)
    case AOpenWrite => OpenWrite(s)
    case AFindStages => FindStages(s)
    case AWriteNext => WriteNext(s)
    case AInsertBatch => InsertBatch(s)
    case AFlip => Flip(s)
    case ACommitWrite => CommitWrite(s)
    case APublishGenerated => PublishGenerated(s)
    case AWorkerError => WorkerError(s)
    case ACheckFailure => CheckFailure(s)
    case AReportFailure => ReportFailure(s)
    case ASweepFind => SweepFind(s)
    case ASweepMark => SweepMark(s)
    case ALockForDelete => LockForDelete(s)
    case AFinishDelete(others) => FinishDelete(s, others)
    case AAbandonDelete => AbandonDelete(s)
    case AAllowTick(p, i, c) => AllowTick(s, p, i, c)
    case AWriteTick(p, i, c) => WriteTick(s, p, i, c)
    case AAsk(r, user, p) => Ask(s, r, user, p)
    case AReadFunnel(r) => ReadFunnel(s, r)
    case AReadStage(r) => ReadStage(s, r)
    case ACountTasks(r) => CountTasks(s, r)
    case AMarkComplete(r, at) => MarkComplete(s, r, at)
    case AUnlockNext(r) => UnlockNext(s, r)
    case ACommitCompletion(r) => CommitCompletion(s, r)
    case APublishCompleted(r) => PublishCompleted(s, r)
    case AAbortRequest(r) => AbortRequest(s, r)
  }

  function Run(s: State, acts: seq<Action>): State
    decreases |acts|
  {
    if acts == [] then s else Run(Step(s, acts[0]), acts[1..])
  }

  // ----- the invariant -----

  predicate OneTo(log: seq<int>) {
    forall i | 0 <= i < |log| :: log[i] == i + 1
  }

  predicate TasksMatchStatus(f: Funnel) {
    if f.status.Active? then forall st | st in f.stages :: |st.tasks| >= TASKS_MIN
    else forall st | st in f.stages :: st.tasks == []
  }

  predicate RowInv(s: State) {
    && s.inserts <= 1 && |s.log| <= STAGE_COUNT && OneTo(s.log) && (s.inserts == 0 ==> s.log == [])
    && match s.row
       case Uncommitted(_) => s.inserts == 0
       case Present(f) => && |f.stages| == STAGE_COUNT && StagesRead(f.stages, |s.log|)
                          && TasksMatchStatus(f) && (f.status.Active? <==> s.inserts == 1)
       case Absent => true
  }

  predicate GoodData(data: seq<StageData>) {
    FromSource(data) && DistinctPositions(data)
  }

  predicate WorkerInv(s: State) {
    && s.generatedEvents <= s.inserts
    && match s.worker
       case Prompted => s.inserts == 0 && !s.row.Uncommitted?
       case Validated(data) => s.inserts == 0 && !s.row.Uncommitted? && GoodData(data)
       case Opened(data) => s.inserts == 0 && !s.row.Uncommitted? && GoodData(data)
       case Writing(data, next, found) =>
         s.inserts == 0 && !s.row.Uncommitted? && GoodData(data) && next <= |data| && found == STAGE_COUNT
       case Inserted(data) => s.inserts == 0 && s.row.Present? && GoodData(data)
       case Flipped(data) => s.inserts == 0 && s.row.Present? && GoodData(data) && !s.deleting
       case Published => s.inserts == 1 && s.generatedEvents == 0
       case Reporting => s.inserts == 0
       case _ => true
  }

  predicate RequestInv(s: State, q: Request) {
    match q
    case FunnelSeen(_) => s.inserts == 1
    case StageSeen(p) => s.inserts == 1 && 1 <= p <= STAGE_COUNT && p <= |s.log| + 1
    case TasksSeen(p) => s.inserts == 1 && 1 <= p <= STAGE_COUNT && p <= |s.log| + 1
    case Marked(p, _) => s.inserts == 1 && s.row.Present? && p == |s.log| + 1 <= STAGE_COUNT
    case Unlocked(p, _, affected) =>
      && s.inserts == 1 && s.row.Present? && p == |s.log| + 1 <= STAGE_COUNT
      && affected == (if p < STAGE_COUNT then 1 else 0)
    case Committed(p) => 1 <= p <= |s.log| && p !in s.completedEvents
    case _ => true
  }

  predicate RequestsInv(s: State) {
    && (forall r | r in s.reqs :: RequestInv(s, s.reqs[r]))
    && (forall r, t | r in s.reqs && t in s.reqs && r != t :: !(InTransaction(s.reqs[r]) && InTransaction(s.reqs[t])))
    && (forall r, t | r in s.reqs && t in s.reqs && r != t :: s.reqs[r].Committed? && s.reqs[t].Committed? ==>
         s.reqs[r].p != s.reqs[t].p)
  }

  predicate NoRepeats(events: seq<int>) {
    forall i, j | 0 <= i < j < |events| :: events[i] != events[j]
  }

  predicate EventsInv(s: State) {
    && NoRepeats(s.completedEvents)
    && forall p | p in s.completedEvents :: 1 <= p <= |s.log|
  }

  predicate Inv(s: State) {
    RowInv(s) && WorkerInv(s) && RequestsInv(s) && EventsInv(s)
  }

  // ----- every action keeps the invariant -----

  /** Requests look only at these parts of the state. */
  lemma RequestsInvFrame(s: State, t: State)
    requires RequestsInv(s) && EventsInv(s)
    requires t.reqs == s.reqs && t.inserts == s.inserts && t.log == s.log && t.completedEvents == s.completedEvents
    requires s.row.Present? ==> t.row.Present?
    ensures RequestsInv(t) && EventsInv(t)
  {
    forall r | r in t.reqs
      ensures RequestInv(t, t.reqs[r])
    {
      assert RequestInv(s, s.reqs[r]);
    }
  }

  /** Replacing one request by one that is neither committed nor holding locks beside another. */
  lemma PutKeepsInv(s: State, r: nat, q: Request)
    requires Inv(s) && RequestInv(s, q) && !q.Committed?
    requires InTransaction(q) ==> forall t | t in s.reqs && t != r :: !InTransaction(s.reqs[t])
    ensures Inv(Put(s, r, q))
  {
    var s' := Put(s, r, q);
    forall t | t in s'.reqs
      ensures RequestInv(s', s'.reqs[t])
    {
      assert t != r ==> RequestInv(s, s.reqs[t]);
    }
  }

  lemma GenerateKeepsInv(s: State, data: seq<StageData>)
    requires Inv(s)
    ensures Inv(Generate(s, data))
  {
    if FromSource(data) {
      SourcePassesExactlyWhenDistinct(data);
    }
    RequestsInvFrame(s, Generate(s, data));
  }

  lemma AttemptKeepsInv(s: State)
    requires Inv(s)
    ensures Inv(StartAttempt(s)) && Inv(OpenWrite(s))
  {
    RequestsInvFrame(s, StartAttempt(s));
    RequestsInvFrame(s, OpenWrite(s));
  }

  lemma FindStagesKeepsInv(s: State)
    requires Inv(s)
    ensures Inv(FindStages(s))
  {
    RequestsInvFrame(s, FindStages(s));
  }

  lemma WritingKeepsInv(s: State)
    requires Inv(s)
    ensures Inv(WriteNext(s)) && Inv(InsertBatch(s))
  {
    RequestsInvFrame(s, WriteNext(s));
    RequestsInvFrame(s, InsertBatch(s));
  }

  lemma FlipKeepsInv(s: State)
    requires Inv(s)
    ensures Inv(Flip(s)) && Inv(PublishGenerated(s))
  {
    RequestsInvFrame(s, Flip(s));
    RequestsInvFrame(s, PublishGenerated(s));
  }

  lemma CommitWriteKeepsInv(s: State)
    requires Inv(s)
    ensures Inv(CommitWrite(s))
  {
    if s.worker.Flipped? && s.row.Present? {
      WritePreservesShape(s.row.f, s.worker.data, 0);
      var t := CommitWrite(s);
      forall r | r in t.reqs
        ensures RequestInv(t, t.reqs[r])
      {
        assert RequestInv(s, s.reqs[r]);
      }
    }
  }

  lemma FailureKeepsInv(s: State)
    requires Inv(s)
    ensures Inv(CheckFailure(s)) && Inv(ReportFailure(s))
  {
    RequestsInvFrame(s, CheckFailure(s));
    RequestsInvFrame(s, ReportFailure(s));
  }

  lemma WorkerErrorKeepsInv(s: State)
    requires Inv(s)
    ensures Inv(WorkerError(s))
  {
    RequestsInvFrame(s, WorkerError(s));
  }

  lemma CreationKeepsInv(s: State, at: int)
    requires Inv(s)
    ensures Inv(CommitCreation(s, at)) && Inv(RollBackCreation(s))
  {
    RequestsInvFrame(s, CommitCreation(s, at));
    RequestsInvFrame(s, RollBackCreation(s));
  }

  lemma SweepsKeepInv(s: State)
    requires Inv(s)
    ensures Inv(SweepFind(s)) && Inv(SweepMark(s))
  {
    RequestsInvFrame(s, SweepFind(s));
    RequestsInvFrame(s, SweepMark(s));
  }

  /** The delete goes through only while no stage row is locked, so no open completion loses its rows. */
  lemma DeleteKeepsInv(s: State, othersActive: nat)
    requires Inv(s)
    ensures Inv(LockForDelete(s)) && Inv(FinishDelete(s, othersActive)) && Inv(AbandonDelete(s))
  {
    RequestsInvFrame(s, LockForDelete(s));
    RequestsInvFrame(s, AbandonDelete(s));
    var t := FinishDelete(s, othersActive);
    forall r | r in t.reqs
      ensures RequestInv(t, t.reqs[r])
    {
      assert RequestInv(s, s.reqs[r]);
    }
  }

  lemma SetTaskKeepsShape(f: Funnel, p: int, i: nat, complete: bool, k: nat)
    requires StagesRead(f.stages, k) && TasksMatchStatus(f)
    ensures var g := SetTask(f, p, i, complete);
            StagesRead(g.stages, k) && TasksMatchStatus(g) && |g.stages| == |f.stages| && g.status == f.status
  {
    var g := SetTask(f, p, i, complete);
    forall j | 0 <= j < |g.stages|
      ensures StageReads(g.stages, j, k) && |g.stages[j].tasks| == |f.stages[j].tasks|
    {
      assert StageReads(f.stages, j, k);
    }
  }

  lemma TicksKeepInv(s: State, p: int, i: nat, complete: bool)
    requires Inv(s)
    ensures Inv(AllowTick(s, p, i, complete)) && Inv(WriteTick(s, p, i, complete))
  {
    RequestsInvFrame(s, AllowTick(s, p, i, complete));
    RequestsInvFrame(s, WriteTick(s, p, i, complete));
    if s.row.Present? {
      SetTaskKeepsShape(s.row.f, p, i, complete, |s.log|);
    }
  }

  lemma ReadsKeepInv(s: State, r: nat, user: nat, p: int)
    requires Inv(s)
    ensures Inv(Ask(s, r, user, p)) && Inv(ReadFunnel(s, r)) && Inv(AbortRequest(s, r))
  {
    PutKeepsInv(s, r, Asked(user, p));
    PutKeepsInv(s, r, Answered(NotFound));
    PutKeepsInv(s, r, Answered(RequiresActiveFunnel));
    PutKeepsInv(s, r, Answered(Aborted));
    if r in s.reqs && s.reqs[r].Asked? && s.row.Present? && s.row.f.status.Active? {
      PutKeepsInv(s, r, FunnelSeen(s.reqs[r].p));
    }
  }

  lemma ReadStageKeepsInv(s: State, r: nat)
    requires Inv(s)
    ensures Inv(ReadStage(s, r))
  {
    if r in s.reqs && s.reqs[r].FunnelSeen? {
      var p := s.reqs[r].p;
      assert RequestInv(s, s.reqs[r]);
      if s.row.Present? && HasStage(s.row.f, p) {
        assert StageReads(s.row.f.stages, p - 1, |s.log|);
        if StageAt(s.row.f, p).status.Current? {
          PutKeepsInv(s, r, StageSeen(p));
        }
      }
      PutKeepsInv(s, r, Answered(StageNotFound));
      PutKeepsInv(s, r, Answered(AlreadyComplete));
      PutKeepsInv(s, r, Answered(StageLocked));
    }
  }

  lemma CountTasksKeepsInv(s: State, r: nat)
    requires Inv(s)
    ensures Inv(CountTasks(s, r))
  {
    if r in s.reqs && s.reqs[r].StageSeen? {
      assert RequestInv(s, s.reqs[r]);
      PutKeepsInv(s, r, TasksSeen(s.reqs[r].p));
      PutKeepsInv(s, r, Answered(StageHasNoTasks));
      if CountTasks(s, r) != s && CountTasks(s, r).reqs[r].Answered? {
        PutKeepsInv(s, r, CountTasks(s, r).reqs[r]);
      }
    }
  }

  /** An open completion holds the lock of the one current stage, so a second one has to wait. */
  lemma MarkCompleteKeepsInv(s: State, r: nat, at: int)
    requires Inv(s)
    ensures Inv(MarkComplete(s, r, at))
  {
    if r in s.reqs && s.reqs[r].TasksSeen? {
      var p := s.reqs[r].p;
      assert RequestInv(s, s.reqs[r]);
      PutKeepsInv(s, r, Answered(ConcurrentUpdate));
      PutKeepsInv(s, r, Answered(AlreadyComplete));
      if s.row.Present? && StageFree(s, r, p) && CompleteIfCurrent(s.row.f, p, at).0 == 1 {
        assert StageReads(s.row.f.stages, p - 1, |s.log|);
        forall t | t in s.reqs && t != r
          ensures !InTransaction(s.reqs[t])
        {
          assert RequestInv(s, s.reqs[t]) && !Holds(s.reqs[t], p);
        }
        PutKeepsInv(s, r, Marked(p, at));
      }
    }
  }

  lemma UnlockNextKeepsInv(s: State, r: nat)
    requires Inv(s)
    ensures Inv(UnlockNext(s, r))
  {
    if r in s.reqs && s.reqs[r].Marked? {
      var p, at := s.reqs[r].p, s.reqs[r].at;
      assert RequestInv(s, s.reqs[r]) && InTransaction(s.reqs[r]);
      if HasStage(s.row.f, p + 1) {
        assert StageReads(s.row.f.stages, p, |s.log|);
        PutKeepsInv(s, r, Unlocked(p, at, 1));
      } else {
        PutKeepsInv(s, r, Unlocked(p, at, 0));
      }
    }
  }

  lemma CommitCompletionKeepsInv(s: State, r: nat)
    requires Inv(s)
    ensures Inv(CommitCompletion(s, r))
  {
    if r in s.reqs && s.reqs[r].Unlocked? && s.row.Present? {
      var q, t := s.reqs[r], CommitCompletion(s, r);
      assert RequestInv(s, q) && InTransaction(q);
      CompletionAdvancesShape(s.row.f, |s.log|, q.at);
      assert t.row.f == UnlockIfLocked(CompleteIfCurrent(s.row.f, q.p, q.at).1, q.p + 1, q.at).1;
      assert TasksMatchStatus(t.row.f);
      assert RowInv(t) && WorkerInv(t) && EventsInv(t);
      CommittedRequestsKeepInv(s, t, r);
    }
  }

  lemma CommittedRequestsKeepInv(s: State, t: State, r: nat)
    requires RequestsInv(s) && EventsInv(s) && r in s.reqs && s.reqs[r].Unlocked?
    requires t.reqs == s.reqs[r := Committed(s.reqs[r].p)] && |t.log| == |s.log| + 1 && t.inserts == s.inserts
    requires t.completedEvents == s.completedEvents
    ensures RequestsInv(t)
  {
    assert RequestInv(s, s.reqs[r]);
    forall u | u in t.reqs
      ensures RequestInv(t, t.reqs[u]) && (u != r ==> !InTransaction(t.reqs[u]))
      ensures u != r && t.reqs[u].Committed? ==> t.reqs[u].p != t.reqs[r].p
    {
      assert u != r ==> RequestInv(s, s.reqs[u]) && !InTransaction(s.reqs[u]);
    }
  }

  lemma PublishCompletedKeepsInv(s: State, r: nat)
    requires Inv(s)
    ensures Inv(PublishCompleted(s, r))
  {
    if r in s.reqs && s.reqs[r].Committed? {
      var t := PublishCompleted(s, r);
      assert RequestInv(s, s.reqs[r]);
      forall u | u in t.reqs
        ensures RequestInv(t, t.reqs[u])
      {
        assert u != r ==> RequestInv(s, s.reqs[u]);
      }
    }
  }

  lemma RequestReadKeepsInv(s: State, a: Action)
    requires Inv(s) && (a.AAsk? || a.AReadFunnel? || a.AReadStage? || a.ACountTasks? || a.AAbortRequest?)
    ensures Inv(Step(s, a))
  {
    match a
    case AAsk(r, user, p) => ReadsKeepInv(s, r, user, p);
    case AReadFunnel(r) => ReadsKeepInv(s, r, 0, 0);
    case AReadStage(r) => ReadStageKeepsInv(s, r);
    case ACountTasks(r) => CountTasksKeepsInv(s, r);
    case AAbortRequest(r) => ReadsKeepInv(s, r, 0, 0);
  }

  lemma RequestWriteKeepsInv(s: State, a: Action)
    requires Inv(s) && (a.AMarkComplete? || a.AUnlockNext? || a.ACommitCompletion? || a.APublishCompleted?)
    ensures Inv(Step(s, a))
  {
    match a
    case AMarkComplete(r, at) => MarkCompleteKeepsInv(s, r, at);
    case AUnlockNext(r) => UnlockNextKeepsInv(s, r);
    case ACommitCompletion(r) => CommitCompletionKeepsInv(s, r);
    case APublishCompleted(r) => PublishCompletedKeepsInv(s, r);
  }

  predicate OnWorker(a: Action) {
    a.AStartAttempt? || a.AGenerate? || a.AOpenWrite? || a.AFindStages? || a.AWriteNext? || a.AInsertBatch? || a.AFlip?
    || a.ACommitWrite? || a.APublishGenerated? || a.AWorkerError? || a.ACheckFailure? || a.AReportFailure?
  }

  lemma WorkerStepKeepsInv(s: State, a: Action)
    requires Inv(s) && OnWorker(a)
    ensures Inv(Step(s, a))
  {
    match a
    case AStartAttempt => AttemptKeepsInv(s);
    case AGenerate(data) => GenerateKeepsInv(s, data);
    case AOpenWrite => AttemptKeepsInv(s);
    case AFindStages => FindStagesKeepsInv(s);
    case AWriteNext => WritingKeepsInv(s);
    case AInsertBatch => WritingKeepsInv(s);
    case AFlip => FlipKeepsInv(s);
    case ACommitWrite => CommitWriteKeepsInv(s);
    case APublishGenerated => FlipKeepsInv(s);
    case AWorkerError => WorkerErrorKeepsInv(s);
    case ACheckFailure => FailureKeepsInv(s);
    case AReportFailure => FailureKeepsInv(s);
  }

  lemma OtherStepKeepsInv(s: State, a: Action)
    requires Inv(s)
    requires a.ACommitCreation? || a.ARollBackCreation? || a.ASweepFind? || a.ASweepMark? || a.ALockForDelete?
             || a.AFinishDelete? || a.AAbandonDelete? || a.AAllowTick? || a.AWriteTick?
    ensures Inv(Step(s, a))
  {
    match a
    case ACommitCreation(at) => CreationKeepsInv(s, at);
    case ARollBackCreation => CreationKeepsInv(s, 0);
    case ASweepFind => SweepsKeepInv(s);
    case ASweepMark => SweepsKeepInv(s);
    case ALockForDelete => DeleteKeepsInv(s, 0);
    case AFinishDelete(others) => DeleteKeepsInv(s, others);
    case AAbandonDelete => DeleteKeepsInv(s, 0);
    case AAllowTick(p, i, c) => TicksKeepInv(s, p, i, c);
    case AWriteTick(p, i, c) => TicksKeepInv(s, p, i, c);
  }

  lemma StepKeepsInv(s: State, a: Action)
    requires Inv(s)
    ensures Inv(Step(s, a))
  {
    if OnWorker(a) {
      WorkerStepKeepsInv(s, a);
    } else if a.AMarkComplete? || a.AUnlockNext? || a.ACommitCompletion? || a.APublishCompleted? {
      RequestWriteKeepsInv(s, a);
    } else if a.AAsk? || a.AReadFunnel? || a.AReadStage? || a.ACountTasks? || a.AAbortRequest? {
      RequestReadKeepsInv(s, a);
    } else {
      OtherStepKeepsInv(s, a);
    }
  }
}
