/** The rows of one funnel and the single SQL statements that touch them, as functions on the row. */
module FunnelRows {
  import opened Json
  import opened StageData

  datatype FunnelStatus = Generating | Active | Failed
  /** `Current` is the status the database calls 'active'. */
  datatype StageStatus = Locked | Current | Complete
  datatype Task = Task(name: string, text: string, position: nat, complete: bool)
  datatype Stage = Stage(status: StageStatus, channel: string, explanation: string, actionPrompt: string,
                         unlockedAt: Option<int>, completedAt: Option<int>, tasks: seq<Task>)
  /** `stages[p - 1]` is the stage at position p; stage ids are identified with positions. */
  datatype Funnel = Funnel(user: nat, status: FunnelStatus, stages: seq<Stage>)

  const CHANNEL_COLUMN_WIDTH := 100
  const TASK_NAME_MAX := 80

  predicate HasStage(f: Funnel, p: int) {
    1 <= p <= |f.stages|
  }

  function StageAt(f: Funnel, p: int): Stage
    requires HasStage(f, p)
  {
    f.stages[p - 1]
  }

  function WithStage(f: Funnel, p: int, stage: Stage): Funnel
    requires HasStage(f, p)
  {
    f.(stages := f.stages[p - 1 := stage])
  }

  // ----- createGeneration -----

  function BlankStage(status: StageStatus, unlockedAt: Option<int>): Stage {
    Stage(status, "", "", "", unlockedAt, None, [])
  }

  function CreatedFunnel(user: nat, at: int): Funnel {
    Funnel(user, Generating,
           [BlankStage(Current, Some(at)), BlankStage(Locked, None), BlankStage(Locked, None),
               BlankStage(Locked, None)])
  }

  // ----- guarded stage updates; affected-row count first -----

  function CompleteIfCurrent(f: Funnel, p: int, at: int): (nat, Funnel) {
    if HasStage(f, p) && StageAt(f, p).status.Current? then
      (1, WithStage(f, p, StageAt(f, p).(status := Complete, completedAt := Some(at))))
    else (0, f)
  }

  function UnlockIfLocked(f: Funnel, p: int, at: int): (nat, Funnel) {
    if HasStage(f, p) && StageAt(f, p).status.Locked? then
      (1, WithStage(f, p, StageAt(f, p).(status := Current, unlockedAt := Some(at))))
    else (0, f)
  }

  function CountPending(tasks: seq<Task>): nat {
    if tasks == [] then 0 else (if tasks[0].complete then 0 else 1) + CountPending(tasks[1..])
  }

  predicate AllDone(tasks: seq<Task>) {
    forall t | t in tasks :: t.complete
  }

  lemma {:induction false} NothingPendingMeansAllDone(tasks: seq<Task>)
    ensures CountPending(tasks) == 0 <==> AllDone(tasks)
  {
    if tasks != [] {
      NothingPendingMeansAllDone(tasks[1..]);
      assert tasks == [tasks[0]] + tasks[1..];
    }
  }

  function SetTask(f: Funnel, p: int, i: nat, complete: bool): Funnel {
    if HasStage(f, p) && i < |StageAt(f, p).tasks| then
      var stage := StageAt(f, p);
      WithStage(f, p, stage.(tasks := stage.tasks[i := stage.tasks[i].(complete := complete)]))
    else f
  }

  // ----- the generation write -----

  function Texted(stage: Stage, sd: StageData): Stage {
    stage.(channel := sd.channel, explanation := sd.explanation, actionPrompt := sd.actionPrompt)
  }

  /** UPDATE funnel_stages ... WHERE funnel_id AND position */
  function WriteText(f: Funnel, sd: StageData): Funnel {
    if HasStage(f, sd.position) then WithStage(f, sd.position, Texted(StageAt(f, sd.position), sd)) else f
  }

  function WriteTexts(f: Funnel, data: seq<StageData>): Funnel {
    if data == [] then f else WriteText(WriteTexts(f, data[..|data| - 1]), data[|data| - 1])
  }

  function TaskRows(sd: StageData): seq<Task> {
    seq(|sd.tasks|, i requires 0 <= i < |sd.tasks| =>
      Task(if |sd.tasks[i].name| <= TASK_NAME_MAX then sd.tasks[i].name else sd.tasks[i].name[..TASK_NAME_MAX],
           sd.tasks[i].taskText, i + 1, false))
  }

  function InsertStageTasks(f: Funnel, sd: StageData): Funnel {
    if HasStage(f, sd.position)
    then WithStage(f, sd.position, StageAt(f, sd.position).(tasks := StageAt(f, sd.position).tasks + TaskRows(sd)))
    else f
  }

  function InsertTasks(f: Funnel, data: seq<StageData>): Funnel {
    if data == [] then f else InsertStageTasks(InsertTasks(f, data[..|data| - 1]), data[|data| - 1])
  }

  /** All statements of the generation transaction, in order. */
  function WriteFunnel(f: Funnel, data: seq<StageData>): Funnel {
    InsertTasks(WriteTexts(f, data), data).(status := Active)
  }

  /** What one stage looks like after the write, given the one entry for its position. */
  function Generated(stage: Stage, sd: StageData): Stage {
    Texted(stage, sd).(tasks := stage.tasks + TaskRows(sd))
  }

  lemma {:induction false} WriteTextsAt(f: Funnel, data: seq<StageData>, p: int)
    requires HasStage(f, p) && DistinctPositions(data)
    ensures |WriteTexts(f, data).stages| == |f.stages|
    ensures WriteTexts(f, data).user == f.user && WriteTexts(f, data).status == f.status
    ensures forall i | 0 <= i < |data| && data[i].position == p ::
              StageAt(WriteTexts(f, data), p) == Texted(StageAt(f, p), data[i])
    ensures (forall i | 0 <= i < |data| :: data[i].position != p) ==> StageAt(WriteTexts(f, data), p) == StageAt(f, p)
  {
    if data != [] {
      WriteTextsAt(f, data[..|data| - 1], p);
    }
  }

  lemma {:induction false} InsertTasksAt(f: Funnel, data: seq<StageData>, p: int)
    requires HasStage(f, p) && DistinctPositions(data)
    ensures |InsertTasks(f, data).stages| == |f.stages|
    ensures InsertTasks(f, data).user == f.user && InsertTasks(f, data).status == f.status
    ensures forall i | 0 <= i < |data| && data[i].position == p ::
              StageAt(InsertTasks(f, data), p) == StageAt(f, p).(tasks := StageAt(f, p).tasks + TaskRows(data[i]))
    ensures (forall i | 0 <= i < |data| :: data[i].position != p) ==> StageAt(InsertTasks(f, data), p) == StageAt(f, p)
  {
    if data != [] {
      InsertTasksAt(f, data[..|data| - 1], p);
    }
  }

  /** The write gives every stage the text and tasks of exactly the entry for its position. */
  lemma WriteTouchesEachStageOnce(f: Funnel, data: seq<StageData>, i: nat)
    requires |f.stages| == STAGE_COUNT && FromSource(data) && DistinctPositions(data) && i < |data|
    ensures |WriteFunnel(f, data).stages| == STAGE_COUNT && HasStage(f, data[i].position)
    ensures StageAt(WriteFunnel(f, data), data[i].position) == Generated(StageAt(f, data[i].position), data[i])
  {
    assert data[i] in data;
    WriteTextsAt(f, data, data[i].position);
    InsertTasksAt(WriteTexts(f, data), data, data[i].position);
  }

  // ----- the shape of a progressing funnel -----

  /** Stage i of a funnel with k completed stages, with its times. */
  predicate StageReads(stages: seq<Stage>, i: nat, k: nat)
    requires i < |stages|
  {
    var stage := stages[i];
    if i < k then
      && stage.status.Complete? && stage.unlockedAt.Some? && stage.completedAt.Some?
      && (i + 1 < |stages| ==> stages[i + 1].unlockedAt == stage.completedAt)
    else if i == k then
      stage.status.Current? && stage.unlockedAt.Some? && stage.completedAt.None?
    else
      stage.status.Locked? && stage.unlockedAt.None? && stage.completedAt.None?
  }

  /** COMPLETE k times, then one current stage (if any is left), then LOCKED. */
  predicate StagesRead(stages: seq<Stage>, k: nat) {
    forall i | 0 <= i < |stages| :: StageReads(stages, i, k)
  }

  lemma WritePreservesShape(f: Funnel, data: seq<StageData>, k: nat)
    requires |f.stages| == STAGE_COUNT && FromSource(data) && DistinctPositions(data)
    requires StagesRead(f.stages, k)
    ensures |WriteFunnel(f, data).stages| == STAGE_COUNT && StagesRead(WriteFunnel(f, data).stages, k)
    ensures forall st | st in WriteFunnel(f, data).stages :: |st.tasks| >= TASKS_MIN
  {
    var g := WriteFunnel(f, data);
    WriteTouchesEachStageOnce(f, data, 0);
    forall i | 0 <= i < STAGE_COUNT
      ensures g.stages[i].status == f.stages[i].status && g.stages[i].unlockedAt == f.stages[i].unlockedAt
      ensures g.stages[i].completedAt == f.stages[i].completedAt && |g.stages[i].tasks| >= TASKS_MIN
    {
      SourcePositionsArePermutation(data);
      assert i + 1 in Positions(data);
      var sd :| sd in data && sd.position == i + 1;
      var j :| 0 <= j < |data| && data[j] == sd;
      WriteTouchesEachStageOnce(f, data, j);
      assert g.stages[i] == Generated(f.stages[i], sd);
    }
    forall i | 0 <= i < STAGE_COUNT
      ensures StageReads(g.stages, i, k)
    {
      assert StageReads(f.stages, i, k);
    }
  }

  /** One completion followed by the unlock of the next stage moves the shape on by one. */
  lemma CompletionAdvancesShape(f: Funnel, k: nat, at: int)
    requires |f.stages| == STAGE_COUNT && k < STAGE_COUNT && StagesRead(f.stages, k)
    ensures CompleteIfCurrent(f, k + 1, at).0 == 1
    ensures UnlockIfLocked(f, k + 2, at).0 == (if k + 1 < STAGE_COUNT then 1 else 0)
    ensures var g := UnlockIfLocked(CompleteIfCurrent(f, k + 1, at).1, k + 2, at).1;
            |g.stages| == STAGE_COUNT && StagesRead(g.stages, k + 1)
  {
    assert StageReads(f.stages, k, k);
    assert k + 1 < STAGE_COUNT ==> StageReads(f.stages, k + 1, k);
    var h := CompleteIfCurrent(f, k + 1, at).1;
    assert h.stages == f.stages[k := f.stages[k].(status := Complete, completedAt := Some(at))];
    var g := UnlockIfLocked(h, k + 2, at).1;
    if k + 1 < STAGE_COUNT {
      assert g.stages == h.stages[k + 1 := h.stages[k + 1].(status := Current, unlockedAt := Some(at))];
    }
    var done := k + 1;
    forall i | 0 <= i < STAGE_COUNT
      ensures StageReads(g.stages, i, done)
    {
      assert StageReads(f.stages, i, k);
    }
  }
}
