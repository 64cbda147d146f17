/** Stage data on its way into a funnel: the model-output validator of the LLM service and the
    processor's own check, and what the two together guarantee about positions and tasks. */
module StageData {
  import opened Json

  const STAGE_COUNT := 4
  const ALLOWED_STAGE_KEYS: set<string> := {"position", "channel", "explanation", "actionPrompt", "tasks"}
  const MAX_FIELD_LENGTH := 2000
  const TASKS_MIN := 2
  const TASKS_MAX := 3
  const EXPLANATION_MIN := 10
  const EXPLANATION_MAX := 2000
  const ACTION_PROMPT_MIN := 10
  const ACTION_PROMPT_MAX := 500

  datatype TaskData = TaskData(name: string, taskText: string)
  datatype StageData = StageData(position: int, channel: string, explanation: string,
                                 actionPrompt: string, tasks: seq<TaskData>)

  // ----- what the two sources (LLM validator, template engine) both deliver -----

  predicate SourceStage(sd: StageData) {
    && 1 <= sd.position <= STAGE_COUNT
    && sd.channel != ""
    && |sd.explanation| <= MAX_FIELD_LENGTH
    && |sd.actionPrompt| <= MAX_FIELD_LENGTH
    && TASKS_MIN <= |sd.tasks| <= TASKS_MAX
    && forall t | t in sd.tasks :: t.name != "" && t.taskText != ""
  }

  predicate FromSource(data: seq<StageData>) {
    |data| == STAGE_COUNT && forall sd | sd in data :: SourceStage(sd)
  }

  predicate DistinctPositions(data: seq<StageData>) {
    forall i, j | 0 <= i < j < |data| :: data[i].position != data[j].position
  }

  // ----- the LLM service's validator -----

  function ParseTask(item: Json): Option<TaskData> {
    match (item.GetString("name"), item.GetString("taskText"))
    case (Some(name), Some(text)) =>
      if IsBlank(name) || IsBlank(text) then None else Some(TaskData(name, text))
    case _ => None
  }

  /** The stage a raw item stands for, when every field passes. */
  function ParseStage(item: Json): Option<StageData> {
    match (item.Get("position"), item.GetString("channel"), item.GetString("explanation"),
           item.GetString("actionPrompt"), item.Get("tasks"))
    case (Some(Number(n)), Some(channel), Some(explanation), Some(actionPrompt), Some(Arr(raw))) =>
      if !n.IsInteger() || n.Below(1) || n.Above(4) then None
      else if IsBlank(channel) then None
      else if !(EXPLANATION_MIN <= |explanation| <= EXPLANATION_MAX) then None
      else if !(ACTION_PROMPT_MIN <= |actionPrompt| <= ACTION_PROMPT_MAX) then None
      else if !(TASKS_MIN <= |raw| <= TASKS_MAX) then None
      else if forall t | t in raw :: ParseTask(t).Some? then
        Some(StageData(n.value.Floor, channel, explanation, actionPrompt,
                       seq(|raw|, i requires 0 <= i < |raw| => ParseTask(raw[i]).value)))
      else None
    case _ => None
  }

  method ValidateStage(item: Json) returns (stage: Option<StageData>)
    ensures stage == ParseStage(item)
  {
    var position, channel := item.Get("position"), item.GetString("channel");
    var explanation, actionPrompt := item.GetString("explanation"), item.GetString("actionPrompt");
    if !(position.Some? && position.value.Number?) {
      return None;
    }
    var n := position.value.n;
    if !n.IsInteger() || n.Below(1) || n.Above(4) {
      return None;
    }
    if channel.None? || IsBlank(channel.value) {
      return None;
    }
    if explanation.None? || |explanation.value| < EXPLANATION_MIN || |explanation.value| > EXPLANATION_MAX {
      return None;
    }
    if actionPrompt.None? || |actionPrompt.value| < ACTION_PROMPT_MIN || |actionPrompt.value| > ACTION_PROMPT_MAX {
      return None;
    }
    var tasksField := item.Get("tasks");
    if !(tasksField.Some? && tasksField.value.Arr?) {
      return None;
    }
    var raw := tasksField.value.items;
    if |raw| < TASKS_MIN || |raw| > TASKS_MAX {
      return None;
    }
    var tasks := [];
    for i := 0 to |raw|
      invariant |tasks| == i
      invariant forall j | 0 <= j < i :: ParseTask(raw[j]) == Some(tasks[j])
    {
      var task := ParseTask(raw[i]);
      if task.None? {
        return None;
      }
      tasks := tasks + [task.value];
    }
    stage := Some(StageData(n.value.Floor, channel.value, explanation.value, actionPrompt.value, tasks));
    assert tasks == seq(|raw|, i requires 0 <= i < |raw| => ParseTask(raw[i]).value);
  }

  // `validated.sort((a, b) => a.position - b.position)`

  function InsertByPosition(sd: StageData, sorted: seq<StageData>): seq<StageData> {
    if sorted == [] || sd.position <= sorted[0].position then [sd] + sorted
    else [sorted[0]] + InsertByPosition(sd, sorted[1..])
  }

  function SortByPosition(data: seq<StageData>): seq<StageData> {
    if data == [] then [] else InsertByPosition(data[0], SortByPosition(data[1..]))
  }

  predicate Sorted(data: seq<StageData>) {
    forall i, j | 0 <= i <= j < |data| :: data[i].position <= data[j].position
  }

  lemma {:induction false} InsertKeepsAll(sd: StageData, sorted: seq<StageData>)
    ensures multiset(InsertByPosition(sd, sorted)) == multiset(sorted) + multiset{sd}
  {
    if sorted != [] && sd.position > sorted[0].position {
      InsertKeepsAll(sd, sorted[1..]);
      assert sorted == [sorted[0]] + sorted[1..];
    }
  }

  lemma {:induction false} InsertKeepsSorted(sd: StageData, sorted: seq<StageData>)
    requires Sorted(sorted)
    ensures Sorted(InsertByPosition(sd, sorted))
  {
    if sorted != [] && sd.position > sorted[0].position {
      InsertKeepsSorted(sd, sorted[1..]);
      InsertKeepsAll(sd, sorted[1..]);
      var rest := InsertByPosition(sd, sorted[1..]);
      forall k | 0 <= k < |rest|
        ensures sorted[0].position <= rest[k].position
      {
        assert rest[k] in multiset(rest);
        assert rest[k] == sd || rest[k] in multiset(sorted[1..]);
        if rest[k] != sd {
          assert rest[k] in sorted[1..];
        }
      }
    }
  }

  lemma {:induction false} SortSorts(data: seq<StageData>)
    ensures Sorted(SortByPosition(data))
    ensures multiset(SortByPosition(data)) == multiset(data)
  {
    if data != [] {
      SortSorts(data[1..]);
      InsertKeepsSorted(data[0], SortByPosition(data[1..]));
      InsertKeepsAll(data[0], SortByPosition(data[1..]));
      assert data == [data[0]] + data[1..];
    }
  }

  /** Four stages, each of which parses. */
  predicate LlmAccepts(root: Option<Json>) {
    root.Some? && match root.value.Get("stages")
                  case Some(Arr(items)) => |items| == STAGE_COUNT && forall it | it in items :: ParseStage(it).Some?
                  case _ => false
  }

  function ParsedStages(items: seq<Json>): seq<StageData>
    requires forall it | it in items :: ParseStage(it).Some?
  {
    seq(|items|, i requires 0 <= i < |items| => ParseStage(items[i]).value)
  }

  /** `root` is the outcome of JSON.parse on the stripped text, None when that throws. */
  method ValidateLlmOutput(root: Option<Json>) returns (stages: Option<seq<StageData>>)
    ensures stages.Some? <==> LlmAccepts(root)
    ensures stages.Some? ==>
              && FromSource(stages.value) && Sorted(stages.value)
              && multiset(stages.value) == multiset(ParsedStages(root.value.Get("stages").value.items))
  {
    if root.None? {
      return None;
    }
    var field := root.value.Get("stages");
    if !(field.Some? && field.value.Arr?) {
      return None;
    }
    var items := field.value.items;
    if |items| != STAGE_COUNT {
      return None;
    }
    var validated := [];
    for i := 0 to |items|
      invariant |validated| == i
      invariant forall j | 0 <= j < i :: ParseStage(items[j]) == Some(validated[j])
    {
      var stage := ValidateStage(items[i]);
      if stage.None? {
        return None;
      }
      validated := validated + [stage.value];
    }
    assert forall it | it in items :: ParseStage(it).Some?;
    assert validated == ParsedStages(items);
    var sorted := SortByPosition(validated);
    SortSorts(validated);
    SortedIsFromSource(items, sorted);
    assert |sorted| == |multiset(sorted)| == |validated|;
    stages := Some(sorted);
  }

  lemma SortedIsFromSource(items: seq<Json>, sorted: seq<StageData>)
    requires forall it | it in items :: ParseStage(it).Some?
    requires multiset(sorted) == multiset(ParsedStages(items))
    ensures forall sd | sd in sorted :: SourceStage(sd)
  {
    var parsed := ParsedStages(items);
    forall sd | sd in sorted
      ensures SourceStage(sd)
    {
      assert sd in multiset(sorted);
      assert sd in parsed;
      var j :| 0 <= j < |parsed| && parsed[j] == sd;
      ParsedStageIsFromSource(items[j]);
    }
  }

  /** The raw item's own field of that kind. */
  predicate HasString(item: Json, key: string) {
    item.Obj? && key in item.fields && item.fields[key].Str?
  }

  predicate HasList(item: Json, key: string) {
    item.Obj? && key in item.fields && item.fields[key].Arr?
  }

  /** A whole number from 1 to 4. */
  predicate HasPosition(item: Json) {
    item.Obj? && "position" in item.fields
    && match item.fields["position"]
       case Number(Fin(x)) => x == 1.0 || x == 2.0 || x == 3.0 || x == 4.0
       case _ => false
  }

  /** Name and text are there and have more than white space in them. */
  predicate NamedTask(task: Json) {
    && HasString(task, "name") && HasString(task, "taskText")
    && !IsBlank(task.fields["name"].s) && !IsBlank(task.fields["taskText"].s)
  }

  lemma ParsedTaskReads(task: Json)
    ensures ParseTask(task).Some? <==> NamedTask(task)
    ensures NamedTask(task) ==> ParseTask(task) == Some(TaskData(task.fields["name"].s, task.fields["taskText"].s))
  {
  }

  lemma PositionReads(item: Json)
    requires item.Get("position").Some? && item.Get("position").value.Number?
    ensures var n := item.Get("position").value.n;
            && (HasPosition(item) <==> n.IsInteger() && !n.Below(1) && !n.Above(4))
            && (HasPosition(item) ==> n.Fin? && n.value.Floor as real == n.value)
  {
    var n := item.Get("position").value.n;
    if n.IsInteger() && !n.Below(1) && !n.Above(4) {
      assert n.value.Floor == 1 || n.value.Floor == 2 || n.value.Floor == 3 || n.value.Floor == 4;
    }
  }

  /** Exactly these items parse. */
  lemma ParsesExactlyWhen(item: Json)
    ensures ParseStage(item).Some? <==>
              && HasPosition(item)
              && HasString(item, "channel") && !IsBlank(item.fields["channel"].s)
              && HasString(item, "explanation") && 10 <= |item.fields["explanation"].s| <= 2000
              && HasString(item, "actionPrompt") && 10 <= |item.fields["actionPrompt"].s| <= 500
              && HasList(item, "tasks") && 2 <= |item.fields["tasks"].items| <= 3
              && forall t | t in item.fields["tasks"].items :: NamedTask(t)
  {
    if item.Get("position").Some? && item.Get("position").value.Number? {
      PositionReads(item);
    }
    if HasList(item, "tasks") {
      forall t | t in item.fields["tasks"].items
        ensures ParseTask(t).Some? <==> NamedTask(t)
      {
        ParsedTaskReads(t);
      }
    }
  }

  /** And each parsed field is the item's own field of that name. */
  lemma ParsedFieldsKeepTheirPlaces(item: Json)
    requires ParseStage(item).Some?
    ensures HasPosition(item) && HasString(item, "channel") && HasString(item, "explanation")
    ensures HasString(item, "actionPrompt") && HasList(item, "tasks")
    ensures var sd, tasks := ParseStage(item).value, item.fields["tasks"].items;
            && item.fields["position"].n.value == sd.position as real
            && sd.channel == item.fields["channel"].s && sd.explanation == item.fields["explanation"].s
            && sd.actionPrompt == item.fields["actionPrompt"].s && |sd.tasks| == |tasks|
            && forall i | 0 <= i < |tasks| ::
                 && NamedTask(tasks[i])
                 && sd.tasks[i].name == tasks[i].fields["name"].s
                 && sd.tasks[i].taskText == tasks[i].fields["taskText"].s
  {
    ParsesExactlyWhen(item);
    PositionReads(item);
    var tasks := item.fields["tasks"].items;
    forall i | 0 <= i < |tasks|
      ensures ParseTask(tasks[i]).Some? && NamedTask(tasks[i])
    {
      assert tasks[i] in tasks;
      ParsedTaskReads(tasks[i]);
    }
  }

  lemma ParsedStageIsFromSource(item: Json)
    requires ParseStage(item).Some?
    ensures SourceStage(ParseStage(item).value)
  {
    var raw := item.Get("tasks").value.items;
    var sd := ParseStage(item).value;
    assert IsBlank("");
    forall t | t in sd.tasks
      ensures t.name != "" && t.taskText != ""
    {
      var i :| 0 <= i < |sd.tasks| && sd.tasks[i] == t;
      assert raw[i] in raw;
    }
  }

  // ----- the processor's check -----

  datatype StageError =
    | WrongCount | NotAnObject | UnexpectedField | InvalidPosition | DuplicatePosition | ChannelRequired
    | TasksNotArray | TaskNameMissing | TaskTextMissing
    | ExplanationNotString | ActionPromptNotString | ExplanationTooLong | ActionPromptTooLong

  predicate NonEmptyString(v: Option<Json>) {
    v.Some? && v.value.Str? && v.value.s != ""
  }

  predicate TaskOk(task: Json) {
    NonEmptyString(task.Get("name")) && NonEmptyString(task.Get("taskText"))
  }

  predicate PositionOk(stage: Json) {
    match stage.Get("position")
    case Some(Number(n)) => !n.Below(1) && !n.Above(STAGE_COUNT)
    case _ => false
  }

  /** Everything the processor asks of one stage on its own. */
  predicate StageOk(stage: Json) {
    && stage.Obj? && stage.fields.Keys <= ALLOWED_STAGE_KEYS
    && PositionOk(stage)
    && NonEmptyString(stage.Get("channel"))
    && (match stage.Get("tasks")
        case Some(Arr(tasks)) => forall t | t in tasks :: TaskOk(t)
        case _ => false)
    && stage.GetString("explanation").Some? && |stage.GetString("explanation").value| <= MAX_FIELD_LENGTH
    && stage.GetString("actionPrompt").Some? && |stage.GetString("actionPrompt").value| <= MAX_FIELD_LENGTH
  }

  function PositionOf(stage: Json): Num
    requires PositionOk(stage)
  {
    stage.Get("position").value.n
  }

  /** The first `n` stages pass, with pairwise different positions. */
  predicate PrefixOk(items: seq<Json>, n: nat)
    requires n <= |items|
  {
    && (forall i | 0 <= i < n :: StageOk(items[i]))
    && (forall i, j | 0 <= i < j < n :: PositionOf(items[i]) != PositionOf(items[j]))
  }

  predicate ValidStageData(data: Json) {
    data.Arr? && |data.items| == STAGE_COUNT && PrefixOk(data.items, STAGE_COUNT)
  }

  // How far a stage gets through the checks.

  predicate Placed(stage: Json, positions: set<Num>) {
    && stage.Obj? && stage.fields.Keys <= ALLOWED_STAGE_KEYS
    && PositionOk(stage) && PositionOf(stage) !in positions
  }

  predicate WithChannel(stage: Json, positions: set<Num>) {
    Placed(stage, positions) && NonEmptyString(stage.Get("channel"))
  }

  function TasksOf(stage: Json): Option<seq<Json>> {
    match stage.Get("tasks") case Some(Arr(tasks)) => Some(tasks) case _ => None
  }

  predicate FirstBadTask(stage: Json, i: nat) {
    && TasksOf(stage).Some? && i < |TasksOf(stage).value| && !TaskOk(TasksOf(stage).value[i])
    && forall j | 0 <= j < i :: TaskOk(TasksOf(stage).value[j])
  }

  predicate LacksName(stage: Json, i: nat) {
    FirstBadTask(stage, i) && !NonEmptyString(TasksOf(stage).value[i].Get("name"))
  }

  predicate LacksText(stage: Json, i: nat) {
    FirstBadTask(stage, i) && NonEmptyString(TasksOf(stage).value[i].Get("name"))
  }

  predicate WithTasks(stage: Json, positions: set<Num>) {
    && WithChannel(stage, positions) && TasksOf(stage).Some?
    && forall t | t in TasksOf(stage).value :: TaskOk(t)
  }

  /** The checks on one stage, in the processor's order. `positions` holds the positions already seen. */
  method CheckStage(stage: Json, positions: set<Num>) returns (error: Option<StageError>)
    ensures error.None? <==> StageOk(stage) && PositionOf(stage) !in positions
    ensures error != Some(WrongCount)
    ensures error == Some(NotAnObject) <==> !stage.Obj?
    ensures error == Some(UnexpectedField) <==>
              stage.Obj? && exists key | key in stage.fields ::
                key !in ["position", "channel", "explanation", "actionPrompt", "tasks"]
    ensures error == Some(InvalidPosition) <==>
              stage.Obj? && stage.fields.Keys <= ALLOWED_STAGE_KEYS && !PositionOk(stage)
    ensures error == Some(DuplicatePosition) <==>
              stage.Obj? && stage.fields.Keys <= ALLOWED_STAGE_KEYS && PositionOk(stage)
              && PositionOf(stage) in positions
    ensures error == Some(ChannelRequired) <==> Placed(stage, positions) && !NonEmptyString(stage.Get("channel"))
    ensures error == Some(TasksNotArray) <==> WithChannel(stage, positions) && TasksOf(stage).None?
    ensures error == Some(TaskNameMissing) ==> WithChannel(stage, positions) && exists i: nat :: LacksName(stage, i)
    ensures error == Some(TaskTextMissing) ==> WithChannel(stage, positions) && exists i: nat :: LacksText(stage, i)
    ensures error == Some(ExplanationNotString) <==>
              WithTasks(stage, positions) && stage.GetString("explanation").None?
    ensures error == Some(ActionPromptNotString) <==>
              WithTasks(stage, positions) && stage.GetString("explanation").Some?
              && stage.GetString("actionPrompt").None?
    ensures error == Some(ExplanationTooLong) <==>
              WithTasks(stage, positions) && stage.GetString("explanation").Some?
              && stage.GetString("actionPrompt").Some? && |stage.GetString("explanation").value| > 2000
    ensures error == Some(ActionPromptTooLong) ==>
              WithTasks(stage, positions) && stage.GetString("actionPrompt").Some?
              && |stage.GetString("actionPrompt").value| > 2000
  {
    if !stage.Obj? {
      return Some(NotAnObject);
    }
    if !(stage.fields.Keys <= ALLOWED_STAGE_KEYS) {
      return Some(UnexpectedField);
    }
    if !PositionOk(stage) {
      return Some(InvalidPosition);
    }
    if PositionOf(stage) in positions {
      return Some(DuplicatePosition);
    }
    if !NonEmptyString(stage.Get("channel")) {
      return Some(ChannelRequired);
    }
    var tasksField := stage.Get("tasks");
    if !(tasksField.Some? && tasksField.value.Arr?) {
      return Some(TasksNotArray);
    }
    var tasks := tasksField.value.items;
    for i := 0 to |tasks|
      invariant forall j | 0 <= j < i :: TaskOk(tasks[j])
    {
      assert tasks[i] in tasks;
      assert !TaskOk(tasks[i]) ==> LacksName(stage, i) || LacksText(stage, i);
      if !NonEmptyString(tasks[i].Get("name")) {
        return Some(TaskNameMissing);
      }
      if !NonEmptyString(tasks[i].Get("taskText")) {
        return Some(TaskTextMissing);
      }
    }
    var explanation, actionPrompt := stage.GetString("explanation"), stage.GetString("actionPrompt");
    if explanation.None? {
      return Some(ExplanationNotString);
    }
    if actionPrompt.None? {
      return Some(ActionPromptNotString);
    }
    if |explanation.value| > MAX_FIELD_LENGTH {
      return Some(ExplanationTooLong);
    }
    if |actionPrompt.value| > MAX_FIELD_LENGTH {
      return Some(ActionPromptTooLong);
    }
    error := None;
  }

  /** Rejects at the first stage that fails; `at` is its index. */
  method ValidateStageData(data: Json) returns (error: Option<StageError>, at: nat)
    ensures error.None? <==> ValidStageData(data)
    ensures error == Some(WrongCount) <==> !(data.Arr? && |data.items| == STAGE_COUNT)
    ensures error.Some? && error.value != WrongCount ==>
              at < STAGE_COUNT && PrefixOk(data.items, at) && !PrefixOk(data.items, at + 1)
  {
    at := 0;
    if !data.Arr? || |data.items| != STAGE_COUNT {
      return Some(WrongCount), 0;
    }
    var positions: set<Num> := {};
    while at < |data.items|
      invariant at <= |data.items|
      invariant PrefixOk(data.items, at)
      invariant forall n :: n in positions <==> exists i :: 0 <= i < at && n == PositionOf(data.items[i])
    {
      var rejected := CheckStage(data.items[at], positions);
      if rejected.Some? {
        return rejected, at;
      }
      positions := positions + {PositionOf(data.items[at])};
      at := at + 1;
    }
    error := None;
  }

  /** What the processor accepts on its own. */
  lemma StageOkReads(stage: Json)
    ensures StageOk(stage) <==>
              && stage.Obj?
              && (forall key | key in stage.fields ::
                    key in ["position", "channel", "explanation", "actionPrompt", "tasks"])
              && "position" in stage.fields && stage.fields["position"].Number?
              && (match stage.fields["position"].n
                  case Fin(x) => 1.0 <= x <= 4.0
                  case NaN => true
                  case _ => false)
              && HasString(stage, "channel") && stage.fields["channel"].s != ""
              && HasString(stage, "explanation") && |stage.fields["explanation"].s| <= 2000
              && HasString(stage, "actionPrompt") && |stage.fields["actionPrompt"].s| <= 2000
              && HasList(stage, "tasks")
              && forall t | t in stage.fields["tasks"].items ::
                   && HasString(t, "name") && t.fields["name"].s != ""
                   && HasString(t, "taskText") && t.fields["taskText"].s != ""
  {
    AllowedKeys(stage);
    if HasList(stage, "tasks") {
      forall t | t in stage.fields["tasks"].items
        ensures TaskOk(t) <==> HasString(t, "name") && t.fields["name"].s != ""
                               && HasString(t, "taskText") && t.fields["taskText"].s != ""
      {
      }
    }
  }

  lemma AllowedKeys(stage: Json)
    ensures stage.Obj? ==>
              (stage.fields.Keys <= ALLOWED_STAGE_KEYS <==>
                 forall key | key in stage.fields ::
                   key in ["position", "channel", "explanation", "actionPrompt", "tasks"])
  {
  }

  // ----- typed stage data as the JavaScript value that reaches the processor -----

  function EncodeTask(t: TaskData): Json {
    Obj(map["name" := Str(t.name), "taskText" := Str(t.taskText)])
  }

  function EncodeStage(sd: StageData): Json {
    Obj(map["position" := Number(Fin(sd.position as real)), "channel" := Str(sd.channel),
            "explanation" := Str(sd.explanation), "actionPrompt" := Str(sd.actionPrompt),
            "tasks" := Arr(seq(|sd.tasks|, i requires 0 <= i < |sd.tasks| => EncodeTask(sd.tasks[i])))])
  }

  function Encode(data: seq<StageData>): Json {
    Arr(seq(|data|, i requires 0 <= i < |data| => EncodeStage(data[i])))
  }

  lemma SourceStagePasses(sd: StageData)
    requires SourceStage(sd)
    ensures StageOk(EncodeStage(sd)) && PositionOf(EncodeStage(sd)) == Fin(sd.position as real)
  {
    var stage := EncodeStage(sd);
    var tasks := stage.Get("tasks").value.items;
    forall t | t in tasks
      ensures TaskOk(t)
    {
      var i :| 0 <= i < |tasks| && tasks[i] == t;
      assert sd.tasks[i] in sd.tasks;
    }
  }

  /** On source output the processor's check amounts to distinct positions. */
  lemma SourcePassesExactlyWhenDistinct(data: seq<StageData>)
    requires FromSource(data)
    ensures ValidStageData(Encode(data)) <==> DistinctPositions(data)
  {
    var items := Encode(data).items;
    forall i | 0 <= i < |data|
      ensures StageOk(items[i]) && PositionOf(items[i]) == Fin(data[i].position as real)
    {
      SourceStagePasses(data[i]);
    }
    if DistinctPositions(data) {
      forall i, j | 0 <= i < j < STAGE_COUNT
        ensures PositionOf(items[i]) != PositionOf(items[j])
      {
        assert data[i].position != data[j].position;
      }
    } else {
      var i, j :| 0 <= i < j < |data| && data[i].position == data[j].position;
      assert PositionOf(items[i]) == PositionOf(items[j]);
    }
  }

  // ----- pigeonhole -----

  function Positions(data: seq<StageData>): set<int> {
    set sd | sd in data :: sd.position
  }

  /** Distinct positions in range: every position 1..4 is taken by exactly one stage. */
  lemma SourcePositionsArePermutation(data: seq<StageData>)
    requires FromSource(data) && DistinctPositions(data)
    ensures Positions(data) == {1, 2, 3, 4}
  {
    var a, b, c, d := data[0], data[1], data[2], data[3];
    assert a in data && b in data && c in data && d in data;
    assert {a.position, b.position, c.position, d.position} == {1, 2, 3, 4};
  }

  /** LLM output that also passes the processor carries the positions 1, 2, 3, 4 in order. */
  lemma LlmOutputIsOrdered(data: seq<StageData>)
    requires FromSource(data) && Sorted(data) && ValidStageData(Encode(data))
    ensures forall i | 0 <= i < STAGE_COUNT :: data[i].position == i + 1
  {
    SourcePassesExactlyWhenDistinct(data);
    assert data[0] in data && data[1] in data && data[2] in data && data[3] in data;
    assert data[0].position < data[1].position < data[2].position < data[3].position;
  }

  /** Without the sources' integer test the processor's check does not give a permutation:
      it does so exactly when all four positions are integers. */
  lemma ProcessorGivesPermutationExactlyForIntegers(data: Json)
    requires ValidStageData(data)
    ensures (set i | 0 <= i < STAGE_COUNT :: PositionOf(data.items[i])) == {Fin(1.0), Fin(2.0), Fin(3.0), Fin(4.0)}
            <==> forall i | 0 <= i < STAGE_COUNT :: PositionOf(data.items[i]).IsInteger()
  {
    var it := data.items;
    var p0, p1, p2, p3 := PositionOf(it[0]), PositionOf(it[1]), PositionOf(it[2]), PositionOf(it[3]);
    assert (set i | 0 <= i < STAGE_COUNT :: PositionOf(it[i])) == {p0, p1, p2, p3};
    FourInRange(p0, p1, p2, p3);
    assert (forall i | 0 <= i < STAGE_COUNT :: PositionOf(it[i]).IsInteger())
      <==> p0.IsInteger() && p1.IsInteger() && p2.IsInteger() && p3.IsInteger();
  }

  lemma FourInRange(p0: Num, p1: Num, p2: Num, p3: Num)
    requires p0 != p1 && p0 != p2 && p0 != p3 && p1 != p2 && p1 != p3 && p2 != p3
    requires forall p | p in [p0, p1, p2, p3] :: !p.Below(1) && !p.Above(4)
    ensures {p0, p1, p2, p3} == {Fin(1.0), Fin(2.0), Fin(3.0), Fin(4.0)}
            <==> p0.IsInteger() && p1.IsInteger() && p2.IsInteger() && p3.IsInteger()
  {
    var all := {Fin(1.0), Fin(2.0), Fin(3.0), Fin(4.0)};
    assert p0 in [p0, p1, p2, p3] && p1 in [p0, p1, p2, p3] && p2 in [p0, p1, p2, p3] && p3 in [p0, p1, p2, p3];
    IntegerIsOneOfFour(p0);
    IntegerIsOneOfFour(p1);
    IntegerIsOneOfFour(p2);
    IntegerIsOneOfFour(p3);
    if {p0, p1, p2, p3} == all {
      assert p0 in all && p1 in all && p2 in all && p3 in all;
    }
  }

  lemma IntegerIsOneOfFour(p: Num)
    requires !p.Below(1) && !p.Above(4)
    ensures p.IsInteger() <==> p in {Fin(1.0), Fin(2.0), Fin(3.0), Fin(4.0)}
  {
    if p.IsInteger() {
      var k := p.value.Floor;
      assert p.value == k as real;
      assert 1 <= k <= 4;
    }
  }

  /** Both tests on a fractional position, which the processor lets through. */
  lemma ProcessorAcceptsFractionalPosition()
    ensures exists data :: ValidStageData(data) && PositionOf(data.items[1]) == Fin(1.5)
  {
    var a := SomeStageAt(Fin(1.0));
    var b := SomeStageAt(Fin(1.5));
    var c := SomeStageAt(Fin(2.0));
    var d := SomeStageAt(NaN);
    var data := Arr([a, b, c, d]);
    assert PrefixOk(data.items, STAGE_COUNT);
  }

  lemma SomeStageAt(position: Num) returns (stage: Json)
    requires !position.Below(1) && !position.Above(STAGE_COUNT)
    ensures StageOk(stage) && PositionOf(stage) == position
  {
    stage := Obj(map["position" := Number(position), "channel" := Str("c"), "explanation" := Str(""),
                     "actionPrompt" := Str(""), "tasks" := Arr([])]);
    assert stage.Get("position") == Some(Number(position));
    assert stage.Get("channel") == Some(Str("c"));
    assert stage.GetString("explanation") == Some("") && stage.GetString("actionPrompt") == Some("");
  }
}
