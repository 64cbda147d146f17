/** One user's wizard sessions: starts under the advisory lock, saves and completions, interleaved
    statement by statement with the clock. */
module WizardProtocol {
  import opened Json
  import opened WizardAnswers

  const SESSION_MS := 24 * 60 * 60 * 1000

  datatype Status = InProgress | Completed | Expired
  datatype Session = Session(status: Status, steps: nat, answers: Answers, at: int) {
    function ExpiresAt(): int {
      at + SESSION_MS
    }
  }

  /** A save that passed its checks on `loaded`. */
  datatype Save = Save(id: nat, loaded: Session, step: nat, answer: Json)

  /** `rows` in order of creation; saved[i] collects the steps saved successfully on session i;
      `holder` owns the advisory lock and found no session at its clock reading. */
  datatype State = State(rows: seq<Session>, saved: seq<set<nat>>, now: int, starts: map<nat, int>,
                         holder: Option<nat>, saves: map<nat, Save>, completes: map<nat, nat>)

  function Initial(now: int): State {
    State([], [], now, map[], None, map[], map[])
  }

  // ----- starting -----

  predicate LiveSession(row: Session, at: int) {
    row.status.InProgress? && row.ExpiresAt() > at
  }

  /** The most recent live session. */
  function FindActive(rows: seq<Session>, at: int): (r: Option<nat>)
    ensures r.None? <==> forall row | row in rows :: !LiveSession(row, at)
    ensures r.Some? ==>
              && r.value < |rows| && LiveSession(rows[r.value], at)
              && forall i | r.value < i < |rows| :: !LiveSession(rows[i], at)
  {
    if rows == [] then None
    else
      var last := |rows| - 1;
      if LiveSession(rows[last], at) then Some(last) else FindActive(rows[..last], at)
  }

  function Fresh(at: int): Session {
    Session(InProgress, 0, map[], at)
  }

  // ----- the two handlers' decisions -----

  datatype SaveReply = SaveForbidden | SaveConflict | SequenceError | SaveThrown | ValidationError | Saved

  function SaveChecks(row: Session, now: int, step: nat, answer: Json): SaveReply {
    var described, presence := HasDescription(Answer(row.answers, 1)), TagsOrNotes(Answer(row.answers, 2));
    if row.status.Expired? || row.ExpiresAt() < now then SaveForbidden
    else if row.status.Completed? then SaveConflict
    else if step >= 2 && !described then SequenceError
    else if step == 3 && presence.Throws? then SaveThrown
    else if step == 3 && presence.Absent? then SequenceError
    else if !ValidAnswer(step, answer) then ValidationError
    else Saved
  }

  function WithAnswer(row: Session, step: nat, answer: Json): Session {
    var answers := row.answers[step := answer];
    row.(answers := answers, steps := |answers|)
  }

  datatype CompleteReply =
    | CompleteForbidden | CompleteConflict | CompleteRefused(missing: seq<nat>) | CompleteThrown | CompleteAccepted

  function CompleteChecks(row: Session, now: int): CompleteReply {
    if row.status.Expired? || row.ExpiresAt() <= now then CompleteForbidden
    else if row.status.Completed? then CompleteConflict
    else match Judged(row.answers)
      case Complete => CompleteAccepted
      case Incomplete(missing) => CompleteRefused(missing)
      case Thrown => CompleteThrown
  }

  // ----- steps -----

  datatype Action =
    | ATick(ms: nat)
    | AReadClock(r: nat) | AFind(r: nat) | AInsert | ARollBack
    | ALoadSave(r: nat, id: nat, step: nat, answer: Json) | AWriteSave(r: nat)
    | ALoadComplete(r: nat, id: nat) | AWriteComplete(r: nat)
    | AExpire(id: nat)

  /** Takes the lock and looks for a live session at the clock reading; a hit ends the transaction. */
  function Find(s: State, r: nat): State {
    if r in s.starts && s.holder.None? && FindActive(s.rows, s.starts[r]).None? then s.(holder := Some(r)) else s
  }

  function Insert(s: State): State {
    if s.holder.Some? && s.holder.value in s.starts
    then s.(rows := s.rows + [Fresh(s.starts[s.holder.value])], saved := s.saved + [{}], holder := None)
    else s
  }

  function LoadSave(s: State, r: nat, id: nat, step: nat, answer: Json): State {
    if id < |s.rows| && 1 <= step <= STEP_COUNT && SaveChecks(s.rows[id], s.now, step, answer).Saved?
    then s.(saves := s.saves[r := Save(id, s.rows[id], step, answer)])
    else s
  }

  /** Writes the whole row back as it was loaded, with the new answer. */
  function WriteSave(s: State, r: nat): State {
    if r in s.saves && s.saves[r].id < |s.rows| && |s.saved| == |s.rows| then
      var w := s.saves[r];
      s.(rows := s.rows[w.id := WithAnswer(w.loaded, w.step, w.answer)],
         saved := s.saved[w.id := s.saved[w.id] + {w.step}],
         saves := s.saves - {r})
    else s
  }

  function LoadComplete(s: State, r: nat, id: nat): State {
    if id < |s.rows| && CompleteChecks(s.rows[id], s.now).CompleteAccepted?
    then s.(completes := s.completes[r := id])
    else s
  }

  /** UPDATE by id, without a guard. */
  function WriteComplete(s: State, r: nat): State {
    if r in s.completes && s.completes[r] < |s.rows|
    then s.(rows := s.rows[s.completes[r] := s.rows[s.completes[r]].(status := Completed)],
            completes := s.completes - {r})
    else s
  }

  function Step(s: State, a: Action): State {
    match a
    case ATick(ms) => s.(now := s.now + ms)
    case AReadClock(r) => if r in s.starts then s else s.(starts := s.starts[r := s.now])
    case AFind(r) => Find(s, r)
    case AInsert => Insert(s)
    case ARollBack => s.(holder := None)
    case ALoadSave(r, id, step, answer) => LoadSave(s, r, id, step, answer)
    case AWriteSave(r) => WriteSave(s, r)
    case ALoadComplete(r, id) => LoadComplete(s, r, id)
    case AWriteComplete(r) => WriteComplete(s, r)
    case AExpire(id) => if id < |s.rows| then s.(rows := s.rows[id := s.rows[id].(status := Expired)]) else s
  }

  function Run(s: State, acts: seq<Action>): State
    decreases |acts|
  {
    if acts == [] then s else Run(Step(s, acts[0]), acts[1..])
  }

  // ----- what holds under every interleaving -----

  predicate RowOk(row: Session) {
    ValidPrefix(row.answers) && row.steps == |row.answers|
  }

  /** What a successful check of a save says, whatever the time. */
  predicate InOrder(row: Session, step: nat, answer: Json) {
    && ValidAnswer(step, answer)
    && (step >= 2 ==> HasDescription(Answer(row.answers, 1)))
    && (step == 3 ==> TagsOrNotes(Answer(row.answers, 2)).Present?)
  }

  predicate SaveOk(w: Save) {
    RowOk(w.loaded) && w.loaded.status.InProgress? && InOrder(w.loaded, w.step, w.answer)
  }

  predicate AnswersInv(s: State) {
    && |s.saved| == |s.rows|
    && (forall row | row in s.rows :: RowOk(row))
    && (forall r | r in s.saves :: SaveOk(s.saves[r]))
  }

  lemma SaveKeepsRowOk(row: Session, step: nat, answer: Json)
    requires RowOk(row) && InOrder(row, step, answer)
    ensures RowOk(WithAnswer(row, step, answer))
  {
    ValidatedPassesChecks(row.answers);
    PrefixGrows(row.answers, step, answer);
  }

  /** Which reply a save gets: it may still come at the very end of the 24 hours. */
  lemma SaveReplies(row: Session, now: int, step: nat, answer: Json)
    requires RowOk(row) && 1 <= step <= 3
    ensures var reply, late := SaveChecks(row, now, step, answer), row.at + 86_400_000 < now;
            var early := (step >= 2 && 1 !in row.answers) || (step == 3 && 2 !in row.answers);
            && (reply.SaveForbidden? <==> row.status.Expired? || late)
            && (reply.SaveConflict? <==> row.status.Completed? && !late)
            && (reply.SequenceError? <==> row.status.InProgress? && !late && early)
            && (reply.ValidationError? <==> row.status.InProgress? && !late && !early && !ValidAnswer(step, answer))
            && (reply.Saved? <==> row.status.InProgress? && !late && !early && ValidAnswer(step, answer))
  {
    ValidatedPassesChecks(row.answers);
  }

  /** A save stores the answer under its step and nothing else. */
  lemma SavedRowReads(row: Session, step: nat, answer: Json)
    requires RowOk(row)
    ensures var after := WithAnswer(row, step, answer);
            && after.status == row.status && after.at == row.at
            && after.answers.Keys == row.answers.Keys + {step} && after.answers[step] == answer
            && (forall other | other in row.answers && other != step :: after.answers[other] == row.answers[other])
            && after.steps == row.steps + if step in row.answers then 0 else 1
  {
    assert (row.answers[step := answer]).Keys == row.answers.Keys + {step};
    assert |row.answers| == |row.answers.Keys| && |row.answers[step := answer]| == |(row.answers[step := answer]).Keys|;
  }

  /** Which reply a completion gets: it has to come before the 24 hours are over. */
  lemma CompleteReplies(row: Session, now: int)
    requires RowOk(row)
    ensures var reply, late := CompleteChecks(row, now), row.at + 86_400_000 <= now;
            && (reply.CompleteForbidden? <==> row.status.Expired? || late)
            && (reply.CompleteConflict? <==> row.status.Completed? && !late)
            && (reply.CompleteAccepted? <==> row.status.InProgress? && !late && row.answers.Keys == {1, 2, 3})
            && (row.status.InProgress? && !late && row.answers.Keys != {1, 2, 3} ==>
                  reply == CompleteRefused(if 2 in row.answers then [3] else if 1 in row.answers then [2, 3]
                                           else [1, 2, 3]))
  {
    CompleteExactlyWhenAllAnswered(row.answers);
  }

  /** A new session: in progress, nothing answered, and live for exactly 24 hours. */
  lemma FreshSessionReads(at: int, now: int)
    ensures Fresh(at).status.InProgress? && Fresh(at).steps == 0 && Fresh(at).answers == map[]
    ensures LiveSession(Fresh(at), now) <==> now < at + 86_400_000
  {
  }

  lemma LoadSaveKeepsAnswersInv(s: State, r: nat, id: nat, step: nat, answer: Json)
    requires AnswersInv(s)
    ensures AnswersInv(LoadSave(s, r, id, step, answer))
  {
    if id < |s.rows| {
      assert s.rows[id] in s.rows;
    }
  }

  lemma WriteSaveKeepsAnswersInv(s: State, r: nat)
    requires AnswersInv(s)
    ensures AnswersInv(WriteSave(s, r))
  {
    if r in s.saves {
      var w := s.saves[r];
      SaveKeepsRowOk(w.loaded, w.step, w.answer);
    }
  }

  lemma StatusKeepsAnswersInv(s: State, id: nat, status: Status)
    requires AnswersInv(s) && id < |s.rows|
    ensures AnswersInv(s.(rows := s.rows[id := s.rows[id].(status := status)]))
  {
    assert s.rows[id] in s.rows;
  }

  lemma StepKeepsAnswersInv(s: State, a: Action)
    requires AnswersInv(s)
    ensures AnswersInv(Step(s, a))
  {
    match a
    case ALoadSave(r, id, step, answer) => LoadSaveKeepsAnswersInv(s, r, id, step, answer);
    case AWriteSave(r) => WriteSaveKeepsAnswersInv(s, r);
    case AExpire(id) =>
      if id < |s.rows| {
        StatusKeepsAnswersInv(s, id, Expired);
      }
    case AWriteComplete(r) =>
      if r in s.completes && s.completes[r] < |s.rows| {
        StatusKeepsAnswersInv(s, s.completes[r], Completed);
      }
    case _ =>
  }

  // ----- which steps were saved, under every interleaving -----

  predicate KnownInv(s: State) {
    && |s.saved| == |s.rows|
    && (forall i | 0 <= i < |s.rows| :: RowKnown(s.rows[i], s.saved[i]))
    && (forall r | r in s.saves :: SaveKnown(s, s.saves[r]))
    && (forall r | r in s.completes :: s.completes[r] < |s.rows| && s.saved[s.completes[r]] == {1, 2, 3})
  }

  /** Answers come from successful saves, and a completed session had all three. */
  predicate RowKnown(row: Session, saved: set<nat>) {
    row.answers.Keys <= saved <= {1, 2, 3} && (row.status.Completed? ==> saved == {1, 2, 3})
  }

  predicate SaveKnown(s: State, w: Save) {
    && w.id < |s.rows| && |s.saved| == |s.rows| && w.loaded.status.InProgress?
    && w.loaded.answers.Keys <= s.saved[w.id] && w.loaded.at == s.rows[w.id].at && w.step in {1, 2, 3}
  }

  /** The session's row after a save, as the write leaves it. */
  function Written(w: Save): Session {
    WithAnswer(w.loaded, w.step, w.answer)
  }

  /** The tables after a save whose row becomes `row`. */
  function SaveDone(s: State, r: nat, id: nat, row: Session, step: nat): State
    requires id < |s.rows| == |s.saved|
  {
    s.(rows := s.rows[id := row], saved := s.saved[id := s.saved[id] + {step}], saves := s.saves - {r})
  }

  lemma SaveDoneKeepsKnownInv(s: State, r: nat, id: nat, row: Session, step: nat)
    requires KnownInv(s) && id < |s.rows| && row.at == s.rows[id].at && step in {1, 2, 3}
    requires RowKnown(row, s.saved[id] + {step})
    ensures KnownInv(SaveDone(s, r, id, row, step))
  {
    var t := SaveDone(s, r, id, row, step);
    assert RowKnown(s.rows[id], s.saved[id]);
    assert s.saved[id] == {1, 2, 3} ==> s.saved[id] + {step} == s.saved[id];
    forall q | q in t.saves
      ensures SaveKnown(t, t.saves[q])
    {
      assert SaveKnown(s, s.saves[q]);
    }
  }

  lemma WrittenKeys(w: Save)
    ensures Written(w).answers.Keys == w.loaded.answers.Keys + {w.step}
    ensures Written(w).at == w.loaded.at && Written(w).status == w.loaded.status
  {
  }

  lemma WriteSaveKeepsKnownInv(s: State, r: nat)
    requires KnownInv(s)
    ensures KnownInv(WriteSave(s, r))
  {
    if r in s.saves {
      var w := s.saves[r];
      assert SaveKnown(s, w) && RowKnown(s.rows[w.id], s.saved[w.id]);
      WrittenKeys(w);
      SaveDoneKeepsKnownInv(s, r, w.id, Written(w), w.step);
    }
  }

  lemma LoadCompleteKeepsKnownInv(s: State, r: nat, id: nat)
    requires KnownInv(s) && AnswersInv(s)
    ensures KnownInv(LoadComplete(s, r, id))
  {
    if id < |s.rows| {
      assert s.rows[id] in s.rows;
      assert RowKnown(s.rows[id], s.saved[id]);
      CompleteExactlyWhenAllAnswered(s.rows[id].answers);
    }
  }

  lemma StepKeepsKnownInv(s: State, a: Action)
    requires KnownInv(s) && AnswersInv(s)
    ensures KnownInv(Step(s, a))
  {
    match a
    case AWriteSave(r) => WriteSaveKeepsKnownInv(s, r);
    case ALoadComplete(r, id) => LoadCompleteKeepsKnownInv(s, r, id);
    case ALoadSave(r, id, step, answer) => LoadSaveKeepsKnownInv(s, r, id, step, answer);
    case AInsert => InsertKeepsKnownInv(s);
    case AWriteComplete(r) => WriteCompleteKeepsKnownInv(s, r);
    case AExpire(id) =>
      if id < |s.rows| {
        StatusKeepsKnownInv(s, id, Expired);
      }
    case _ => KnownFrame(s, Step(s, a));
  }

  lemma KnownFrame(s: State, t: State)
    requires KnownInv(s) && t.rows == s.rows && t.saved == s.saved && t.saves == s.saves && t.completes == s.completes
    ensures KnownInv(t)
  {
    forall q | q in t.saves
      ensures SaveKnown(t, t.saves[q])
    {
      assert SaveKnown(s, s.saves[q]);
    }
  }

  lemma WriteCompleteKeepsKnownInv(s: State, r: nat)
    requires KnownInv(s)
    ensures KnownInv(WriteComplete(s, r))
  {
    if r in s.completes {
      var t := s.(rows := s.rows[s.completes[r] := s.rows[s.completes[r]].(status := Completed)]);
      StatusKeepsKnownInv(s, s.completes[r], Completed);
      forall q | q in t.saves
        ensures SaveKnown(WriteComplete(s, r), t.saves[q])
      {
        assert SaveKnown(t, t.saves[q]);
      }
    }
  }

  lemma LoadSaveKeepsKnownInv(s: State, r: nat, id: nat, step: nat, answer: Json)
    requires KnownInv(s) && AnswersInv(s)
    ensures KnownInv(LoadSave(s, r, id, step, answer))
  {
    if id < |s.rows| && 1 <= step <= STEP_COUNT && SaveChecks(s.rows[id], s.now, step, answer).Saved? {
      var w := Save(id, s.rows[id], step, answer);
      assert RowKnown(s.rows[id], s.saved[id]) && s.rows[id].status.InProgress? && step in {1, 2, 3};
      assert LoadSave(s, r, id, step, answer) == s.(saves := s.saves[r := w]);
      assert SaveKnown(s, w);
      AddedSaveKeepsKnownInv(s, r, w);
    }
  }

  lemma AddedSaveKeepsKnownInv(s: State, r: nat, w: Save)
    requires KnownInv(s) && SaveKnown(s, w)
    ensures KnownInv(s.(saves := s.saves[r := w]))
  {
    var t := s.(saves := s.saves[r := w]);
    forall q | q in t.saves
      ensures SaveKnown(t, t.saves[q])
    {
      assert q != r ==> SaveKnown(s, s.saves[q]);
    }
  }

  lemma InsertKeepsKnownInv(s: State)
    requires KnownInv(s)
    ensures KnownInv(Insert(s))
  {
    var t := Insert(s);
    forall q | q in t.saves
      ensures SaveKnown(t, t.saves[q])
    {
      assert SaveKnown(s, s.saves[q]);
    }
  }

  /** A session is marked COMPLETE only after its three saves. */
  lemma StatusKeepsKnownInv(s: State, id: nat, status: Status)
    requires KnownInv(s) && id < |s.rows| && !status.InProgress? && (status.Completed? ==> s.saved[id] == {1, 2, 3})
    ensures KnownInv(s.(rows := s.rows[id := s.rows[id].(status := status)]))
  {
    var t := s.(rows := s.rows[id := s.rows[id].(status := status)]);
    assert RowKnown(s.rows[id], s.saved[id]);
    forall q | q in t.saves
      ensures SaveKnown(t, t.saves[q])
    {
      assert SaveKnown(s, s.saves[q]);
    }
  }

  // ----- when a save loses an answer -----

  /** No session misses the answer to a step that was saved with success. */
  predicate Kept(s: State) {
    |s.saved| == |s.rows| && forall i | 0 <= i < |s.rows| :: s.saved[i] <= s.rows[i].answers.Keys
  }

  /** A save's write brings along every step saved since its load. */
  predicate LosesNothing(s: State, a: Action) {
    a.AWriteSave? && a.r in s.saves && s.saves[a.r].id < |s.saved| ==>
      s.saved[s.saves[a.r].id] <= s.saves[a.r].loaded.answers.Keys + {s.saves[a.r].step}
  }

  lemma SaveDoneKeepsAnswersExactlyWhen(s: State, r: nat, id: nat, row: Session, step: nat)
    requires KnownInv(s) && Kept(s) && id < |s.rows|
    ensures Kept(SaveDone(s, r, id, row, step)) <==> s.saved[id] + {step} <= row.answers.Keys
  {
    var t := SaveDone(s, r, id, row, step);
    assert t.saved[id] == s.saved[id] + {step} && t.rows[id] == row;
    assert forall i | 0 <= i < |s.rows| && i != id :: t.rows[i] == s.rows[i] && t.saved[i] == s.saved[i];
  }

  lemma SaveKeepsAnswersExactlyWhen(s: State, r: nat)
    requires KnownInv(s) && Kept(s)
    ensures Kept(WriteSave(s, r)) <==> LosesNothing(s, AWriteSave(r))
  {
    if r in s.saves {
      var w := s.saves[r];
      assert SaveKnown(s, w);
      WrittenKeys(w);
      SaveDoneKeepsAnswersExactlyWhen(s, r, w.id, Written(w), w.step);
    }
  }

  lemma StepKeepsAnswersExactlyWhen(s: State, a: Action)
    requires KnownInv(s) && Kept(s)
    ensures Kept(Step(s, a)) <==> LosesNothing(s, a)
  {
    if a.AWriteSave? {
      SaveKeepsAnswersExactlyWhen(s, a.r);
    }
  }

  // ----- one live session -----

  predicate AnyLive(rows: seq<Session>, at: int) {
    exists i | 0 <= i < |rows| :: LiveSession(rows[i], at)
  }

  predicate TwoLive(rows: seq<Session>, at: int) {
    exists i, j | 0 <= i < j < |rows| :: LiveSession(rows[i], at) && LiveSession(rows[j], at)
  }

  /** A start holds the lock, and the session it is about to insert would be live now. */
  predicate StartPending(s: State) {
    && s.holder.Some? && s.holder.value in s.starts
    && Fresh(s.starts[s.holder.value]).ExpiresAt() > s.now
  }

  /** At most one session is live, and none while a start is about to insert one. */
  predicate OneLive(s: State) {
    !TwoLive(s.rows, s.now) && (StartPending(s) ==> !AnyLive(s.rows, s.now))
  }

  predicate StartsInv(s: State) {
    (s.holder.Some? ==> s.holder.value in s.starts) && forall r | r in s.starts :: s.starts[r] <= s.now
  }

  /** What is asked of a save's write: its session is still in progress, or the row it loaded has
      expired, or no other session is live and no start is about to insert one. */
  predicate Harmless(s: State, a: Action) {
    a.AWriteSave? && a.r in s.saves && s.saves[a.r].id < |s.rows| ==>
      var w := s.saves[a.r];
      || s.rows[w.id].status.InProgress?
      || w.loaded.ExpiresAt() <= s.now
      || (!StartPending(s) && OthersEnded(s.rows, w.id, s.now))
  }

  predicate OthersEnded(rows: seq<Session>, id: nat, at: int) {
    forall j | 0 <= j < |rows| && j != id :: !LiveSession(rows[j], at)
  }

  lemma StepKeepsStartsInv(s: State, a: Action)
    requires StartsInv(s)
    ensures StartsInv(Step(s, a))
  {
  }

  /** Rows that are live only where they were before, and no start that was not pending. */
  lemma FewerLive(s: State, t: State)
    requires OneLive(s) && |t.rows| == |s.rows| && (StartPending(t) ==> StartPending(s))
    requires forall i | 0 <= i < |s.rows| :: LiveSession(t.rows[i], t.now) ==> LiveSession(s.rows[i], s.now)
    ensures OneLive(t)
  {
  }

  /** A start's search finds nothing at its clock reading, so nothing is live now. */
  lemma FindKeepsOneLive(s: State, r: nat)
    requires OneLive(s) && StartsInv(s)
    ensures OneLive(Find(s, r))
  {
    if Find(s, r) != s {
      forall i | 0 <= i < |s.rows|
        ensures !LiveSession(s.rows[i], s.now)
      {
        assert s.rows[i] in s.rows;
      }
    }
  }

  lemma InsertKeepsOneLive(s: State)
    requires OneLive(s)
    ensures OneLive(Insert(s))
  {
    if s.holder.Some? && s.holder.value in s.starts {
      var t := Insert(s);
      assert forall i | 0 <= i < |s.rows| :: t.rows[i] == s.rows[i];
      assert LiveSession(t.rows[|s.rows|], s.now) <==> StartPending(s);
    }
  }

  /** Replacing one row: harmless when it was in progress or is not live, and otherwise exactly when
      nothing else is live or about to be. */
  lemma ReplacedRowKeepsOneLiveExactlyWhen(s: State, t: State, id: nat, row: Session)
    requires OneLive(s) && id < |s.rows| && row.at == s.rows[id].at && row.status.InProgress?
    requires t.rows == s.rows[id := row] && t.now == s.now && t.holder == s.holder && t.starts == s.starts
    ensures OneLive(t) <==>
              || s.rows[id].status.InProgress?
              || row.ExpiresAt() <= s.now
              || (!StartPending(s) && OthersEnded(s.rows, id, s.now))
  {
    assert forall j | 0 <= j < |s.rows| && j != id :: t.rows[j] == s.rows[j];
    if s.rows[id].status.InProgress? || row.ExpiresAt() <= s.now {
      FewerLive(s, t);
    } else {
      assert LiveSession(t.rows[id], t.now);
    }
  }

  lemma WriteSaveKeepsOneLiveExactlyWhenHarmless(s: State, r: nat)
    requires KnownInv(s) && OneLive(s)
    ensures OneLive(WriteSave(s, r)) <==> Harmless(s, AWriteSave(r))
  {
    if r in s.saves {
      var w := s.saves[r];
      assert SaveKnown(s, w);
      WrittenKeys(w);
      ReplacedRowKeepsOneLiveExactlyWhen(s, WriteSave(s, r), w.id, Written(w));
    }
  }

  lemma StatusKeepsOneLive(s: State, t: State, id: nat, status: Status)
    requires OneLive(s) && id < |s.rows| && !status.InProgress?
    requires t.rows == s.rows[id := s.rows[id].(status := status)]
    requires t.now == s.now && t.holder == s.holder && t.starts == s.starts
    ensures OneLive(t)
  {
    FewerLive(s, t);
  }

  /** A step keeps the user at one live session, present or about to be inserted, exactly when it is
      no save's write that does harm. */
  lemma StepKeepsOneLiveExactlyWhenHarmless(s: State, a: Action)
    requires KnownInv(s) && StartsInv(s) && OneLive(s)
    ensures OneLive(Step(s, a)) <==> Harmless(s, a)
  {
    match a
    case AWriteSave(r) => WriteSaveKeepsOneLiveExactlyWhenHarmless(s, r);
    case AInsert => InsertKeepsOneLive(s);
    case AFind(r) => FindKeepsOneLive(s, r);
    case AWriteComplete(r) =>
      if r in s.completes {
        StatusKeepsOneLive(s, WriteComplete(s, r), s.completes[r], Completed);
      }
    case AExpire(id) =>
      if id < |s.rows| {
        StatusKeepsOneLive(s, Step(s, a), id, Expired);
      }
    case _ => FewerLive(s, Step(s, a));
  }

  /** OneLive is what keeps two sessions from being live: without it two are, now or after the insert
      that is about to come. */
  lemma OneLiveExactlyUnlessTwo(s: State)
    ensures OneLive(s) <==> !TwoLive(s.rows, s.now) && !TwoLive(Step(s, AInsert).rows, s.now)
  {
    var t := Step(s, AInsert);
    if OneLive(s) {
      InsertKeepsOneLive(s);
    } else if StartPending(s) && AnyLive(s.rows, s.now) {
      var i :| 0 <= i < |s.rows| && LiveSession(s.rows[i], s.now);
      assert LiveSession(t.rows[i], s.now) && LiveSession(t.rows[|s.rows|], s.now);
    }
  }
}
