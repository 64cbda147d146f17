/** One user's wizard sessions as a table, each call run on its own. */
module WizardSessions {
  import opened Json
  import opened WizardAnswers
  import opened WizardProtocol

  datatype StartReply = Resumed(id: nat) | Created(id: nat)

  class WizardSessions {
    var rows: seq<Session>

    constructor ()
      ensures rows == []
    {
      rows := [];
    }

    /** The table at `now`, with no call under way. */
    ghost function Abstract(now: int): State
      reads this
    {
      State(rows, seq(|rows|, i => {}), now, map[], None, map[], map[])
    }

    /** What the runs keep, so at most one session is live at `now`. */
    ghost predicate Valid(now: int)
      reads this
    {
      AnswersInv(Abstract(now)) && OneLive(Abstract(now))
    }

    lemma ValidStays(now: int, later: int)
      requires Valid(now) && now <= later
      ensures Valid(later)
    {
      assert forall row :: LiveSession(row, later) ==> LiveSession(row, now);
    }

    method StartWizardSession(now: int) returns (reply: StartReply)
      requires Valid(now)
      modifies this
      ensures Valid(now)
      ensures reply.id < |rows| && LiveSession(rows[reply.id], now)
      ensures forall i | 0 <= i < |rows| && LiveSession(rows[i], now) :: i == reply.id
      ensures match FindActive(old(rows), now)
              case Some(id) => reply == Resumed(id) && rows == old(rows)
              case None => reply == Created(|old(rows)|) && rows == old(rows) + [Fresh(now)]
    {
      var active := FindActive(rows, now);
      if active.Some? {
        assert forall i | 0 <= i < |rows| :: rows[i] in rows;
        return Resumed(active.value);
      }
      assert forall i | 0 <= i < |rows| :: rows[i] in rows;
      assert !AnyLive(rows, now);
      rows := rows + [Fresh(now)];
      reply := Created(|rows| - 1);
    }

    /** None: no such session of this user. */
    method SaveStepAnswer(id: nat, step: nat, answer: Json, now: int) returns (reply: Option<SaveReply>)
      requires Valid(now) && 1 <= step <= STEP_COUNT
      modifies this
      ensures Valid(now)
      ensures reply == if id < |old(rows)| then Some(SaveChecks(old(rows)[id], now, step, answer)) else None
      ensures rows == if reply == Some(Saved) then old(rows)[id := WithAnswer(old(rows)[id], step, answer)]
                      else old(rows)
      ensures reply != Some(SaveThrown)
    {
      if id >= |rows| {
        return None;
      }
      var session := rows[id];
      assert session in rows;
      ValidatedPassesChecks(session.answers);
      if session.status.Expired? || session.ExpiresAt() < now {
        return Some(SaveForbidden);
      }
      if session.status.Completed? {
        return Some(SaveConflict);
      }
      if step == 2 && !HasDescription(Answer(session.answers, 1)) {
        return Some(SequenceError);
      }
      if step == 3 && (!HasDescription(Answer(session.answers, 1))
          || !TagsOrNotes(Answer(session.answers, 2)).Present?) {
        return Some(SequenceError);
      }
      if !ValidAnswer(step, answer) {
        return Some(ValidationError);
      }
      SaveKeepsRowOk(session, step, answer);
      ghost var s := Abstract(now);
      ghost var written := WithAnswer(session, step, answer);
      ReplacedRowKeepsOneLiveExactlyWhen(s, s.(rows := rows[id := written]), id, written);
      session := session.(answers := session.answers[step := answer]);
      session := session.(steps := |session.answers|);
      rows := rows[id := session];
      reply := Some(Saved);
    }

    method CompleteOnboarding(id: nat, now: int) returns (reply: Option<CompleteReply>)
      requires Valid(now)
      modifies this
      ensures Valid(now)
      ensures reply == if id < |old(rows)| then Some(CompleteChecks(old(rows)[id], now)) else None
      ensures rows == if reply == Some(CompleteAccepted) then old(rows)[id := old(rows)[id].(status := Completed)]
                      else old(rows)
      ensures reply == Some(CompleteAccepted) ==> rows[id].answers.Keys == {1, 2, 3}
    {
      if id >= |rows| {
        return None;
      }
      var session := rows[id];
      assert session in rows;
      if session.status.Expired? || session.ExpiresAt() <= now {
        return Some(CompleteForbidden);
      }
      if session.status.Completed? {
        return Some(CompleteConflict);
      }
      var judged := ValidateAnswers(session.answers);
      CompleteExactlyWhenAllAnswered(session.answers);
      if judged.Incomplete? {
        return Some(CompleteRefused(judged.missing));
      }
      if judged.Thrown? {
        return Some(CompleteThrown);
      }
      ghost var s := Abstract(now);
      StatusKeepsOneLive(s, s.(rows := rows[id := session.(status := Completed)]), id, Completed);
      rows := rows[id := session.(status := Completed)];
      reply := Some(CompleteAccepted);
    }
  }
}
