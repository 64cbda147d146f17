/** Failed-login lockout: the user and the admin login share one metadata row per account. */
module Lockout {
  import opened Json

  const MAX_FAILED_LOGIN_ATTEMPTS := 5
  const ACCOUNT_LOCK_DURATION_MS := 60 * 60 * 1000

  datatype Metadata = Metadata(failedAttempts: nat, lockedUntil: Option<int>)

  datatype LoginReply = InvalidCredentials | Forbidden | AccountLocked | TooManyFailedAttempts | LoggedIn

  predicate LockedAt(m: Metadata, now: int) {
    m.lockedUntil.Some? && m.lockedUntil.value > now
  }

  /** The row after a compared wrong password: the atomic increment, and the lock from the fifth on. */
  function AfterWrong(m: Metadata, now: int): Metadata {
    if m.failedAttempts + 1 >= MAX_FAILED_LOGIN_ATTEMPTS
    then Metadata(m.failedAttempts + 1, Some(now + ACCOUNT_LOCK_DURATION_MS))
    else m.(failedAttempts := m.failedAttempts + 1)
  }

  /** The part both login paths share once the account is found: lock check, comparison, bookkeeping. */
  function Checked(m: Metadata, now: int, matches: bool): (Metadata, LoginReply) {
    if LockedAt(m, now) then (m, AccountLocked)
    else if matches then (Metadata(0, None), LoggedIn)
    else (AfterWrong(m, now),
          if m.failedAttempts + 1 >= MAX_FAILED_LOGIN_ATTEMPTS then TooManyFailedAttempts else InvalidCredentials)
  }

  class Account {
    var metadata: Option<Metadata>
    var comparisons: seq<int>

    constructor ()
      ensures metadata == None && comparisons == []
    {
      metadata, comparisons := None, [];
    }

    function Row(): Metadata
      reads this
    {
      if metadata.Some? then metadata.value else Metadata(0, None)
    }

    method EnsureAuthMetadata() returns (m: Metadata)
      modifies this`metadata
      ensures m == old(Row()) && metadata == Some(m)
    {
      if metadata.None? {
        metadata := Some(Metadata(0, None));
      }
      m := metadata.value;
    }

    method RecordFailedLogin(now: int) returns (locked: bool)
      requires metadata.Some?
      modifies this`metadata
      ensures metadata == Some(AfterWrong(old(Row()), now))
      ensures locked <==> old(Row()).failedAttempts + 1 >= MAX_FAILED_LOGIN_ATTEMPTS
    {
      var newCount := metadata.value.failedAttempts + 1;
      metadata := Some(metadata.value.(failedAttempts := newCount));
      locked := newCount >= MAX_FAILED_LOGIN_ATTEMPTS;
      if locked {
        metadata := Some(metadata.value.(lockedUntil := Some(now + ACCOUNT_LOCK_DURATION_MS)));
      }
    }

    /** `comparisons` records when a password is compared with this account's hash. */
    method CheckPassword(now: int, matches: bool) returns (reply: LoginReply)
      modifies this
      ensures metadata.Some? && (metadata.value, reply) == Checked(old(Row()), now, matches)
      ensures comparisons == if LockedAt(old(Row()), now) then old(comparisons) else old(comparisons) + [now]
    {
      var m := EnsureAuthMetadata();
      if LockedAt(m, now) {
        return AccountLocked;
      }
      comparisons := comparisons + [now];
      if !matches {
        var locked := RecordFailedLogin(now);
        return if locked then TooManyFailedAttempts else InvalidCredentials;
      }
      metadata := Some(Metadata(0, None));
      reply := LoggedIn;
    }

    method Login(hasPassword: bool, verified: bool, now: int, matches: bool) returns (reply: LoginReply)
      modifies this
      ensures !hasPassword ==> reply.InvalidCredentials?
      ensures hasPassword && !verified ==> reply.Forbidden?
      ensures !(hasPassword && verified) ==> metadata == old(metadata) && comparisons == old(comparisons)
      ensures hasPassword && verified ==>
                && metadata.Some? && (metadata.value, reply) == Checked(old(Row()), now, matches)
                && comparisons == if LockedAt(old(Row()), now) then old(comparisons) else old(comparisons) + [now]
      ensures var row := if old(metadata).Some? then old(metadata).value else Metadata(0, None);
              var locked := row.lockedUntil.Some? && row.lockedUntil.value > now;
              && (reply.LoggedIn? <==> hasPassword && verified && !locked && matches)
              && (reply.LoggedIn? ==> metadata == Some(Metadata(0, None)))
              && (hasPassword && verified && locked ==>
                    reply.AccountLocked? && metadata == Some(row) && comparisons == old(comparisons))
              && (hasPassword && verified && !locked ==> comparisons == old(comparisons) + [now])
              && (hasPassword && verified && !locked && !matches ==>
                    if row.failedAttempts >= 4
                    then
                      reply.TooManyFailedAttempts?
                      && metadata == Some(Metadata(row.failedAttempts + 1, Some(now + 3_600_000)))
                    else
                      reply.InvalidCredentials?
                      && metadata == Some(Metadata(row.failedAttempts + 1, row.lockedUntil)))
    {
      if !hasPassword {
        return InvalidCredentials;
      }
      if !verified {
        return Forbidden;
      }
      reply := CheckPassword(now, matches);
    }

    /** Accounts without a password, deleted or without an admin role only meet a dummy comparison. The
        fifth failure is answered as a locked account is. */
    method AdminLogin(hasPassword: bool, deleted: bool, isAdmin: bool, now: int, matches: bool)
        returns (reply: LoginReply)
      modifies this
      ensures !(hasPassword && !deleted && isAdmin) ==>
                reply.InvalidCredentials? && metadata == old(metadata) && comparisons == old(comparisons)
      ensures hasPassword && !deleted && isAdmin ==>
                && metadata.Some? && metadata.value == Checked(old(Row()), now, matches).0
                && comparisons == if LockedAt(old(Row()), now) then old(comparisons) else old(comparisons) + [now]
      ensures var row := if old(metadata).Some? then old(metadata).value else Metadata(0, None);
              var locked := row.lockedUntil.Some? && row.lockedUntil.value > now;
              && (reply.LoggedIn? <==> hasPassword && !deleted && isAdmin && !locked && matches)
              && (reply.LoggedIn? ==> metadata == Some(Metadata(0, None)))
              && (hasPassword && !deleted && isAdmin && locked ==>
                    reply.AccountLocked? && metadata == Some(row) && comparisons == old(comparisons))
              && (hasPassword && !deleted && isAdmin && !locked ==> comparisons == old(comparisons) + [now])
              && (hasPassword && !deleted && isAdmin && !locked && !matches ==>
                    if row.failedAttempts >= 4
                    then
                      reply.AccountLocked?
                      && metadata == Some(Metadata(row.failedAttempts + 1, Some(now + 3_600_000)))
                    else
                      reply.InvalidCredentials?
                      && metadata == Some(Metadata(row.failedAttempts + 1, row.lockedUntil)))
    {
      if !hasPassword || deleted || !isAdmin {
        return InvalidCredentials;
      }
      reply := CheckPassword(now, matches);
      if reply.TooManyFailedAttempts? {
        reply := AccountLocked;
      }
    }
  }

  // ----- any serial run without a correct password -----

  /** When passwords are compared, for wrong attempts by either path at `times`. */
  function Comparisons(m: Metadata, times: seq<int>): seq<int>
    decreases |times|
  {
    if times == [] then []
    else (if LockedAt(m, times[0]) then [] else [times[0]])
         + Comparisons(Checked(m, times[0], false).0, times[1..])
  }

  /** How many comparisons are still free of a lock before them. */
  function FreeComparisons(m: Metadata): nat {
    if m.failedAttempts < MAX_FAILED_LOGIN_ATTEMPTS then MAX_FAILED_LOGIN_ATTEMPTS - m.failedAttempts else 0
  }

  /** A row whose counter has reached the limit carries a lock set at its last comparison. */
  predicate Consistent(m: Metadata, last: int) {
    m.failedAttempts >= MAX_FAILED_LOGIN_ATTEMPTS ==> m.lockedUntil == Some(last + ACCOUNT_LOCK_DURATION_MS)
  }

  predicate Spaced(at: seq<int>, from: nat) {
    forall i | from <= i < |at| - 1 :: at[i + 1] >= at[i] + ACCOUNT_LOCK_DURATION_MS
  }

  /** After the free comparisons every further one comes at least an hour after the one before it. */
  lemma {:induction false} ComparisonsAreSpaced(m: Metadata, times: seq<int>, last: int)
    requires Consistent(m, last)
    ensures var at, free := Comparisons(m, times), FreeComparisons(m);
            && Spaced(at, if free == 0 then 0 else free - 1)
            && (free == 0 && at != [] ==> at[0] >= last + ACCOUNT_LOCK_DURATION_MS)
    decreases |times|
  {
    if times != [] {
      var t := times[0];
      var next := Checked(m, t, false).0;
      var rest := Comparisons(next, times[1..]);
      if LockedAt(m, t) {
        ComparisonsAreSpaced(m, times[1..], last);
      } else {
        ComparisonsAreSpaced(next, times[1..], t);
        var at := [t] + rest;
        assert Comparisons(m, times) == at;
        var from := if FreeComparisons(m) == 0 then 0 else FreeComparisons(m) - 1;
        forall i | from <= i < |at| - 1
          ensures at[i + 1] >= at[i] + ACCOUNT_LOCK_DURATION_MS
        {
          if i > 0 {
            assert rest[i] == at[i + 1] && rest[i - 1] == at[i];
          }
        }
      }
    }
  }

  /** On a fresh account the first five passwords are compared; from the fifth on, comparisons are at
      least an hour apart. */
  lemma FiveComparisonsThenOnePerHour(times: seq<int>)
    ensures var at := Comparisons(Metadata(0, None), times);
            && (if |times| >= 5 then |at| >= 5 && at[..5] == times[..5] else at == times)
            && forall i | 4 <= i < |at| - 1 :: at[i + 1] >= at[i] + 3_600_000
  {
    ComparisonsAreSpaced(Metadata(0, None), times, 0);
    UnlockedAreCompared(Metadata(0, None), times, 5);
  }

  /** Below the limit every password is compared. */
  lemma {:induction false} UnlockedAreCompared(m: Metadata, times: seq<int>, n: nat)
    requires m.lockedUntil.None? && m.failedAttempts + n <= MAX_FAILED_LOGIN_ATTEMPTS
    ensures var at, k := Comparisons(m, times), if n < |times| then n else |times|;
            |at| >= k && at[..k] == times[..k] && (|times| <= n ==> at == times)
    decreases n
  {
    if n > 0 && times != [] {
      var at, rest := Comparisons(m, times), Comparisons(AfterWrong(m, times[0]), times[1..]);
      assert at == [times[0]] + rest;
      if n > 1 {
        UnlockedAreCompared(AfterWrong(m, times[0]), times[1..], n - 1);
        var k := if n - 1 < |times[1..]| then n - 1 else |times[1..]|;
        assert at[..k + 1] == [times[0]] + rest[..k];
        assert times[..k + 1] == [times[0]] + times[1..][..k];
      } else if |times| == 1 {
        assert times[1..] == [];
      }
    }
  }

  /** So n comparisons beyond the fifth take at least n hours. */
  lemma {:induction false} LaterComparisonsTakeHours(at: seq<int>, n: nat)
    requires Spaced(at, MAX_FAILED_LOGIN_ATTEMPTS - 1) && |at| >= MAX_FAILED_LOGIN_ATTEMPTS + n
    ensures at[MAX_FAILED_LOGIN_ATTEMPTS - 1 + n] >= at[MAX_FAILED_LOGIN_ATTEMPTS - 1] + n * ACCOUNT_LOCK_DURATION_MS
    decreases n
  {
    if n > 0 {
      LaterComparisonsTakeHours(at, n - 1);
      var i := MAX_FAILED_LOGIN_ATTEMPTS - 1 + (n - 1);
      assert at[i + 1] >= at[i] + ACCOUNT_LOCK_DURATION_MS;
    }
  }

  /** The lock does not reset the counter: after it ends a single wrong password locks again. */
  lemma OneWrongPasswordLocksAgain(m: Metadata, now: int)
    requires m.failedAttempts >= MAX_FAILED_LOGIN_ATTEMPTS && !LockedAt(m, now)
    ensures Checked(m, now, false).1 == TooManyFailedAttempts
    ensures forall later | now <= later < now + ACCOUNT_LOCK_DURATION_MS :: LockedAt(Checked(m, now, false).0, later)
  {
  }
}
