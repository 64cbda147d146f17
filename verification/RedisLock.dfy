/** One lock key under every sequence of setNx, the two commands of releaseLock, and time, with a token
    of its own for every attempt. */
module RedisLock {
  import opened Json
  import opened Redis

  /** The random token of attempt r; different attempts have different ones. */
  function Token(r: nat): (s: string)
    ensures |s| == r
  {
    seq(r, i => '-')
  }

  /** `tried` lists the attempts made so far, `freeing` those whose releaseLock has read their own
      token and has still to send its DEL. */
  datatype LockState = LockState(entry: Option<Entry>, now: int, tried: set<nat>, freeing: set<nat>)

  datatype LockAction = Wait(seconds: nat) | Try(r: nat, ttl: nat) | ReadBack(r: nat) | Del(r: nat)

  predicate HeldBy(e: Option<Entry>, r: nat, now: int) {
    Holds(e, Token(r), now)
  }

  function Step(s: LockState, a: LockAction): LockState {
    match a
    case Wait(seconds) => s.(now := s.now + seconds)
    case Try(r, ttl) =>
      if r in s.tried then s else s.(entry := AfterSetNx(s.entry, Token(r), ttl, s.now), tried := s.tried + {r})
    case ReadBack(r) => if HeldBy(s.entry, r, s.now) then s.(freeing := s.freeing + {r}) else s
    case Del(r) => if r in s.freeing then s.(entry := None, freeing := s.freeing - {r}) else s
  }

  function Run(s: LockState, acts: seq<LockAction>): LockState
    decreases |acts|
  {
    if acts == [] then s else Run(Step(s, acts[0]), acts[1..])
  }

  /** What is stored is the token of an attempt and has an expiry; only attempts release. */
  predicate LockInv(s: LockState) {
    && s.freeing <= s.tried
    && (s.entry.Some? ==> s.entry.value.expiresAt.Some? && StoredByAttempt(s))
  }

  predicate StoredByAttempt(s: LockState)
    requires s.entry.Some?
  {
    exists q | q in s.tried :: s.entry.value.value == Text(Token(q))
  }

  lemma StepKeepsLockInv(s: LockState, a: LockAction)
    requires LockInv(s)
    ensures LockInv(Step(s, a))
  {
    var t := Step(s, a);
    if t.entry.Some? {
      var q :| q in t.tried && t.entry.value.value == Text(Token(q)) by {
        if t.entry == s.entry {
          var q :| q in s.tried && s.entry.value.value == Text(Token(q));
          assert q in t.tried;
        } else {
          assert a.r in t.tried && t.entry.value.value == Text(Token(a.r));
        }
      }
    }
    if a.ReadBack? && HeldBy(s.entry, a.r, s.now) {
      var q :| q in s.tried && s.entry.value.value == Text(Token(q));
      assert |Token(q)| == q && |Token(a.r)| == a.r;
    }
  }

  lemma OneHolder(e: Option<Entry>, r: nat, q: nat, now: int)
    requires HeldBy(e, r, now) && HeldBy(e, q, now)
    ensures r == q
  {
    assert |Token(r)| == r && |Token(q)| == q;
  }

  /** An attempt gets the lock exactly when nothing live is stored, and then it is the only holder. */
  lemma TryTakesFreeLock(s: LockState, r: nat, ttl: nat)
    requires r !in s.tried && ttl > 0 && LockInv(s)
    ensures HeldBy(Step(s, Try(r, ttl)).entry, r, s.now) <==> LiveAt(s.entry, s.now).None?
    ensures forall q :: HeldBy(Step(s, Try(r, ttl)).entry, q, s.now) && q != r ==> HeldBy(s.entry, q, s.now)
  {
    if s.entry.Some? {
      var q :| q in s.tried && s.entry.value.value == Text(Token(q));
      assert |Token(q)| == q && |Token(r)| == r;
    }
    forall q | HeldBy(AfterSetNx(s.entry, Token(r), ttl, s.now), q, s.now) && q != r
      ensures HeldBy(s.entry, q, s.now)
    {
      assert |Token(q)| == q && |Token(r)| == r;
    }
  }

  // ----- how long a holder has the lock -----

  /** Some DEL of the run takes effect: its request had read its own token back. */
  predicate SomeDelRuns(s: LockState, acts: seq<LockAction>)
    decreases |acts|
  {
    acts != [] && ((acts[0].Del? && acts[0].r in s.freeing) || SomeDelRuns(Step(s, acts[0]), acts[1..]))
  }

  lemma {:induction false} ClockAdvances(s: LockState, acts: seq<LockAction>)
    ensures Run(s, acts).now >= s.now
    decreases |acts|
  {
    if acts != [] {
      ClockAdvances(Step(s, acts[0]), acts[1..]);
    }
  }

  lemma {:induction false} LostStaysLost(s: LockState, acts: seq<LockAction>, q: nat)
    requires q in s.tried && !HeldBy(s.entry, q, s.now)
    ensures !HeldBy(Run(s, acts).entry, q, Run(s, acts).now)
    decreases |acts|
  {
    if acts != [] {
      var t := Step(s, acts[0]);
      if acts[0].Try? && acts[0].r !in s.tried {
        assert |Token(q)| == q && |Token(acts[0].r)| == acts[0].r;
      }
      LostStaysLost(t, acts[1..], q);
    }
  }

  /** Over any run a holder has the lock exactly until its expiry or the first DEL that takes effect,
      whoever sends it. */
  lemma {:induction false} HeldExactlyUntilDelOrExpiry(s: LockState, acts: seq<LockAction>, q: nat)
    requires HeldBy(s.entry, q, s.now) && q in s.tried && s.entry.value.expiresAt.Some?
    ensures HeldBy(Run(s, acts).entry, q, Run(s, acts).now)
            <==> !SomeDelRuns(s, acts) && Run(s, acts).now < s.entry.value.expiresAt.value
    decreases |acts|
  {
    if acts != [] {
      var t := Step(s, acts[0]);
      ClockAdvances(t, acts[1..]);
      if HeldBy(t.entry, q, t.now) {
        assert t.entry == s.entry;
        HeldExactlyUntilDelOrExpiry(t, acts[1..], q);
      } else {
        LostStaysLost(t, acts[1..], q);
      }
    }
  }

  // ----- whose lock a late release frees -----

  /** Every release that has read its own token back still holds the lock. */
  predicate Safe(s: LockState) {
    forall r | r in s.freeing :: HeldBy(s.entry, r, s.now)
  }

  /** Request r's DEL would take the lock from q. */
  predicate DelFreesOther(s: LockState, r: nat, q: nat) {
    r != q && HeldBy(s.entry, q, s.now) && !HeldBy(Step(s, Del(r)).entry, q, s.now)
  }

  /** A DEL can take another attempt's lock, at once or after one new attempt. */
  ghost predicate CanFreeOther(s: LockState) {
    exists r, q, t: LockState :: (t == s || t == Step(s, Try(q, 1))) && DelFreesOther(t, r, q)
  }

  lemma Untried(used: set<nat>) returns (q: nat)
    ensures q !in used
  {
    q := 0;
    var rest := used;
    while rest != {}
      invariant rest <= used && forall y :: y in used && y !in rest ==> y < q
      decreases rest
    {
      var x :| x in rest;
      rest := rest - {x};
      q := if x < q then q else x + 1;
    }
  }

  /** A late release can free a later holder's lock exactly when some request has read its own token
      back and then lost the lock before its DEL. */
  lemma LateReleaseFreesOtherExactlyWhenLost(s: LockState)
    requires LockInv(s)
    ensures CanFreeOther(s) <==> !Safe(s)
  {
    if !Safe(s) {
      var r :| r in s.freeing && !HeldBy(s.entry, r, s.now);
      if LiveAt(s.entry, s.now).None? {
        var q := Untried(s.tried);
        TryTakesFreeLock(s, q, 1);
        assert DelFreesOther(Step(s, Try(q, 1)), r, q);
      } else {
        var q :| q in s.tried && s.entry.value.value == Text(Token(q));
        assert DelFreesOther(s, r, q);
      }
    }
    if CanFreeOther(s) {
      var r, q, t :| (t == s || t == Step(s, Try(q, 1))) && DelFreesOther(t, r, q);
      assert r in s.freeing && t.now == s.now;
      SafeHolderStays(s, r, q, t);
    }
  }

  lemma SafeHolderStays(s: LockState, r: nat, q: nat, t: LockState)
    requires (t == s || t == Step(s, Try(q, 1))) && r != q && HeldBy(t.entry, q, s.now)
    ensures !HeldBy(s.entry, r, s.now)
  {
    assert |Token(r)| == r && |Token(q)| == q;
  }

  /** Time does not take the lock from a request between its GET and its DEL. */
  predicate Prompt(s: LockState, a: LockAction) {
    a.Wait? ==> forall r | r in s.freeing :: HeldBy(s.entry, r, s.now + a.seconds)
  }

  predicate PromptRun(s: LockState, acts: seq<LockAction>)
    decreases |acts|
  {
    acts != [] ==> Prompt(s, acts[0]) && PromptRun(Step(s, acts[0]), acts[1..])
  }

  predicate SafeThroughout(s: LockState, acts: seq<LockAction>)
    decreases |acts|
  {
    Safe(s) && (acts != [] ==> SafeThroughout(Step(s, acts[0]), acts[1..]))
  }

  lemma StepStaysSafeExactlyWhenPrompt(s: LockState, a: LockAction)
    requires Safe(s)
    ensures Safe(Step(s, a)) <==> Prompt(s, a)
  {
    if a.Del? && a.r in s.freeing {
      forall r | r in s.freeing
        ensures r == a.r
      {
        OneHolder(s.entry, r, a.r, s.now);
      }
    }
  }

  /** Over any run no release can ever free another attempt's lock exactly when no lock expires between
      its holder's GET and DEL. */
  lemma {:induction false} SafeExactlyOnPromptRuns(s: LockState, acts: seq<LockAction>)
    requires Safe(s)
    ensures SafeThroughout(s, acts) <==> PromptRun(s, acts)
    decreases |acts|
  {
    if acts != [] {
      StepStaysSafeExactlyWhenPrompt(s, acts[0]);
      if Safe(Step(s, acts[0])) {
        SafeExactlyOnPromptRuns(Step(s, acts[0]), acts[1..]);
      }
    }
  }
}
