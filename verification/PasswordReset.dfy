/** One account's password reset: one-time codes, the verify lock and reset tokens, with any number of
    verify and reset calls interleaved statement by statement and with the passing of time. */
module PasswordReset {
  import opened Json
  import opened Redis
  import opened RedisLock

  const LOCK_SECONDS := 30
  const RESET_SECONDS := 900

  /** One verifyResetOtp call. `Matched` and `Deleted` carry the code the call compared with; `Freeing`
      is between the two commands of releaseLock. */
  datatype Verify =
    | Locked
    | Expired
    | Matched(otp: nat)
    | Deleted(otp: nat)
    | Releasing
    | Freeing
    | VerifyDone

  /** One resetPassword call, by the number of the reset token it consumed. */
  datatype Reset = Consumed(jti: nat) | ResetDone

  /** Codes are numbered in the order they are issued and reset tokens in the order they are minted;
      minted[j] is the code that reset token j was given for. `lock` and `jti` are the two Redis entries. */
  datatype State = State(now: int, token: Option<nat>, issued: nat, lock: Option<Entry>, verifies: map<nat, Verify>,
                         jti: Option<Entry>, minted: seq<nat>, resets: map<nat, Reset>, done: seq<nat>)

  function Initial(now: int): State {
    State(now, None, 0, None, map[], None, [], map[], [])
  }

  function PutV(s: State, r: nat, v: Verify): State {
    s.(verifies := s.verifies[r := v])
  }

  // ----- issuing: delete and insert in one transaction -----

  function Issue(s: State): State {
    s.(token := Some(s.issued), issued := s.issued + 1)
  }

  // ----- verifyResetOtp -----

  function TakeLock(s: State, r: nat): State {
    if r in s.verifies then s
    else PutV(s, r, if LiveAt(s.lock, s.now).None? then Locked else VerifyDone).(
           lock := AfterSetNx(s.lock, Token(r), LOCK_SECONDS, s.now))
  }

  /** Reads the stored code and compares; `expired` and `matches` are the outcomes of the two tests. */
  function ReadToken(s: State, r: nat, expired: bool, matches: bool): State {
    if !(r in s.verifies && s.verifies[r].Locked?) then s
    else match s.token
      case None => PutV(s, r, Releasing)
      case Some(otp) =>
        PutV(s, r, if expired then Expired else if matches then Matched(otp) else Releasing)
  }

  /** DELETE by user and type: it removes whatever code is stored now, not only the one compared. */
  function DeleteToken(s: State, r: nat): State {
    if !(r in s.verifies) then s
    else match s.verifies[r]
      case Matched(otp) => PutV(s, r, Deleted(otp)).(token := None)
      case Expired => PutV(s, r, Releasing).(token := None)
      case _ => s
  }

  /** Signs a token with a fresh id and stores the id, replacing an older one. */
  function Mint(s: State, r: nat): State {
    if !(r in s.verifies && s.verifies[r].Deleted?) then s
    else PutV(s, r, Releasing).(jti := AfterSet(Token(|s.minted|), RESET_SECONDS, s.now),
                                minted := s.minted + [s.verifies[r].otp])
  }

  /** An error on the way goes to the release; one in the release ends the call. */
  function Fail(s: State, r: nat): State {
    if !(r in s.verifies) then s
    else match s.verifies[r]
      case VerifyDone => s
      case Releasing => PutV(s, r, VerifyDone)
      case Freeing => PutV(s, r, VerifyDone)
      case _ => PutV(s, r, Releasing)
  }

  /** GET: is the lock still this call's? */
  function ReadLock(s: State, r: nat): State {
    if !(r in s.verifies && s.verifies[r].Releasing?) then s
    else PutV(s, r, if HeldBy(s.lock, r, s.now) then Freeing else VerifyDone)
  }

  /** DEL: frees whatever lock is stored now. */
  function FreeLock(s: State, r: nat): State {
    if !(r in s.verifies && s.verifies[r].Freeing?) then s
    else PutV(s, r, VerifyDone).(lock := None)
  }

  // ----- resetPassword -----

  /** Get-and-delete of the stored id: it is gone whether or not it is the presented one. */
  function ConsumeJti(s: State, r: nat, presented: nat): State {
    if r in s.resets then s
    else s.(jti := None,
            resets := s.resets[r := if HeldBy(s.jti, presented, s.now) then Consumed(presented) else ResetDone])
  }

  function FinishReset(s: State, r: nat, ok: bool): State {
    if !(r in s.resets && s.resets[r].Consumed?) then s
    else s.(resets := s.resets[r := ResetDone], done := if ok then s.done + [s.resets[r].jti] else s.done)
  }

  datatype Action =
    | ATick(seconds: nat)
    | AIssue | ATakeLock(r: nat) | AReadToken(r: nat, expired: bool, matches: bool) | ADeleteToken(r: nat)
    | AMint(r: nat)
    | AFail(r: nat) | AReadLock(r: nat) | AFreeLock(r: nat)
    | AConsumeJti(r: nat, presented: nat) | AFinishReset(r: nat, ok: bool)

  function Step(s: State, a: Action): State {
    match a
    case ATick(seconds) => s.(now := s.now + seconds)
    case AIssue => Issue(s)
    case ATakeLock(r) => TakeLock(s, r)
    case AReadToken(r, expired, matches) => ReadToken(s, r, expired, matches)
    case ADeleteToken(r) => DeleteToken(s, r)
    case AMint(r) => Mint(s, r)
    case AFail(r) => Fail(s, r)
    case AReadLock(r) => ReadLock(s, r)
    case AFreeLock(r) => FreeLock(s, r)
    case AConsumeJti(r, presented) => ConsumeJti(s, r, presented)
    case AFinishReset(r, ok) => FinishReset(s, r, ok)
  }

  function Run(s: State, acts: seq<Action>): State
    decreases |acts|
  {
    if acts == [] then s else Run(Step(s, acts[0]), acts[1..])
  }

  // ----- the hypothesis on the lock -----

  /** A call between getting the lock and deleting the code it compared with, and one between the two
      commands of its release. Minting, and the branch of an expired code, need no lock. */
  predicate NeedsLock(v: Verify) {
    v.Locked? || v.Matched? || v.Freeing?
  }

  /** Time does not take the lock from a call that needs it. */
  predicate InTime(s: State, a: Action) {
    a.ATick? ==> forall r | r in s.verifies && NeedsLock(s.verifies[r]) :: HeldBy(s.lock, r, s.now + a.seconds)
  }

  predicate InTimeRun(s: State, acts: seq<Action>)
    decreases |acts|
  {
    acts != [] ==> InTime(s, acts[0]) && InTimeRun(Step(s, acts[0]), acts[1..])
  }

  // ----- the invariants -----

  predicate Distinct(xs: seq<nat>) {
    forall i, j | 0 <= i < j < |xs| :: xs[i] != xs[j]
  }

  /** A reset token that can still lead to a reset. */
  predicate Unspent(s: State, j: nat) {
    j < |s.minted| && j !in s.done
  }

  /** This half needs no lock: get-and-delete spends each reset token once. */
  predicate ResetsInv(s: State) {
    && Distinct(s.done) && (forall j | j in s.done :: j < |s.minted|)
    && (s.jti.Some? ==> exists j | 0 <= j < |s.minted| :: Unspent(s, j) && s.jti.value.value == Text(Token(j)))
    && (forall r | r in s.resets && s.resets[r].Consumed? ::
          Unspent(s, s.resets[r].jti) && (s.jti.Some? ==> s.jti.value.value != Text(Token(s.resets[r].jti))))
    && (forall r, q | r in s.resets && q in s.resets && r != q && s.resets[r].Consumed? && s.resets[q].Consumed? ::
          s.resets[r].jti != s.resets[q].jti)
  }

  /** A code some call has compared with and not yet turned into a reset token. */
  predicate Pending(s: State, otp: nat) {
    otp < s.issued && otp !in s.minted
  }

  /** This half rests on the lock: one call at a time between its read and its delete. */
  predicate VerifiesInv(s: State) {
    && (forall r | r in s.verifies && NeedsLock(s.verifies[r]) :: HeldBy(s.lock, r, s.now))
    && Distinct(s.minted) && (forall otp | otp in s.minted :: otp < s.issued)
    && (s.token.Some? ==> Pending(s, s.token.value))
    && (forall r | r in s.verifies && s.verifies[r].Matched? :: Pending(s, s.verifies[r].otp))
    && (forall r | r in s.verifies && s.verifies[r].Deleted? ::
          Pending(s, s.verifies[r].otp) && s.token != Some(s.verifies[r].otp))
    && (forall r, q | r in s.verifies && q in s.verifies && r != q && s.verifies[r].Deleted?
                      && (s.verifies[q].Deleted? || s.verifies[q].Matched?) :: s.verifies[r].otp != s.verifies[q].otp)
  }

  lemma MintKeepsResetsInv(s: State, r: nat)
    requires ResetsInv(s)
    ensures ResetsInv(Mint(s, r))
  {
    if r in s.verifies && s.verifies[r].Deleted? {
      var t := Mint(s, r);
      assert Unspent(t, |s.minted|);
      assert forall j | 0 <= j < |s.minted| :: |Token(j)| == j && |Token(|s.minted|)| == |s.minted|;
    }
  }

  lemma ConsumeKeepsResetsInv(s: State, r: nat, presented: nat)
    requires ResetsInv(s)
    ensures ResetsInv(ConsumeJti(s, r, presented))
  {
    if HeldBy(s.jti, presented, s.now) {
      var j :| 0 <= j < |s.minted| && Unspent(s, j) && s.jti.value.value == Text(Token(j));
      assert |Token(j)| == j && |Token(presented)| == presented;
    }
  }

  lemma FinishKeepsResetsInv(s: State, r: nat, ok: bool)
    requires ResetsInv(s)
    ensures ResetsInv(FinishReset(s, r, ok))
  {
    if s.jti.Some? {
      var j :| 0 <= j < |s.minted| && Unspent(s, j) && s.jti.value.value == Text(Token(j));
      assert Unspent(FinishReset(s, r, ok), j);
    }
  }

  lemma StepKeepsResetsInv(s: State, a: Action)
    requires ResetsInv(s)
    ensures ResetsInv(Step(s, a))
  {
    match a
    case AMint(r) => MintKeepsResetsInv(s, r);
    case AConsumeJti(r, presented) => ConsumeKeepsResetsInv(s, r, presented);
    case AFinishReset(r, ok) => FinishKeepsResetsInv(s, r, ok);
    case _ =>
      var t := Step(s, a);
      assert t.jti == s.jti && t.minted == s.minted && t.done == s.done && t.resets == s.resets;
      assert forall j :: Unspent(s, j) ==> Unspent(t, j);
  }

  lemma TakeLockKeepsVerifiesInv(s: State, r: nat)
    requires VerifiesInv(s)
    ensures VerifiesInv(TakeLock(s, r))
  {
  }

  /** Only one call needs the lock at a time. */
  lemma OneNeedsLock(s: State, r: nat, q: nat)
    requires VerifiesInv(s) && r in s.verifies && q in s.verifies
    requires NeedsLock(s.verifies[r]) && NeedsLock(s.verifies[q])
    ensures r == q
  {
    OneHolder(s.lock, r, q, s.now);
  }

  lemma DeleteTokenKeepsVerifiesInv(s: State, r: nat)
    requires VerifiesInv(s)
    ensures VerifiesInv(DeleteToken(s, r))
  {
    forall q | q in s.verifies && r in s.verifies && s.verifies[r].Matched? && s.verifies[q].Matched?
      ensures q == r
    {
      OneNeedsLock(s, q, r);
    }
  }

  lemma MintKeepsVerifiesInv(s: State, r: nat)
    requires VerifiesInv(s)
    ensures VerifiesInv(Mint(s, r))
  {
  }

  lemma FreeLockKeepsVerifiesInv(s: State, r: nat)
    requires VerifiesInv(s)
    ensures VerifiesInv(FreeLock(s, r))
  {
    forall q | q in s.verifies && NeedsLock(s.verifies[q]) && r in s.verifies && s.verifies[r].Freeing?
      ensures q == r
    {
      OneNeedsLock(s, q, r);
    }
  }

  lemma ReadTokenKeepsVerifiesInv(s: State, r: nat, expired: bool, matches: bool)
    requires VerifiesInv(s)
    ensures VerifiesInv(ReadToken(s, r, expired, matches))
  {
  }

  lemma ReadLockKeepsVerifiesInv(s: State, r: nat)
    requires VerifiesInv(s)
    ensures VerifiesInv(ReadLock(s, r))
  {
  }

  lemma FailKeepsVerifiesInv(s: State, r: nat)
    requires VerifiesInv(s)
    ensures VerifiesInv(Fail(s, r))
  {
  }

  lemma StepKeepsVerifiesInv(s: State, a: Action)
    requires VerifiesInv(s) && InTime(s, a)
    ensures VerifiesInv(Step(s, a))
  {
    match a
    case AReadToken(r, expired, matches) => ReadTokenKeepsVerifiesInv(s, r, expired, matches);
    case AReadLock(r) => ReadLockKeepsVerifiesInv(s, r);
    case AFail(r) => FailKeepsVerifiesInv(s, r);
    case ATakeLock(r) => TakeLockKeepsVerifiesInv(s, r);
    case ADeleteToken(r) => DeleteTokenKeepsVerifiesInv(s, r);
    case AMint(r) => MintKeepsVerifiesInv(s, r);
    case AFreeLock(r) => FreeLockKeepsVerifiesInv(s, r);
    case _ =>
  }

  lemma {:induction false} RunKeepsInv(s: State, acts: seq<Action>)
    requires ResetsInv(s)
    ensures ResetsInv(Run(s, acts))
    ensures VerifiesInv(s) && InTimeRun(s, acts) ==> VerifiesInv(Run(s, acts))
    decreases |acts|
  {
    if acts != [] {
      StepKeepsResetsInv(s, acts[0]);
      if VerifiesInv(s) && InTimeRun(s, acts) {
        StepKeepsVerifiesInv(s, acts[0]);
      }
      RunKeepsInv(Step(s, acts[0]), acts[1..]);
    }
  }

  lemma {:induction false} DistinctBelow(xs: seq<nat>, n: nat)
    requires Distinct(xs) && forall x | x in xs :: x < n
    ensures |xs| <= n
    decreases n
  {
    if xs != [] {
      assert xs[0] in xs;
      if n - 1 in xs {
        var i :| 0 <= i < |xs| && xs[i] == n - 1;
        var rest := xs[..i] + xs[i + 1..];
        assert forall x | x in rest :: x in xs && x != n - 1;
        DistinctBelow(rest, n - 1);
      } else {
        DistinctBelow(xs, n - 1);
      }
    }
  }

  /** In every interleaving, with or without the lock's help, resets number at most the verifications
      and each spends its own token. */
  lemma ResetsAtMostVerifications(acts: seq<Action>, now: int)
    ensures var s := Run(Initial(now), acts);
            |s.done| <= |s.minted| && Distinct(s.done)
  {
    RunKeepsInv(Initial(now), acts);
    var s := Run(Initial(now), acts);
    DistinctBelow(s.done, |s.minted|);
  }

  /** While no lock runs out on a call that needs it, verifications number at most the issued codes
      and each uses up its own code. */
  lemma VerificationsAtMostIssued(acts: seq<Action>, now: int)
    requires InTimeRun(Initial(now), acts)
    ensures var s := Run(Initial(now), acts);
            |s.minted| <= s.issued && Distinct(s.minted) && |s.done| <= s.issued
  {
    RunKeepsInv(Initial(now), acts);
    var s := Run(Initial(now), acts);
    DistinctBelow(s.minted, s.issued);
    DistinctBelow(s.done, |s.minted|);
  }

  // ----- a lock that runs out on a call that needs it -----

  /** Calls x and y have both compared with the code `otp`, which none has deleted yet. */
  predicate BothMatched(s: State, x: nat, y: nat, otp: nat) {
    x != y && x in s.verifies && y in s.verifies && s.verifies[x] == Matched(otp) && s.verifies[y] == Matched(otp)
  }

  lemma BothVerify(s: State, x: nat, y: nat, otp: nat) returns (acts: seq<Action>)
    requires BothMatched(s, x, y, otp)
    ensures Run(s, acts).minted == s.minted + [otp, otp]
  {
    RunTwo(s, ADeleteToken(x), AMint(x));
    var t := Run(s, [ADeleteToken(x), AMint(x)]);
    assert t.verifies[y] == Matched(otp) && t.minted == s.minted + [otp];
    RunTwo(t, ADeleteToken(y), AMint(y));
    RunAppend(s, [ADeleteToken(x), AMint(x)], [ADeleteToken(y), AMint(y)]);
    acts := [ADeleteToken(x), AMint(x)] + [ADeleteToken(y), AMint(y)];
  }

  /** A call takes the free lock and matches the stored code. */
  lemma Matches(s: State, r: nat) returns (acts: seq<Action>)
    requires r !in s.verifies && LiveAt(s.lock, s.now).None? && s.token.Some?
    ensures Run(s, acts) ==
              s.(verifies := s.verifies[r := Matched(s.token.value)], lock := AfterSet(Token(r), LOCK_SECONDS, s.now))
  {
    acts := [ATakeLock(r), AReadToken(r, false, true)];
    RunTwo(s, ATakeLock(r), AReadToken(r, false, true));
    assert TakeLock(s, r) == PutV(s, r, Locked).(lock := AfterSet(Token(r), LOCK_SECONDS, s.now));
  }

  /** A call that takes the lock has it for thirty seconds. */
  lemma LockIsTakenForThirtySeconds(s: State, r: nat, later: int)
    requires r !in s.verifies && LiveAt(s.lock, s.now).None?
    ensures TakeLock(s, r).verifies[r] == Locked
    ensures HeldBy(TakeLock(s, r).lock, r, later) <==> later < s.now + 30
  {
  }

  /** When the lock runs out: before the holder's read, between its read and its delete, or between
      the two commands of its release. */
  datatype Phase = BeforeRead | BeforeDelete | InRelease

  function Issued(): State {
    Initial(0).(token := Some(0), issued := 1)
  }

  lemma IssueIsFirst()
    ensures Run(Initial(0), [AIssue]) == Issued()
  {
    assert [AIssue][1..] == [];
  }

  lemma ExpiryBeforeRead() returns (acts: seq<Action>)
    ensures BothMatched(Run(Issued(), acts), 0, 1, 0) && Run(Issued(), acts).minted == []
  {
    var s := Issued();
    RunTwo(s, ATakeLock(0), ATick(LOCK_SECONDS));
    acts := [ATakeLock(0), ATick(LOCK_SECONDS)];
    var t := Run(s, acts);
    assert t == s.(verifies := map[0 := Locked], lock := AfterSet(Token(0), LOCK_SECONDS, 0), now := LOCK_SECONDS);
    var rest := Matches(t, 1);
    RunAppend(s, acts, rest);
    acts := acts + rest;
    var u := Run(s, acts);
    assert u.verifies[0] == Locked && u.token == Some(0);
    RunAppend(s, acts, [AReadToken(0, false, true)]);
    assert Run(u, [AReadToken(0, false, true)]) == ReadToken(u, 0, false, true);
    acts := acts + [AReadToken(0, false, true)];
  }

  lemma ExpiryBeforeDelete() returns (acts: seq<Action>)
    ensures BothMatched(Run(Issued(), acts), 0, 1, 0) && Run(Issued(), acts).minted == []
  {
    var s := Issued();
    acts := Matches(s, 0);
    var t := Run(s, acts);
    RunAppend(s, acts, [ATick(LOCK_SECONDS)]);
    acts := acts + [ATick(LOCK_SECONDS)];
    assert Run(t, [ATick(LOCK_SECONDS)]) == t.(now := LOCK_SECONDS);
    var rest := Matches(t.(now := LOCK_SECONDS), 1);
    RunAppend(s, acts, rest);
    acts := acts + rest;
  }

  /** Call 0 has verified code 0 and read its own token back when the lock runs out. */
  lemma ReleaseIsLate() returns (acts: seq<Action>)
    ensures var t := Run(Issued(), acts);
            && t.verifies == map[0 := Freeing] && LiveAt(t.lock, t.now).None? && t.minted == [0]
            && t.token == None && t.issued == 1
  {
    var s := Issued();
    acts := Matches(s, 0);
    var t1 := Run(s, acts);
    RunTwo(t1, ADeleteToken(0), AMint(0));
    RunAppend(s, acts, [ADeleteToken(0), AMint(0)]);
    acts := acts + [ADeleteToken(0), AMint(0)];
    var t2 := Run(s, acts);
    assert t2.verifies == map[0 := Releasing] && t2.lock == AfterSet(Token(0), LOCK_SECONDS, 0) && t2.now == 0;
    RunTwo(t2, AReadLock(0), ATick(LOCK_SECONDS));
    RunAppend(s, acts, [AReadLock(0), ATick(LOCK_SECONDS)]);
    acts := acts + [AReadLock(0), ATick(LOCK_SECONDS)];
    assert HeldBy(t2.lock, 0, 0);
  }

  /** The late DEL then frees the lock of the call that matched the next code. */
  lemma ExpiryInRelease() returns (acts: seq<Action>)
    ensures BothMatched(Run(Issued(), acts), 1, 2, 1) && Run(Issued(), acts).minted == [0]
  {
    var s := Issued();
    acts := ReleaseIsLate();
    var t := Run(s, acts);
    RunAppend(s, acts, [AIssue]);
    acts := acts + [AIssue];
    assert Run(t, [AIssue]) == Issue(t);
    var first := Matches(Issue(t), 1);
    RunAppend(s, acts, first);
    acts := acts + first;
    var u := Run(s, acts);
    assert u.verifies == map[0 := Freeing, 1 := Matched(1)];
    RunAppend(s, acts, [AFreeLock(0)]);
    acts := acts + [AFreeLock(0)];
    assert Run(u, [AFreeLock(0)]) == FreeLock(u, 0);
    var second := Matches(FreeLock(u, 0), 2);
    RunAppend(s, acts, second);
    acts := acts + second;
  }

  /** In each of the three phases the lock is needed: when it runs out there, one code can be verified
      twice. */
  lemma ExpiredLockVerifiesTwice(phase: Phase) returns (acts: seq<Action>)
    ensures !Distinct(Run(Initial(0), acts).minted) && !InTimeRun(Initial(0), acts)
  {
    var x, y, otp := 0, 1, 0;
    var rest;
    match phase {
      case BeforeRead => rest := ExpiryBeforeRead();
      case BeforeDelete => rest := ExpiryBeforeDelete();
      case InRelease =>
        rest := ExpiryInRelease();
        x, y, otp := 1, 2, 1;
    }
    IssueIsFirst();
    RunAppend(Initial(0), [AIssue], rest);
    acts := [AIssue] + rest;
    var s := Run(Initial(0), acts);
    var ending := BothVerify(s, x, y, otp);
    RunAppend(Initial(0), acts, ending);
    acts := acts + ending;
    var minted := Run(Initial(0), acts).minted;
    assert minted[|s.minted|] == minted[|s.minted| + 1];
    TwiceIsNotInTime(acts);
  }

  lemma TwiceIsNotInTime(acts: seq<Action>)
    ensures InTimeRun(Initial(0), acts) ==> Distinct(Run(Initial(0), acts).minted)
  {
    if InTimeRun(Initial(0), acts) {
      VerificationsAtMostIssued(acts, 0);
    }
  }

  lemma RunTwo(s: State, a: Action, b: Action)
    ensures Run(s, [a, b]) == Step(Step(s, a), b)
  {
    assert [a, b][1..] == [b] && Run(Step(s, a), [b]) == Step(Step(s, a), b);
  }

  lemma {:induction false} RunAppend(s: State, a: seq<Action>, b: seq<Action>)
    ensures Run(s, a + b) == Run(Run(s, a), b)
    decreases |a|
  {
    if a == [] {
      assert a + b == b;
    } else {
      assert (a + b)[1..] == a[1..] + b;
      RunAppend(Step(s, a[0]), a[1..], b);
    }
  }

  // ----- the same calls one at a time -----

  const LOCK_KEY := "verify:lock"
  const JTI_KEY := "jti"

  /** The steps of a verify call with nothing in between. */
  function Undisturbed(s: State, r: nat, expired: bool, matches: bool): State {
    var t := Mint(DeleteToken(ReadToken(TakeLock(s, r), r, expired, matches), r), r);
    FreeLock(ReadLock(t, r), r)
  }

  lemma RefusedCallChangesNothing(s: State, r: nat, expired: bool, matches: bool)
    requires s.verifies == map[] && LiveAt(s.lock, s.now).Some?
    ensures Undisturbed(s, r, expired, matches) == PutV(s, r, VerifyDone)
  {
    var t := PutV(s, r, VerifyDone);
    assert TakeLock(s, r) == t;
    assert ReadToken(t, r, expired, matches) == t && DeleteToken(t, r) == t && Mint(t, r) == t;
    assert ReadLock(t, r) == t && FreeLock(t, r) == t;
  }

  /** An undisturbed call with the lock free. */
  lemma AcquiredCall(s: State, r: nat, expired: bool, matches: bool)
    requires s.verifies == map[] && LiveAt(s.lock, s.now).None?
    ensures var t := Undisturbed(s, r, expired, matches);
            var verified := s.token.Some? && !expired && matches;
            t == s.(lock := None, verifies := map[r := VerifyDone],
                    token := if s.token.Some? && (expired || matches) then None else s.token,
                    jti := if verified then AfterSet(Token(|s.minted|), RESET_SECONDS, s.now) else s.jti,
                    minted := if verified then s.minted + [s.token.value] else s.minted)
  {
    var t1 := TakeLock(s, r);
    assert t1.verifies == map[r := Locked] && HeldBy(t1.lock, r, s.now);
    AcquiredSteps(t1, r, expired, matches);
    var t4 := Mint(DeleteToken(ReadToken(t1, r, expired, matches), r), r);
    assert ReadLock(t4, r) == t4.(verifies := map[r := Freeing]);
  }

  lemma AcquiredSteps(s: State, r: nat, expired: bool, matches: bool)
    requires s.verifies == map[r := Locked]
    ensures var verified := s.token.Some? && !expired && matches;
            Mint(DeleteToken(ReadToken(s, r, expired, matches), r), r) ==
            s.(verifies := map[r := Releasing],
               token := if s.token.Some? && (expired || matches) then None else s.token,
               jti := if verified then AfterSet(Token(|s.minted|), RESET_SECONDS, s.now) else s.jti,
               minted := if verified then s.minted + [s.token.value] else s.minted)
  {
  }

  /** One account between calls: the stored code, and the lock and the reset token's id in Redis. */
  class ResetAccount {
    const redis: RedisStore
    var token: Option<nat>
    var issued: nat
    var minted: seq<nat>
    var done: seq<nat>

    constructor ()
      ensures fresh(redis) && forall now :: Abstract(now) == Initial(now)
    {
      redis := new RedisStore();
      token, issued, minted, done := None, 0, [], [];
    }

    ghost function Abstract(now: int): State
      reads this, redis
    {
      State(now, token, issued, Stored(redis.keys, LOCK_KEY), map[], Stored(redis.keys, JTI_KEY), minted, map[], done)
    }

    method ReplaceToken(now: int) returns (otp: nat)
      modifies this
      ensures Abstract(now) == Issue(old(Abstract(now))) && token == Some(otp)
    {
      token := None;
      otp := issued;
      token, issued := Some(otp), issued + 1;
    }

    /** The protocol's steps of call r with nothing in between. */
    method VerifyResetOtp(r: nat, expired: bool, matches: bool, now: int) returns (resetToken: Option<nat>)
      modifies this, redis
      ensures Abstract(now) == Undisturbed(old(Abstract(now)), r, expired, matches).(verifies := map[])
      ensures resetToken.Some? <==>
                LiveAt(old(Abstract(now)).lock, now).None? && old(token).Some? && !expired && matches
      ensures resetToken.Some? ==> minted == old(minted) + [old(token).value] && token == None
      ensures resetToken.Some? ==>
                forall later :: HeldBy(Abstract(now).jti, resetToken.value, later) <==> later < now + 900
      ensures resetToken.None? ==> minted == old(minted) && Abstract(now).jti == old(Abstract(now)).jti
      ensures token == if LiveAt(old(Abstract(now)).lock, now).None? && (expired || matches) then None else old(token)
      ensures LiveAt(old(Abstract(now)).lock, now).None? ==> Abstract(now).lock == None
      ensures LiveAt(old(Abstract(now)).lock, now).Some? ==> Abstract(now).lock == old(Abstract(now)).lock
      ensures done == old(done) && issued == old(issued)
    {
      var acquired := redis.SetNx(LOCK_KEY, Token(r), LOCK_SECONDS, now);
      ghost var s := old(Abstract(now));
      OtherIsKept(old(redis.keys), redis.keys, LOCK_KEY, JTI_KEY);
      if !acquired {
        RefusedCallChangesNothing(s, r, expired, matches);
        return None;
      }
      AcquiredCall(s, r, expired, matches);
      resetToken := None;
      if token.Some? && expired {
        token := None;
      } else if token.Some? && matches {
        var otp := token.value;
        token := None;
        resetToken := Some(|minted|);
        ghost var keys := redis.keys;
        redis.Set(JTI_KEY, Token(|minted|), RESET_SECONDS, now);
        OtherIsKept(keys, redis.keys, JTI_KEY, LOCK_KEY);
        minted := minted + [otp];
      }
      ghost var before := redis.keys;
      redis.ReleaseLock(LOCK_KEY, Token(r), now);
      OtherIsKept(before, redis.keys, LOCK_KEY, JTI_KEY);
    }

    /** `ok`: the user still exists and every later write succeeds. */
    method ResetPassword(r: nat, presented: nat, ok: bool, now: int) returns (changed: bool)
      modifies this, redis
      ensures Abstract(now) == FinishReset(ConsumeJti(old(Abstract(now)), r, presented), r, ok).(resets := map[])
      ensures changed <==> HeldBy(old(Abstract(now)).jti, presented, now) && ok
      ensures Abstract(now).jti == None && Abstract(now).lock == old(Abstract(now)).lock
      ensures done == if changed then old(done) + [presented] else old(done)
      ensures token == old(token) && issued == old(issued) && minted == old(minted)
    {
      ghost var s := old(Abstract(now));
      var stored := redis.GetDel(JTI_KEY, now);
      OtherIsKept(old(redis.keys), redis.keys, JTI_KEY, LOCK_KEY);
      assert stored == Some(Text(Token(presented))) <==> HeldBy(s.jti, presented, now);
      changed := stored == Some(Text(Token(presented))) && ok;
      if changed {
        done := done + [presented];
      }
    }
  }
}
