/** Payments under every interleaving: initiating requests run one statement at a time beside each
    other, the verify, webhook and cancel handlers run as wholes between any two of those statements. */
module PaymentProtocol {
  import opened Json
  import opened PaymentRows

  /** SubReplayed carries the reference of the existing subscription's payment, if it has one. */
  datatype InitReply =
    | Started(reference: string) | Replayed(reference: string) | SubReplayed(existing: Option<string>)
    | Refused | InitFailed

  /** One initiatePayment or initiateSubscription call. */
  datatype Initiate =
    | PayAsked(key: Key)
    | PayDuplicate(key: Key)
    | SubAsked(key: Key, cycle: BillingCycle)
    | SubDuplicate(key: Key, cycle: BillingCycle)
    | Inserted(p: nat)
    | Called(p: nat, reference: string)
    | Answered(reply: InitReply)

  /** `calls` lists the keys of all provider initiate calls; `replies` the key and reference of every
      successful reply. */
  datatype State = State(tables: Tables, prices: Prices, inits: map<nat, Initiate>,
                         calls: seq<Key>, replies: seq<(Key, string)>, events: seq<Event>)

  function Initial(prices: Prices): State {
    State(Tables(map[], map[]), prices, map[], [], [], [])
  }

  function Put(s: State, r: nat, q: Initiate): State {
    s.(inits := s.inits[r := q])
  }

  predicate KeyTaken(t: Tables, key: Key) {
    exists p | p in t.payments :: t.payments[p].key == key
  }

  function NewPayment(user: nat, sub: Option<nat>, kind: PaymentType, amount: int, key: Key): Payment {
    Payment(user, sub, kind, amount, Pending, None, key, None)
  }

  function KeyKindOf(cycle: BillingCycle): KeyKind {
    if cycle.Annual? then ForAnnual else ForMonthly
  }

  function NewSubscriptionPayment(prices: Prices, user: nat, sub: nat, cycle: BillingCycle, hour: int): Payment {
    var amount := if cycle.Annual? then prices.annual else prices.monthly;
    NewPayment(user, Some(sub), Recurring, amount, Key(user, KeyKindOf(cycle), hour))
  }

  // ----- initiating, statement by statement -----

  function AskPayment(s: State, r: nat, user: nat, hour: int): State {
    if r in s.inits then s else Put(s, r, PayAsked(Key(user, ForOneTime, hour)))
  }

  function InsertPayment(s: State, r: nat, p: nat): State {
    if !(r in s.inits && s.inits[r].PayAsked? && p !in s.tables.payments) then s
    else
      var key := s.inits[r].key;
      if KeyTaken(s.tables, key) then Put(s, r, PayDuplicate(key))
      else
        var row := NewPayment(key.user, None, OneTime, s.prices.oneTime, key);
        Put(s, r, Inserted(p)).(tables := s.tables.(payments := s.tables.payments[p := row]))
  }

  /** The row that made the insert fail is read again: with a reference the call is replayed, else 409. */
  ghost function ReadDuplicate(s: State, r: nat): State {
    if !(r in s.inits && s.inits[r].PayDuplicate?) then s
    else
      var key := s.inits[r].key;
      if p :| p in s.tables.payments && s.tables.payments[p].key == key && s.tables.payments[p].reference.Some? then
        var reference := s.tables.payments[p].reference.value;
        Put(s, r, Answered(Replayed(reference))).(replies := s.replies + [(key, reference)])
      else Put(s, r, Answered(Refused))
  }

  function AskSubscription(s: State, r: nat, user: nat, cycle: BillingCycle, hour: int): State {
    if r in s.inits then s else Put(s, r, SubAsked(Key(user, KeyKindOf(cycle), hour), cycle))
  }

  /** Both rows in one transaction; a clash with either unique index undoes both. */
  ghost function InsertSubscription(s: State, r: nat, p: nat, sub: nat, now: int): State {
    if !(r in s.inits && s.inits[r].SubAsked? && p !in s.tables.payments && sub !in s.tables.subs) then s
    else
      var key, cycle := s.inits[r].key, s.inits[r].cycle;
      if KeyTaken(s.tables, key) || exists u :: IsInFlight(s.tables, u, key.user)
          then Put(s, r, SubDuplicate(key, cycle))
      else
        var subRow := NewSubscription(key.user, cycle, SubPending, now, PeriodEnd(cycle, now));
        var row := NewSubscriptionPayment(s.prices, key.user, sub, cycle, key.hour).(key := key);
        Put(s, r, Inserted(p)).(tables := Tables(s.tables.payments[p := row], s.tables.subs[sub := subRow]))
  }

  /** The reply to a duplicate subscription. `latest` is the user's newest subscription of that cycle:
      once it has a provider code its payment's reference is returned, otherwise 409. */
  ghost function ExistingReply(t: Tables, user: nat, cycle: BillingCycle, latest: Option<nat>): InitReply {
    if latest.Some? && latest.value in t.subs && t.subs[latest.value].user == user
       && t.subs[latest.value].cycle == cycle && HasCode(t.subs[latest.value])
    then
      SubReplayed(
        if p :| p in t.payments && t.payments[p].subscription == latest then t.payments[p].reference else None)
    else Refused
  }

  /** An empty code is a missing one. */
  predicate HasCode(sub: Subscription) {
    sub.code.Some? && sub.code.value != ""
  }

  ghost function ReadExisting(s: State, r: nat, latest: Option<nat>): State {
    if !(r in s.inits && s.inits[r].SubDuplicate?) then s
    else Put(s, r, Answered(ExistingReply(s.tables, s.inits[r].key.user, s.inits[r].cycle, latest)))
  }

  /** `outcome` is the reference the provider gives, or None when the call fails. */
  function CallProvider(s: State, r: nat, outcome: Option<string>): State {
    if !(r in s.inits && s.inits[r].Inserted? && s.inits[r].p in s.tables.payments) then s
    else
      var t := s.(calls := s.calls + [s.tables.payments[s.inits[r].p].key]);
      match outcome
      case Some(reference) => Put(t, r, Called(s.inits[r].p, reference))
      case None => Put(t, r, Answered(InitFailed))
  }

  /** A reference some other payment already has is rejected by its unique index. */
  ghost function StoreReference(s: State, r: nat): State {
    if !(r in s.inits && s.inits[r].Called? && s.inits[r].p in s.tables.payments) then s
    else
      var p, reference := s.inits[r].p, s.inits[r].reference;
      if exists q :: q != p && IsPayment(s.tables, q, reference) then Put(s, r, Answered(InitFailed))
      else
        var row := s.tables.payments[p].(reference := Some(reference));
        Put(s, r, Answered(Started(reference))).(
          tables := s.tables.(payments := s.tables.payments[p := row]),
          replies := s.replies + [(row.key, reference)])
  }

  function Crash(s: State, r: nat): State {
    if r in s.inits then Put(s, r, Answered(InitFailed)) else s
  }

  // ----- handlers as single steps -----

  ghost function DoVerify(s: State, user: nat, reference: string, gateway: Gateway, now: int, newSub: nat): State {
    if newSub in s.tables.subs then s
    else
      var (t, events, _) := Verify(s.tables, user, reference, gateway, now, newSub);
      s.(tables := t, events := s.events + events)
  }

  ghost function DoChargeSuccess(s: State, reference: string, amount: Option<int>, now: int, newSub: nat): State {
    if newSub in s.tables.subs then s
    else
      var (t, events) := ChargeSuccess(s.tables, reference, amount, now, newSub);
      s.(tables := t, events := s.events + events)
  }

  ghost function DoChargeFailed(s: State, reference: string): State {
    var (t, events) := ChargeFailed(s.tables, reference);
    s.(tables := t, events := s.events + events)
  }

  ghost function DoCancelByUser(s: State, user: nat, providerOk: bool, now: int): State {
    var (t, events, _) := CancelByUser(s.tables, user, providerOk, now);
    s.(tables := t, events := s.events + events)
  }

  datatype Action =
    | AAskPayment(r: nat, user: nat, hour: int) | AInsertPayment(r: nat, p: nat) | AReadDuplicate(r: nat)
    | AAskSubscription(r: nat, user: nat, cycle: BillingCycle, hour: int)
    | AInsertSubscription(r: nat, p: nat, sub: nat, now: int) | AReadExisting(r: nat, latest: Option<nat>)
    | ACallProvider(r: nat, outcome: Option<string>) | AStoreReference(r: nat) | ACrash(r: nat)
    | AVerify(user: nat, reference: string, gateway: Gateway, now: int, newSub: nat)
    | AChargeSuccess(reference: string, amount: Option<int>, now: int, newSub: nat)
    | AChargeFailed(reference: string)
    | ACancelByUser(user: nat, providerOk: bool, now: int)
    | ACancelByProvider(sub: nat, code: string, now: int)
    | ASetNotRenew(sub: nat, code: string) | ASetCode(sub: nat, code: string)

  ghost function Step(s: State, a: Action): State {
    match a
    case AAskPayment(r, user, hour) => AskPayment(s, r, user, hour)
    case AInsertPayment(r, p) => InsertPayment(s, r, p)
    case AReadDuplicate(r) => ReadDuplicate(s, r)
    case AAskSubscription(r, user, cycle, hour) => AskSubscription(s, r, user, cycle, hour)
    case AInsertSubscription(r, p, sub, now) => InsertSubscription(s, r, p, sub, now)
    case AReadExisting(r, latest) => ReadExisting(s, r, latest)
    case ACallProvider(r, outcome) => CallProvider(s, r, outcome)
    case AStoreReference(r) => StoreReference(s, r)
    case ACrash(r) => Crash(s, r)
    case AVerify(user, reference, gateway, now, newSub) => DoVerify(s, user, reference, gateway, now, newSub)
    case AChargeSuccess(reference, amount, now, newSub) => DoChargeSuccess(s, reference, amount, now, newSub)
    case AChargeFailed(reference) => DoChargeFailed(s, reference)
    case ACancelByUser(user, ok, now) => DoCancelByUser(s, user, ok, now)
    case ACancelByProvider(sub, code, now) => s.(tables := CancelByProvider(s.tables, sub, code, now))
    case ASetNotRenew(sub, code) => s.(tables := SetNotRenew(s.tables, sub, code))
    case ASetCode(sub, code) => s.(tables := SetCode(s.tables, sub, code))
  }

  ghost function Run(s: State, acts: seq<Action>): State
    decreases |acts|
  {
    if acts == [] then s else Run(Step(s, acts[0]), acts[1..])
  }

  // ----- the invariant -----

  predicate Distinct<T(==)>(xs: seq<T>) {
    forall i, j | 0 <= i < j < |xs| :: xs[i] != xs[j]
  }

  predicate HasReference(t: Tables, key: Key, reference: string) {
    exists p | p in t.payments :: t.payments[p].key == key && t.payments[p].reference == Some(reference)
  }

  predicate CallsInv(s: State) {
    Distinct(s.calls) && forall k | k in s.calls :: KeyTaken(s.tables, k)
  }

  predicate Owns(q: Initiate) {
    q.Inserted? || q.Called?
  }

  predicate InitInv(s: State, q: Initiate) {
    Owns(q) ==>
      && q.p in s.tables.payments && s.tables.payments[q.p].reference.None?
      && (q.Inserted? ==> s.tables.payments[q.p].key !in s.calls)
  }

  predicate InitsInv(s: State) {
    && (forall r | r in s.inits :: InitInv(s, s.inits[r]))
    && forall r, u | r in s.inits && u in s.inits && r != u && Owns(s.inits[r]) && Owns(s.inits[u]) ::
         s.inits[r].p != s.inits[u].p
  }

  predicate RepliesInv(s: State) {
    forall kr | kr in s.replies :: HasReference(s.tables, kr.0, kr.1)
  }

  ghost predicate SettledAs(t: Tables, reference: string, user: nat, status: PaymentStatus) {
    exists p :: IsPayment(t, p, reference) && t.payments[p].user == user && t.payments[p].status == status
  }

  /** An upgrade or failure event names a payment that ended that way. */
  ghost predicate EventBacked(t: Tables, e: Event) {
    match e
    case PlanUpgraded(user, reference) => SettledAs(t, reference, user, Success)
    case PaymentFailed(user, reference) => SettledAs(t, reference, user, Failed)
    case _ => true
  }

  predicate SameOutcome(e: Event, f: Event) {
    (e.PlanUpgraded? || e.PaymentFailed?) && (f.PlanUpgraded? || f.PaymentFailed?) && e.reference == f.reference
  }

  ghost predicate EventsInv(s: State) {
    && (forall e | e in s.events :: EventBacked(s.tables, e))
    && forall i, j | 0 <= i < j < |s.events| :: !SameOutcome(s.events[i], s.events[j])
  }

  ghost predicate Inv(s: State) {
    TablesInv(s.tables) && CallsInv(s) && InitsInv(s) && RepliesInv(s) && EventsInv(s)
  }

  // ----- initiating keeps it -----

  lemma PutKeepsInv(s: State, r: nat, q: Initiate)
    requires Inv(s) && !Owns(q)
    ensures Inv(Put(s, r, q))
  {
    var s' := Put(s, r, q);
    forall u | u in s'.inits
      ensures InitInv(s', s'.inits[u])
    {
      assert u != r ==> InitInv(s, s.inits[u]);
    }
  }

  /** What was true of references, keys and outcomes stays true when rows only move forward. */
  lemma MoveForwardKeepsRecords(s: State, t: Tables)
    requires Inv(s) && TablesMoveForward(s.tables, t)
    ensures CallsInv(s.(tables := t)) && RepliesInv(s.(tables := t)) && EventsInv(s.(tables := t))
  {
    forall k | k in s.calls
      ensures KeyTaken(t, k)
    {
      var p :| p in s.tables.payments && s.tables.payments[p].key == k;
      assert p in t.payments && PaymentMovesForward(s.tables.payments[p], t.payments[p]);
    }
    forall kr | kr in s.replies
      ensures HasReference(t, kr.0, kr.1)
    {
      var p :| p in s.tables.payments && s.tables.payments[p].key == kr.0
          && s.tables.payments[p].reference == Some(kr.1);
      assert p in t.payments && PaymentMovesForward(s.tables.payments[p], t.payments[p]);
    }
    forall e | e in s.events
      ensures EventBacked(t, e)
    {
      assert EventBacked(s.tables, e);
      if e.PlanUpgraded? || e.PaymentFailed? {
        var p :| IsPayment(s.tables, p, e.reference) && s.tables.payments[p].user == e.user
                 && s.tables.payments[p].status == (if e.PlanUpgraded? then Success else Failed);
        assert p in t.payments && PaymentMovesForward(s.tables.payments[p], t.payments[p]);
        assert IsPayment(t, p, e.reference);
      }
    }
  }

  lemma InsertPaymentKeepsInv(s: State, r: nat, p: nat)
    requires Inv(s)
    ensures Inv(InsertPayment(s, r, p)) && TablesMoveForward(s.tables, InsertPayment(s, r, p).tables)
  {
    var t := InsertPayment(s, r, p);
    if r in s.inits && s.inits[r].PayAsked? && p !in s.tables.payments {
      if KeyTaken(s.tables, s.inits[r].key) {
        PutKeepsInv(s, r, PayDuplicate(s.inits[r].key));
      } else {
        NewPaymentKeepsInv(s, r, p, t.tables);
      }
    }
  }

  lemma NewSubscriptionFits(t: Tables, user: nat, sub: nat, row: Subscription)
    requires TablesInv(t) && sub !in t.subs && row.user == user && row.status.SubPending? && row.cancelledAt.None?
    requires !exists s :: IsInFlight(t, s, user)
    ensures var u := t.(subs := t.subs[sub := row]);
            UniqueInFlight(u) && CancelTimes(u) && forall s | s in t.subs :: SubMovesForward(t.subs[s], u.subs[s])
  {
    forall s | s in t.subs && InFlight(t.subs[s])
      ensures t.subs[s].user != user
    {
      assert t.subs[s].user == user ==> IsInFlight(t, s, user);
    }
  }

  lemma InsertSubscriptionKeepsInv(s: State, r: nat, p: nat, sub: nat, now: int)
    requires Inv(s)
    ensures Inv(InsertSubscription(s, r, p, sub, now))
    ensures TablesMoveForward(s.tables, InsertSubscription(s, r, p, sub, now).tables)
  {
    var t := InsertSubscription(s, r, p, sub, now);
    if r in s.inits && s.inits[r].SubAsked? && p !in s.tables.payments && sub !in s.tables.subs {
      var user := s.inits[r].key.user;
      if KeyTaken(s.tables, s.inits[r].key) || exists u :: IsInFlight(s.tables, u, user) {
        PutKeepsInv(s, r, SubDuplicate(s.inits[r].key, s.inits[r].cycle));
      } else {
        NewSubscriptionFits(s.tables, user, sub, t.tables.subs[sub]);
        NewPaymentKeepsInv(s, r, p, t.tables);
      }
    }
  }

  lemma SubscriptionRowsFit(t: Tables, prices: Prices, user: nat, p: nat, sub: nat, cycle: BillingCycle, hour: int,
                            now: int)
    requires TablesInv(t) && p !in t.payments && sub !in t.subs
    requires FindInFlight(t, user).None? && !KeyTaken(t, Key(user, KeyKindOf(cycle), hour))
    ensures TablesInv(Tables(t.payments[p := NewSubscriptionPayment(prices, user, sub, cycle, hour)],
                             t.subs[sub := NewSubscription(user, cycle, SubPending, now, PeriodEnd(cycle, now))]))
  {
    assert forall s :: !IsInFlight(t, s, user);
    NewSubscriptionFits(t, user, sub, NewSubscription(user, cycle, SubPending, now, PeriodEnd(cycle, now)));
  }

  /** Inserting a payment under a fresh key, with whatever subscription rows come along. */
  lemma NewPaymentKeepsInv(s: State, r: nat, p: nat, t: Tables)
    requires Inv(s) && r in s.inits && p !in s.tables.payments
    requires p in t.payments && t.payments == s.tables.payments[p := t.payments[p]]
    requires t.payments[p].reference.None? && !KeyTaken(s.tables, t.payments[p].key)
    requires UniqueInFlight(t) && CancelTimes(t) && OwnSubscriptions(t) && TablesMoveForward(s.tables, t)
    ensures Inv(Put(s, r, Inserted(p)).(tables := t))
  {
    var u := Put(s, r, Inserted(p)).(tables := t);
    MoveForwardKeepsRecords(s, t);
    assert UniqueKeys(t) && UniqueReferences(t);
    assert t.payments[p].key !in s.calls;
    forall v | v in u.inits
      ensures InitInv(u, u.inits[v])
      ensures v != r && Owns(u.inits[v]) ==> u.inits[v].p != p
    {
      assert v != r ==> InitInv(s, s.inits[v]);
    }
  }

  lemma ReadDuplicateKeepsInv(s: State, r: nat)
    requires Inv(s)
    ensures Inv(ReadDuplicate(s, r)) && ReadDuplicate(s, r).tables == s.tables
  {
    var t := ReadDuplicate(s, r);
    if r in s.inits && s.inits[r].PayDuplicate? {
      PutKeepsInv(s, r, t.inits[r]);
      assert forall kr | kr in t.replies && kr !in s.replies :: HasReference(s.tables, kr.0, kr.1);
    }
  }

  lemma CallProviderKeepsInv(s: State, r: nat, outcome: Option<string>)
    requires Inv(s)
    ensures Inv(CallProvider(s, r, outcome)) && CallProvider(s, r, outcome).tables == s.tables
  {
    if r in s.inits && s.inits[r].Inserted? {
      var t := CallProvider(s, r, outcome);
      var p := s.inits[r].p;
      assert InitInv(s, s.inits[r]);
      forall v | v in t.inits
        ensures InitInv(t, t.inits[v])
      {
        if v != r {
          assert InitInv(s, s.inits[v]);
        }
      }
    }
  }

  predicate Stores(s: State, r: nat, p: nat, reference: string) {
    && r in s.inits && s.inits[r] == Called(p, reference) && p in s.tables.payments
    && forall q | q in s.tables.payments && q != p :: !IsPayment(s.tables, q, reference)
  }

  lemma StoredTables(s: State, r: nat, p: nat, reference: string)
    requires Inv(s) && Stores(s, r, p, reference)
    ensures var t := StoreReference(s, r);
            && TablesInv(t.tables) && TablesMoveForward(s.tables, t.tables)
            && t.tables.payments[p] == s.tables.payments[p].(reference := Some(reference))
            && HasReference(t.tables, t.tables.payments[p].key, reference)
  {
    assert InitInv(s, s.inits[r]);
    assert forall q | q != p :: !IsPayment(s.tables, q, reference);
    assert IsPayment(StoreReference(s, r).tables, p, reference);
  }

  lemma StoreReferenceKeepsInv(s: State, r: nat)
    requires Inv(s)
    ensures Inv(StoreReference(s, r)) && TablesMoveForward(s.tables, StoreReference(s, r).tables)
  {
    if r in s.inits && s.inits[r].Called? {
      var t := StoreReference(s, r);
      var p, reference := s.inits[r].p, s.inits[r].reference;
      assert InitInv(s, s.inits[r]);
      if exists q :: q != p && IsPayment(s.tables, q, reference) {
        PutKeepsInv(s, r, Answered(InitFailed));
      } else {
        StoredTables(s, r, p, reference);
        MoveForwardKeepsRecords(s, t.tables);
        forall v | v in t.inits
          ensures InitInv(t, t.inits[v])
        {
          assert v != r ==> InitInv(s, s.inits[v]);
        }
      }
    }
  }

  // ----- handlers keep it -----

  /** A handler that leaves references alone, moves rows forward and emits at most one event, backed by
      a payment that was PENDING before, keeps the invariant. */
  lemma HandlerKeepsInv(s: State, t: Tables, events: seq<Event>)
    requires Inv(s) && TablesInv(t) && TablesMoveForward(s.tables, t)
    requires t.payments.Keys == s.tables.payments.Keys
    requires forall p | p in t.payments :: t.payments[p].reference == s.tables.payments[p].reference
    requires |events| <= 1 && forall e | e in events :: EventBacked(t, e)
    requires forall e, p | e in events && !e.SubscriptionCancelled? && IsPayment(s.tables, p, e.reference) ::
               s.tables.payments[p].status.Pending?
    ensures Inv(s.(tables := t, events := s.events + events))
  {
    var u := s.(tables := t, events := s.events + events);
    MoveForwardKeepsRecords(s, t);
    forall r | r in u.inits
      ensures InitInv(u, u.inits[r])
    {
      assert InitInv(s, s.inits[r]);
      if Owns(s.inits[r]) {
        assert PaymentMovesForward(s.tables.payments[s.inits[r].p], t.payments[s.inits[r].p]);
      }
    }
    if events != [] {
      var e := events[0];
      assert e in events && u.events == s.events + [e];
      forall f | f in s.events
        ensures !SameOutcome(f, e)
      {
        assert EventBacked(s.tables, f);
      }
    }
  }

  lemma ChargeSuccessKeepsInv(s: State, reference: string, amount: Option<int>, now: int, newSub: nat)
    requires Inv(s)
    ensures Inv(DoChargeSuccess(s, reference, amount, now, newSub))
    ensures TablesMoveForward(s.tables, DoChargeSuccess(s, reference, amount, now, newSub).tables)
  {
    if newSub !in s.tables.subs {
      var (t, events) := ChargeSuccess(s.tables, reference, amount, now, newSub);
      SettledStep(s, reference, now, newSub, t, events);
    }
  }

  /** Common to both settling handlers: either nothing changes, or a PENDING payment is settled. */
  lemma SettledStep(s: State, reference: string, now: int, newSub: nat, t: Tables, events: seq<Event>)
    requires Inv(s) && newSub !in s.tables.subs
    requires
      || (t == s.tables && events == [])
      || (&& FindPayment(s.tables, reference).Some?
          && var p := FindPayment(s.tables, reference).value;
             && s.tables.payments[p].status.Pending? && t == Settle(s.tables, p, now, newSub).0
             && (events == [] || events == [PlanUpgraded(s.tables.payments[p].user, reference)]))
    ensures Inv(s.(tables := t, events := s.events + events)) && TablesMoveForward(s.tables, t)
  {
    if FindPayment(s.tables, reference).Some? && t != s.tables {
      var p := FindPayment(s.tables, reference).value;
      SettleKeepsInv(s.tables, p, now, newSub);
      SettleMovesForward(s.tables, p, now, newSub);
      assert IsPayment(t, p, reference);
      HandlerKeepsInv(s, t, events);
    } else {
      assert s.events + [] == s.events;
    }
  }

  lemma FailedStep(s: State, reference: string, t: Tables, events: seq<Event>)
    requires Inv(s)
    requires
      || (t == s.tables && events == [])
      || (&& FindPayment(s.tables, reference).Some?
          && var p := FindPayment(s.tables, reference).value;
             && s.tables.payments[p].status.Pending?
             && t == s.tables.(payments := s.tables.payments[p := s.tables.payments[p].(status := Failed)])
             && (events == [] || events == [PaymentFailed(s.tables.payments[p].user, reference)]))
    ensures Inv(s.(tables := t, events := s.events + events)) && TablesMoveForward(s.tables, t)
  {
    if FindPayment(s.tables, reference).Some? && t != s.tables {
      var p := FindPayment(s.tables, reference).value;
      ReplacedPaymentKeepsInv(s.tables, p, s.tables.payments[p].(status := Failed));
      assert IsPayment(t, p, reference);
      HandlerKeepsInv(s, t, events);
    } else {
      assert s.events + [] == s.events;
    }
  }

  lemma ChargeFailedKeepsInv(s: State, reference: string)
    requires Inv(s)
    ensures Inv(DoChargeFailed(s, reference)) && TablesMoveForward(s.tables, DoChargeFailed(s, reference).tables)
  {
    var (t, events) := ChargeFailed(s.tables, reference);
    FailedStep(s, reference, t, events);
  }

  lemma VerifyKeepsInv(s: State, user: nat, reference: string, gateway: Gateway, now: int, newSub: nat)
    requires Inv(s)
    ensures Inv(DoVerify(s, user, reference, gateway, now, newSub))
    ensures TablesMoveForward(s.tables, DoVerify(s, user, reference, gateway, now, newSub).tables)
  {
    if newSub !in s.tables.subs {
      var (t, events, reply) := Verify(s.tables, user, reference, gateway, now, newSub);
      if reply == Resolved(Success) {
        SettledStep(s, reference, now, newSub, t, events);
      } else {
        FailedStep(s, reference, t, events);
      }
    }
  }

  lemma SubHandlersKeepInv(s: State, sub: nat, row: Subscription, events: seq<Event>)
    requires Inv(s) && sub in s.tables.subs && SubMovesForward(s.tables.subs[sub], row)
    requires InFlight(row) ==> InFlight(s.tables.subs[sub])
    requires row.cancelledAt.Some? <==> row.status.SubCancelled?
    requires |events| <= 1 && forall e | e in events :: e.SubscriptionCancelled?
    ensures var t := s.tables.(subs := s.tables.subs[sub := row]);
            Inv(s.(tables := t, events := s.events + events)) && TablesMoveForward(s.tables, t)
  {
    ReplacedSubKeepsInv(s.tables, sub, row);
    HandlerKeepsInv(s, s.tables.(subs := s.tables.subs[sub := row]), events);
  }

  lemma CancelByUserKeepsInv(s: State, user: nat, providerOk: bool, now: int)
    requires Inv(s)
    ensures Inv(DoCancelByUser(s, user, providerOk, now))
    ensures TablesMoveForward(s.tables, DoCancelByUser(s, user, providerOk, now).tables)
  {
    var (t, events, reply) := CancelByUser(s.tables, user, providerOk, now);
    if reply.CancelDone? {
      var sub := FindInFlight(s.tables, user).value;
      SubHandlersKeepInv(s, sub, t.subs[sub], events);
    } else {
      assert s.events + [] == s.events;
    }
  }

  lemma ProviderSubHandlersKeepInv(s: State, sub: nat, code: string, now: int)
    requires Inv(s)
    ensures Inv(s.(tables := CancelByProvider(s.tables, sub, code, now)))
    ensures TablesMoveForward(s.tables, CancelByProvider(s.tables, sub, code, now))
    ensures Inv(s.(tables := SetNotRenew(s.tables, sub, code)))
              && TablesMoveForward(s.tables, SetNotRenew(s.tables, sub, code))
    ensures Inv(s.(tables := SetCode(s.tables, sub, code))) && TablesMoveForward(s.tables, SetCode(s.tables, sub, code))
  {
    assert s.events + [] == s.events;
    if HoldsCode(s.tables, sub, code) {
      SubHandlersKeepInv(s, sub, CancelByProvider(s.tables, sub, code, now).subs[sub], []);
      SubHandlersKeepInv(s, sub, SetNotRenew(s.tables, sub, code).subs[sub], []);
    }
    if sub in s.tables.subs {
      SubHandlersKeepInv(s, sub, SetCode(s.tables, sub, code).subs[sub], []);
    }
  }

  /** Every action keeps the invariant and moves every row only forward. */
  predicate OnInitiates(a: Action) {
    a.AAskPayment? || a.AInsertPayment? || a.AReadDuplicate? || a.AAskSubscription? || a.AInsertSubscription?
    || a.AReadExisting?
    || a.ACallProvider? || a.AStoreReference? || a.ACrash?
  }

  lemma InitiateStepKeepsInv(s: State, a: Action)
    requires Inv(s) && OnInitiates(a)
    ensures Inv(Step(s, a)) && TablesMoveForward(s.tables, Step(s, a).tables)
  {
    match a
    case AAskPayment(r, user, hour) => PutKeepsInv(s, r, PayAsked(Key(user, ForOneTime, hour)));
    case AInsertPayment(r, p) => InsertPaymentKeepsInv(s, r, p);
    case AReadDuplicate(r) => ReadDuplicateKeepsInv(s, r);
    case AAskSubscription(r, user, cycle, hour) =>
      PutKeepsInv(s, r, SubAsked(Key(user, KeyKindOf(cycle), hour), cycle));
    case AInsertSubscription(r, p, sub, now) => InsertSubscriptionKeepsInv(s, r, p, sub, now);
    case AReadExisting(r, latest) =>
      if r in s.inits && s.inits[r].SubDuplicate? {
        PutKeepsInv(s, r, ReadExisting(s, r, latest).inits[r]);
      }
    case ACallProvider(r, outcome) => CallProviderKeepsInv(s, r, outcome);
    case AStoreReference(r) => StoreReferenceKeepsInv(s, r);
    case ACrash(r) => PutKeepsInv(s, r, Answered(InitFailed));
  }

  lemma StepKeepsInv(s: State, a: Action)
    requires Inv(s)
    ensures Inv(Step(s, a)) && TablesMoveForward(s.tables, Step(s, a).tables)
  {
    match a
    case AVerify(user, reference, gateway, now, newSub) => VerifyKeepsInv(s, user, reference, gateway, now, newSub);
    case AChargeSuccess(reference, amount, now, newSub) => ChargeSuccessKeepsInv(s, reference, amount, now, newSub);
    case AChargeFailed(reference) => ChargeFailedKeepsInv(s, reference);
    case ACancelByUser(user, ok, now) => CancelByUserKeepsInv(s, user, ok, now);
    case ACancelByProvider(sub, code, now) => ProviderSubHandlersKeepInv(s, sub, code, now);
    case ASetNotRenew(sub, code) => ProviderSubHandlersKeepInv(s, sub, code, 0);
    case ASetCode(sub, code) => ProviderSubHandlersKeepInv(s, sub, code, 0);
    case _ => InitiateStepKeepsInv(s, a);
  }
}
