/** The payments and subscriptions tables and the handlers that settle, fail and cancel on them. */
module PaymentRows {
  import opened Json
  import opened Calendar

  datatype PaymentStatus = Pending | Success | Failed | Refunded
  datatype PaymentType = OneTime | Recurring
  datatype BillingCycle = Monthly | Annual
  datatype SubStatus = SubPending | SubActive | SubCancelled | SubExpired

  /** What the sha-256 idempotency key is computed from; the hash is taken to be injective. */
  datatype KeyKind = ForOneTime | ForMonthly | ForAnnual
  datatype Key = Key(user: nat, kind: KeyKind, hour: int)

  datatype Payment = Payment(user: nat, subscription: Option<nat>, kind: PaymentType, amount: int,
                             status: PaymentStatus, reference: Option<string>, key: Key, paidAt: Option<int>)
  datatype Subscription = Subscription(user: nat, cycle: BillingCycle, status: SubStatus, code: Option<string>,
                                       periodStart: int, periodEnd: int,
                                       cancelAtPeriodEnd: bool, cancelledAt: Option<int>)

  datatype Tables = Tables(payments: map<nat, Payment>, subs: map<nat, Subscription>)

  datatype Prices = Prices(oneTime: int, monthly: int, annual: int)

  datatype Event =
    | PlanUpgraded(user: nat, reference: string)
    | PaymentFailed(user: nat, reference: string)
    | SubscriptionCancelled(user: nat, sub: nat, accessUntil: int)

  // ----- unique indexes -----

  predicate InFlight(sub: Subscription) {
    sub.status.SubPending? || sub.status.SubActive?
  }

  predicate UniqueKeys(t: Tables) {
    forall p, q | p in t.payments && q in t.payments && p != q :: t.payments[p].key != t.payments[q].key
  }

  predicate UniqueReferences(t: Tables) {
    forall p, q | p in t.payments && q in t.payments && p != q ::
      t.payments[p].reference.Some? ==> t.payments[p].reference != t.payments[q].reference
  }

  /** The partial index: one PENDING or ACTIVE subscription per user. */
  predicate UniqueInFlight(t: Tables) {
    forall s, u | s in t.subs && u in t.subs && s != u && InFlight(t.subs[s]) && InFlight(t.subs[u]) ::
      t.subs[s].user != t.subs[u].user
  }

  predicate CancelTimes(t: Tables) {
    forall s | s in t.subs :: t.subs[s].cancelledAt.Some? <==> t.subs[s].status.SubCancelled?
  }

  /** The foreign key: a payment's subscription is there and belongs to its user. */
  predicate OwnSubscriptions(t: Tables) {
    forall p | p in t.payments && t.payments[p].subscription.Some? ::
      t.payments[p].subscription.value in t.subs && t.subs[t.payments[p].subscription.value].user == t.payments[p].user
  }

  predicate TablesInv(t: Tables) {
    UniqueKeys(t) && UniqueReferences(t) && UniqueInFlight(t) && CancelTimes(t) && OwnSubscriptions(t)
  }

  // ----- lookups -----

  predicate IsPayment(t: Tables, p: nat, reference: string) {
    p in t.payments && t.payments[p].reference == Some(reference)
  }

  predicate IsInFlight(t: Tables, s: nat, user: nat) {
    s in t.subs && t.subs[s].user == user && InFlight(t.subs[s])
  }

  ghost function FindPayment(t: Tables, reference: string): Option<nat> {
    if exists p :: IsPayment(t, p, reference) then
      var p :| IsPayment(t, p, reference); Some(p)
    else None
  }

  ghost function FindInFlight(t: Tables, user: nat): Option<nat> {
    if exists s :: IsInFlight(t, s, user) then
      var s :| IsInFlight(t, s, user); Some(s)
    else None
  }

  lemma FindPaymentIs(t: Tables, reference: string, p: nat)
    requires UniqueReferences(t) && IsPayment(t, p, reference)
    ensures FindPayment(t, reference) == Some(p)
  {
  }

  lemma FindInFlightIs(t: Tables, user: nat, s: nat)
    requires UniqueInFlight(t) && IsInFlight(t, s, user)
    ensures FindInFlight(t, user) == Some(s)
  {
  }

  predicate HasActive(t: Tables, user: nat) {
    exists s | s in t.subs :: t.subs[s].user == user && t.subs[s].status.SubActive?
  }

  // ----- activation -----

  function Activated(sub: Subscription, start: int, end: int): Subscription {
    sub.(status := SubActive, periodStart := start, periodEnd := end)
  }

  function NewSubscription(user: nat, cycle: BillingCycle, status: SubStatus, start: int, end: int): Subscription {
    Subscription(user, cycle, status, None, start, end, false, None)
  }

  function PeriodEnd(cycle: BillingCycle, start: int): int {
    if cycle.Annual? then PlusYear(start) else PlusMonth(start)
  }

  /** activateProSubscription: keep an ACTIVE row, upgrade a PENDING one, insert only when there is neither. */
  ghost function ActivatePro(t: Tables, user: nat, now: int, newSub: nat): Tables {
    match FindInFlight(t, user)
    case Some(s) =>
      if t.subs[s].status.SubActive? then t
      else t.(subs := t.subs[s := Activated(t.subs[s], now, PlusMonth(now)).(cycle := Monthly)])
    case None => t.(subs := t.subs[newSub := NewSubscription(user, Monthly, SubActive, now, PlusMonth(now))])
  }

  /** activateSubscriptionPayment: only a PENDING row is activated; tells whether there was one. */
  ghost function ActivatePending(t: Tables, user: nat, now: int): (Tables, bool) {
    match FindInFlight(t, user)
    case Some(s) =>
      if t.subs[s].status.SubPending?
      then (t.(subs := t.subs[s := Activated(t.subs[s], now, PeriodEnd(t.subs[s].cycle, now))]), true)
      else (t, false)
    case None => (t, false)
  }

  /** The settling transaction: payment to SUCCESS, then the activation its type calls for. */
  ghost function Settle(t: Tables, p: nat, now: int, newSub: nat): (Tables, bool)
    requires p in t.payments
  {
    var pay := t.payments[p];
    var u := t.(payments := t.payments[p := pay.(status := Success, paidAt := Some(now))]);
    if pay.kind.OneTime? then (ActivatePro(u, pay.user, now, newSub), true) else ActivatePending(u, pay.user, now)
  }

  // ----- handlers; each gives the new tables and the events it emits -----

  datatype Gateway = Unreachable | Reported(status: PaymentStatus, amount: int)
  datatype VerifyReply = PaymentNotFound | Resolved(status: PaymentStatus) | ProviderError | AmountMismatch

  /** resolvePayment */
  ghost function Verify(t: Tables, user: nat, reference: string, gateway: Gateway, now: int, newSub: nat)
    : (Tables, seq<Event>, VerifyReply)
  {
    match FindPayment(t, reference)
    case None => (t, [], PaymentNotFound)
    case Some(p) =>
      var pay := t.payments[p];
      if pay.user != user then (t, [], PaymentNotFound)
      else if !pay.status.Pending? then (t, [], Resolved(pay.status))
      else if gateway.Unreachable? then (t, [], ProviderError)
      else if gateway.status.Success? then
        if gateway.amount != pay.amount then (t, [], AmountMismatch)
        else
          var (u, activated) := Settle(t, p, now, newSub);
          (u, if activated then [PlanUpgraded(user, reference)] else [], Resolved(Success))
      else if gateway.status.Failed? then
        (t.(payments := t.payments[p := pay.(status := Failed)]), [], Resolved(Failed))
      else (t, [], Resolved(Pending))
  }

  /** charge.success: the event goes out whether or not a subscription was activated. */
  ghost function ChargeSuccess(t: Tables, reference: string, amount: Option<int>, now: int, newSub: nat)
    : (Tables, seq<Event>)
  {
    match FindPayment(t, reference)
    case None => (t, [])
    case Some(p) =>
      var pay := t.payments[p];
      if !pay.status.Pending? || (amount.Some? && amount.value != pay.amount) then (t, [])
      else (Settle(t, p, now, newSub).0, [PlanUpgraded(pay.user, reference)])
  }

  /** charge.failed and charge.dispute.create */
  ghost function ChargeFailed(t: Tables, reference: string): (Tables, seq<Event>) {
    match FindPayment(t, reference)
    case None => (t, [])
    case Some(p) =>
      var pay := t.payments[p];
      if !pay.status.Pending? then (t, [])
      else (t.(payments := t.payments[p := pay.(status := Failed)]), [PaymentFailed(pay.user, reference)])
  }

  datatype CancelReply = CancelDone | AlreadyCancelled | NoSubscription | CodeMissing | CancelProviderError

  /** cancelUserSubscription */
  ghost function CancelByUser(t: Tables, user: nat, providerOk: bool, now: int): (Tables, seq<Event>, CancelReply) {
    var found := FindInFlight(t, user);
    if found.None? || !t.subs[found.value].status.SubActive? then
      (t, [],
       if exists s | s in t.subs :: t.subs[s].user == user && !InFlight(t.subs[s]) then AlreadyCancelled
       else NoSubscription)
    else
      var sub := t.subs[found.value];
      if sub.code == None || sub.code == Some("") then (t, [], CodeMissing)
      else if !providerOk then (t, [], CancelProviderError)
      else
        (t.(subs := t.subs[found.value :=
              sub.(status := SubCancelled, cancelAtPeriodEnd := true, cancelledAt := Some(now))]),
         [SubscriptionCancelled(user, found.value, sub.periodEnd)], CancelDone)
  }

  predicate HoldsCode(t: Tables, s: nat, code: string) {
    s in t.subs && t.subs[s].code == Some(code) && t.subs[s].status.SubActive?
  }

  /** subscription.disable; `s` is the ACTIVE row the lookup by code returned. */
  function CancelByProvider(t: Tables, s: nat, code: string, now: int): Tables {
    if HoldsCode(t, s, code) then
      t.(subs := t.subs[s := t.subs[s].(status := SubCancelled, cancelAtPeriodEnd := false, cancelledAt := Some(now))])
    else t
  }

  /** subscription.not_renew */
  function SetNotRenew(t: Tables, s: nat, code: string): Tables {
    if HoldsCode(t, s, code) then t.(subs := t.subs[s := t.subs[s].(cancelAtPeriodEnd := true)]) else t
  }

  /** The provider's subscription code arrives from outside this service. */
  function SetCode(t: Tables, s: nat, code: string): Tables {
    if s in t.subs then t.(subs := t.subs[s := t.subs[s].(code := Some(code))]) else t
  }

  // ----- the handlers keep the indexes -----

  /** A replaced row keeps the partial index when it keeps its user and does not become in-flight anew. */
  lemma ReplacedSubKeepsInv(t: Tables, s: nat, sub: Subscription)
    requires TablesInv(t) && s in t.subs && sub.user == t.subs[s].user
    requires InFlight(sub) ==> InFlight(t.subs[s])
    requires sub.cancelledAt.Some? <==> sub.status.SubCancelled?
    ensures TablesInv(t.(subs := t.subs[s := sub]))
  {
  }

  lemma ReplacedPaymentKeepsInv(t: Tables, p: nat, pay: Payment)
    requires TablesInv(t) && p in t.payments && pay.key == t.payments[p].key && pay.reference == t.payments[p].reference
    requires pay.user == t.payments[p].user && pay.subscription == t.payments[p].subscription
    ensures TablesInv(t.(payments := t.payments[p := pay]))
  {
  }

  /** Activation never breaks the partial index: it inserts only when the user has no in-flight row. */
  lemma ActivateProKeepsInv(t: Tables, user: nat, now: int, newSub: nat)
    requires TablesInv(t) && newSub !in t.subs
    ensures TablesInv(ActivatePro(t, user, now, newSub)) && ActivatePro(t, user, now, newSub).payments == t.payments
    ensures HasActive(ActivatePro(t, user, now, newSub), user)
  {
    var found := FindInFlight(t, user);
    var u := ActivatePro(t, user, now, newSub);
    if found.Some? {
      var s := found.value;
      ReplacedSubKeepsInv(t, s, Activated(t.subs[s], now, PlusMonth(now)).(cycle := Monthly));
      assert s in u.subs && u.subs[s].user == user && u.subs[s].status.SubActive?;
    } else {
      assert forall s | s in t.subs && InFlight(t.subs[s]) :: t.subs[s].user != user by {
        assert forall s | s in t.subs && InFlight(t.subs[s]) && t.subs[s].user == user :: IsInFlight(t, s, user);
      }
      assert newSub in u.subs && u.subs[newSub].user == user && u.subs[newSub].status.SubActive?;
    }
  }

  lemma ActivatePendingKeepsInv(t: Tables, user: nat, now: int)
    requires TablesInv(t)
    ensures TablesInv(ActivatePending(t, user, now).0) && ActivatePending(t, user, now).0.payments == t.payments
    ensures ActivatePending(t, user, now).1 <==>
              exists s | s in t.subs :: t.subs[s].user == user && t.subs[s].status.SubPending?
    ensures HasActive(ActivatePending(t, user, now).0, user) <==> exists s :: IsInFlight(t, s, user)
  {
    var found := FindInFlight(t, user);
    var u := ActivatePending(t, user, now).0;
    if found.Some? {
      var s := found.value;
      assert IsInFlight(t, s, user);
      ReplacedSubKeepsInv(t, s, Activated(t.subs[s], now, PeriodEnd(t.subs[s].cycle, now)));
      assert s in u.subs && u.subs[s].user == user && u.subs[s].status.SubActive?;
    } else {
      forall s | s in t.subs && t.subs[s].user == user
        ensures !InFlight(t.subs[s])
      {
        assert InFlight(t.subs[s]) ==> IsInFlight(t, s, user);
      }
    }
  }

  lemma SettleKeepsInv(t: Tables, p: nat, now: int, newSub: nat)
    requires TablesInv(t) && p in t.payments && newSub !in t.subs
    ensures TablesInv(Settle(t, p, now, newSub).0)
    ensures Settle(t, p, now, newSub).0.payments ==
            t.payments[p := t.payments[p].(status := Success, paidAt := Some(now))]
  {
    var pay := t.payments[p];
    var u := t.(payments := t.payments[p := pay.(status := Success, paidAt := Some(now))]);
    ReplacedPaymentKeepsInv(t, p, pay.(status := Success, paidAt := Some(now)));
    ActivateProKeepsInv(u, pay.user, now, newSub);
    ActivatePendingKeepsInv(u, pay.user, now);
  }

  /** A row's life: PENDING, then ACTIVE, then CANCELLED, never back; its user stays. */
  predicate SubMovesForward(before: Subscription, after: Subscription) {
    && before.user == after.user
    && match before.status
       case SubPending => after.status.SubPending? || after.status.SubActive?
       case SubActive => after.status.SubActive? || after.status.SubCancelled?
       case SubCancelled => after.status.SubCancelled? && after.cancelledAt == before.cancelledAt
       case SubExpired => after.status.SubExpired?
  }

  /** References are written once, keys and owners never, and a terminal status stays. */
  predicate PaymentMovesForward(before: Payment, after: Payment) {
    && before.user == after.user && before.key == after.key && before.amount == after.amount
    && before.kind == after.kind
    && before.subscription == after.subscription
    && (before.reference.Some? ==> after.reference == before.reference)
    && (!before.status.Pending? ==> after.status == before.status && after.paidAt == before.paidAt)
  }

  predicate TablesMoveForward(t: Tables, u: Tables) {
    && (forall p | p in t.payments :: p in u.payments && PaymentMovesForward(t.payments[p], u.payments[p]))
    && (forall s | s in t.subs :: s in u.subs && SubMovesForward(t.subs[s], u.subs[s]))
  }

  lemma SettleMovesForward(t: Tables, p: nat, now: int, newSub: nat)
    requires p in t.payments && t.payments[p].status.Pending? && newSub !in t.subs
    ensures TablesMoveForward(t, Settle(t, p, now, newSub).0)
  {
    var pay := t.payments[p];
    var u := t.(payments := t.payments[p := pay.(status := Success, paidAt := Some(now))]);
    assert TablesMoveForward(t, u);
  }
}
