/** What holds of payments and subscriptions on every run of the payment protocol. */
module PaymentTheorems {
  import opened Json
  import opened PaymentRows
  import opened PaymentProtocol

  lemma {:induction false} RunKeepsInv(s: State, acts: seq<Action>)
    requires Inv(s)
    ensures Inv(Run(s, acts))
    decreases |acts|
  {
    if acts != [] {
      StepKeepsInv(s, acts[0]);
      RunKeepsInv(Step(s, acts[0]), acts[1..]);
    }
  }

  ghost predicate Reachable(s: State) {
    exists prices, acts :: s == Run(Initial(prices), acts)
  }

  lemma ReachableInv(s: State)
    requires Reachable(s)
    ensures Inv(s)
  {
    var prices, acts :| s == Run(Initial(prices), acts);
    RunKeepsInv(Initial(prices), acts);
  }

  // ----- rows over whole runs -----

  function Rank(status: SubStatus): nat {
    match status case SubPending => 0 case SubActive => 1 case SubCancelled => 2 case SubExpired => 3
  }

  /** Over any number of steps a subscription never moves back and a cancellation time never changes. */
  predicate SubNeverBack(before: Subscription, after: Subscription) {
    && before.user == after.user && Rank(before.status) <= Rank(after.status)
    && (after.status.SubExpired? ==> before.status.SubExpired?)
    && (before.status.SubCancelled? ==> after.status.SubCancelled? && after.cancelledAt == before.cancelledAt)
  }

  predicate NeverBack(t: Tables, u: Tables) {
    && (forall p | p in t.payments :: p in u.payments && PaymentMovesForward(t.payments[p], u.payments[p]))
    && (forall s | s in t.subs :: s in u.subs && SubNeverBack(t.subs[s], u.subs[s]))
  }

  lemma NeverBackComposes(t: Tables, u: Tables, v: Tables)
    requires NeverBack(t, u) && NeverBack(u, v)
    ensures NeverBack(t, v)
  {
    forall p | p in t.payments
      ensures p in v.payments && PaymentMovesForward(t.payments[p], v.payments[p])
    {
      assert p in u.payments && PaymentMovesForward(t.payments[p], u.payments[p]);
    }
    forall s | s in t.subs
      ensures s in v.subs && SubNeverBack(t.subs[s], v.subs[s])
    {
      assert s in u.subs && SubNeverBack(t.subs[s], u.subs[s]);
    }
  }

  /** References are write-once, terminal payments and cancellations are final, no row disappears. */
  lemma {:induction false} RowsNeverGoBack(s: State, acts: seq<Action>)
    requires Inv(s)
    ensures NeverBack(s.tables, Run(s, acts).tables)
    decreases |acts|
  {
    if acts != [] {
      var t := Step(s, acts[0]);
      StepKeepsInv(s, acts[0]);
      RowsNeverGoBack(t, acts[1..]);
      forall u | u in s.tables.subs
        ensures u in t.tables.subs && SubNeverBack(s.tables.subs[u], t.tables.subs[u])
      {
        assert SubMovesForward(s.tables.subs[u], t.tables.subs[u]);
      }
      NeverBackComposes(s.tables, t.tables, Run(s, acts).tables);
    }
  }

  // ----- initiating -----

  /** Each idempotency key leads to at most one provider initiate call. */
  lemma OneProviderCallPerKey(s: State, i: nat, j: nat)
    requires Reachable(s) && i < |s.calls| && j < |s.calls| && s.calls[i] == s.calls[j]
    ensures i == j
  {
    ReachableInv(s);
  }

  /** Any two successful replies for one key, first or replayed, carry the same reference. */
  lemma RepliesForOneKeyAgree(s: State, x: (Key, string), y: (Key, string))
    requires Reachable(s) && x in s.replies && y in s.replies && x.0 == y.0
    ensures x.1 == y.1
  {
    ReachableInv(s);
    assert HasReference(s.tables, x.0, x.1) && HasReference(s.tables, y.0, y.1);
  }

  // ----- settling -----

  /** The first terminal event wins: once a payment is not PENDING, a charge.success, a charge.failed
      or a verify for its reference changes neither table and emits nothing. */
  lemma FirstTerminalEventWins(s: State, p: nat, reference: string)
    requires Reachable(s) && IsPayment(s.tables, p, reference) && !s.tables.payments[p].status.Pending?
    ensures forall amount, now, newSub :: ChargeSuccess(s.tables, reference, amount, now, newSub) == (s.tables, [])
    ensures ChargeFailed(s.tables, reference) == (s.tables, [])
    ensures forall user, gateway, now, newSub ::
              var (t, events, reply) := Verify(s.tables, user, reference, gateway, now, newSub);
              t == s.tables && events == [] &&
              reply == if s.tables.payments[p].user == user then Resolved(s.tables.payments[p].status)
                       else PaymentNotFound
  {
    ReachableInv(s);
    FindPaymentIs(s.tables, reference, p);
  }

  /** At most one PLAN_UPGRADED or PAYMENT_FAILED event is ever emitted for a reference, and the payment
      has the matching status. */
  lemma OneOutcomeEventPerReference(s: State, i: nat, j: nat)
    requires Reachable(s) && i < |s.events| && j < |s.events|
    ensures SameOutcome(s.events[i], s.events[j]) ==> i == j
    ensures s.events[i].PlanUpgraded? ==> SettledAs(s.tables, s.events[i].reference, s.events[i].user, Success)
    ensures s.events[i].PaymentFailed? ==> SettledAs(s.tables, s.events[i].reference, s.events[i].user, Failed)
  {
    ReachableInv(s);
    assert EventBacked(s.tables, s.events[i]) by {
      assert s.events[i] in s.events;
    }
  }

  /** SUCCESS is recorded only by a verify whose amount is the payment's, or by a charge.success whose
      amount, if it reports one, is the payment's. */
  lemma SuccessNeedsMatchingAmount(s: State, a: Action, p: nat)
    requires Reachable(s) && p in s.tables.payments && s.tables.payments[p].status.Pending?
    requires Step(s, a).tables.payments[p].status.Success?
    ensures var pay := s.tables.payments[p];
            || (a.AVerify? && pay.reference == Some(a.reference) && pay.user == a.user
                 && a.gateway == Reported(Success, pay.amount))
            || (a.AChargeSuccess? && pay.reference == Some(a.reference)
                 && (a.amount.None? || a.amount.value == pay.amount))
  {
    ReachableInv(s);
    if a.AVerify? || a.AChargeSuccess? || a.AChargeFailed? {
      var found := FindPayment(s.tables, a.reference);
      if found.Some? && found.value != p {
        SettleLeavesOtherPayments(s, a, found.value, p);
      }
      if found == Some(p) {
        HandlerSucceedsOnlyMatching(s, a, p);
      }
    } else {
      OthersSettleNothing(s, a, p);
    }
  }

  lemma OthersSettleNothing(s: State, a: Action, p: nat)
    requires Inv(s) && p in s.tables.payments && !(a.AVerify? || a.AChargeSuccess? || a.AChargeFailed?)
    ensures p in Step(s, a).tables.payments && Step(s, a).tables.payments[p].status == s.tables.payments[p].status
  {
  }

  lemma HandlerSucceedsOnlyMatching(s: State, a: Action, p: nat)
    requires Inv(s) && p in s.tables.payments && s.tables.payments[p].status.Pending?
    requires (a.AVerify? || a.AChargeSuccess? || a.AChargeFailed?) && FindPayment(s.tables, a.reference) == Some(p)
    ensures var pay := s.tables.payments[p];
            Step(s, a).tables.payments[p].status.Success? ==>
              || (a.AVerify? && pay.reference == Some(a.reference) && pay.user == a.user
                   && a.gateway == Reported(Success, pay.amount))
              || (a.AChargeSuccess? && pay.reference == Some(a.reference)
                   && (a.amount.None? || a.amount.value == pay.amount))
  {
  }

  lemma SettleLeavesOtherPayments(s: State, a: Action, p: nat, q: nat)
    requires Inv(s) && (a.AVerify? || a.AChargeSuccess? || a.AChargeFailed?)
    requires FindPayment(s.tables, a.reference) == Some(p) && q in s.tables.payments && q != p
    ensures Step(s, a).tables.payments[q] == s.tables.payments[q]
  {
    if a.AVerify? {
      VerifyLeavesOtherPayments(s, a, p, q);
    } else if a.AChargeSuccess? && a.newSub !in s.tables.subs {
      SettleKeepsInv(s.tables, p, a.now, a.newSub);
    }
  }

  lemma VerifyLeavesOtherPayments(s: State, a: Action, p: nat, q: nat)
    requires Inv(s) && a.AVerify?
    requires FindPayment(s.tables, a.reference) == Some(p) && q in s.tables.payments && q != p
    ensures q in Step(s, a).tables.payments && Step(s, a).tables.payments[q] == s.tables.payments[q]
  {
    if a.newSub !in s.tables.subs {
      SettleKeepsInv(s.tables, p, a.now, a.newSub);
    }
  }

  // ----- subscriptions -----

  /** A user has at most one PENDING or ACTIVE subscription, and cancelled_at is set exactly when CANCELLED. */
  lemma AtMostOneInFlight(s: State, u: nat, v: nat)
    requires Reachable(s) && u in s.tables.subs && v in s.tables.subs
    ensures InFlight(s.tables.subs[u]) && InFlight(s.tables.subs[v]) ==>
              s.tables.subs[u].user == s.tables.subs[v].user ==> u == v
    ensures s.tables.subs[u].cancelledAt.Some? <==> s.tables.subs[u].status.SubCancelled?
  {
    ReachableInv(s);
  }

  predicate IsActive(t: Tables, u: nat, user: nat) {
    u in t.subs && t.subs[u].user == user && t.subs[u].status.SubActive?
  }

  /** `u` is the one ACTIVE subscription of the user. */
  ghost predicate IsOnlyActive(t: Tables, u: nat, user: nat) {
    IsActive(t, u, user) && forall v | IsActive(t, v, user) :: v == u
  }

  lemma OneTimeSettlementLeavesOneActive(t: Tables, p: nat, now: int, newSub: nat) returns (u: nat)
    requires TablesInv(t) && p in t.payments && t.payments[p].kind.OneTime? && newSub !in t.subs
    ensures IsOnlyActive(Settle(t, p, now, newSub).0, u, t.payments[p].user)
  {
    var pay := t.payments[p];
    var paid := t.(payments := t.payments[p := pay.(status := Success, paidAt := Some(now))]);
    ReplacedPaymentKeepsInv(t, p, pay.(status := Success, paidAt := Some(now)));
    ActivateProKeepsInv(paid, pay.user, now, newSub);
    var after := ActivatePro(paid, pay.user, now, newSub);
    u :| u in after.subs && after.subs[u].user == pay.user && after.subs[u].status.SubActive?;
    assert UniqueInFlight(after);
  }

  lemma SuccessIsSettlement(s: State, a: Action, p: nat)
    requires Reachable(s) && p in s.tables.payments && s.tables.payments[p].status.Pending?
    requires Step(s, a).tables.payments[p].status.Success?
    ensures (a.AVerify? || a.AChargeSuccess?) && a.newSub !in s.tables.subs
    ensures Step(s, a).tables == Settle(s.tables, p, a.now, a.newSub).0
  {
    ReachableInv(s);
    SuccessNeedsMatchingAmount(s, a, p);
    FindPaymentIs(s.tables, a.reference, p);
  }

  /** A one-time payment that reaches SUCCESS leaves its user exactly one ACTIVE subscription. */
  lemma OneTimeSuccessLeavesOneActive(s: State, a: Action, p: nat) returns (u: nat)
    requires Reachable(s) && p in s.tables.payments && s.tables.payments[p].status.Pending?
    requires s.tables.payments[p].kind.OneTime? && Step(s, a).tables.payments[p].status.Success?
    ensures IsOnlyActive(Step(s, a).tables, u, s.tables.payments[p].user)
  {
    ReachableInv(s);
    SuccessIsSettlement(s, a, p);
    u := OneTimeSettlementLeavesOneActive(s.tables, p, a.now, a.newSub);
  }

  /** The verify path announces an upgrade exactly when it settles a payment and that payment is one-time
      or finds a PENDING subscription. */
  lemma VerifyAnnouncesExactlyActivations(t: Tables, p: nat, user: nat, reference: string, gateway: Gateway,
                                          now: int, newSub: nat)
    requires TablesInv(t) && newSub !in t.subs && IsPayment(t, p, reference)
    ensures var (u, events, reply) := Verify(t, user, reference, gateway, now, newSub);
            var pay := t.payments[p];
            && (events == [PlanUpgraded(user, reference)] || events == [])
            && (events != [] <==>
                  && pay.user == user && pay.status.Pending? && gateway == Reported(Success, pay.amount)
                  && (pay.kind.OneTime? || exists s | s in t.subs ::
                       t.subs[s].user == user && t.subs[s].status.SubPending?))
            && (events != [] ==> HasActive(u, user))
  {
    FindPaymentIs(t, reference, p);
    var pay := t.payments[p];
    var paid := t.(payments := t.payments[p := pay.(status := Success, paidAt := Some(now))]);
    ReplacedPaymentKeepsInv(t, p, pay.(status := Success, paidAt := Some(now)));
    ActivateProKeepsInv(paid, pay.user, now, newSub);
    ActivatePendingKeepsInv(paid, pay.user, now);
    if exists s | s in t.subs :: t.subs[s].user == user && t.subs[s].status.SubPending? {
      var s :| s in t.subs && t.subs[s].user == user && t.subs[s].status.SubPending?;
      assert IsInFlight(paid, s, user);
    }
  }

  /** The webhook path announces every payment it settles; the user then has an ACTIVE subscription
      exactly when the payment is one-time or a PENDING or ACTIVE subscription was there. */
  lemma WebhookUpgradeIsBackedExactlyWhenInFlight(t: Tables, p: nat, reference: string, amount: Option<int>,
                                                  now: int, newSub: nat)
    requires TablesInv(t) && newSub !in t.subs && IsPayment(t, p, reference) && t.payments[p].status.Pending?
    requires amount.None? || amount.value == t.payments[p].amount
    ensures var (u, events) := ChargeSuccess(t, reference, amount, now, newSub);
            var pay := t.payments[p];
            && events == [PlanUpgraded(pay.user, reference)]
            && (HasActive(u, pay.user) <==> pay.kind.OneTime? || exists s :: IsInFlight(t, s, pay.user))
  {
    FindPaymentIs(t, reference, p);
    var pay := t.payments[p];
    var paid := t.(payments := t.payments[p := pay.(status := Success, paidAt := Some(now))]);
    ReplacedPaymentKeepsInv(t, p, pay.(status := Success, paidAt := Some(now)));
    ActivateProKeepsInv(paid, pay.user, now, newSub);
    ActivatePendingKeepsInv(paid, pay.user, now);
    assert forall s :: IsInFlight(paid, s, pay.user) == IsInFlight(t, s, pay.user);
  }

  // ----- whose subscription a recurring charge activates -----

  /** The lookup is by user only. A recurring payment's settlement activates exactly the user's PENDING
      row: its own subscription exactly when that one is still PENDING, and another row otherwise. */
  lemma OwnSubscriptionActivatedExactlyWhenPending(t: Tables, p: nat, now: int, newSub: nat)
    requires TablesInv(t) && p in t.payments && t.payments[p].status.Pending? && newSub !in t.subs
    requires t.payments[p].kind.Recurring? && t.payments[p].subscription.Some?
    ensures var own, user, u := t.payments[p].subscription.value, t.payments[p].user, Settle(t, p, now, newSub).0;
            && u.subs.Keys == t.subs.Keys
            && (forall s | s in t.subs ::
                  u.subs[s] == if t.subs[s].user == user && t.subs[s].status.SubPending?
                               then Activated(t.subs[s], now, PeriodEnd(t.subs[s].cycle, now)) else t.subs[s])
            && own in t.subs && t.subs[own].user == user
            && (t.subs[own].status.SubPending? ==> forall s | s in t.subs && s != own :: u.subs[s] == t.subs[s])
  {
    var pay := t.payments[p];
    var paid := t.(payments := t.payments[p := pay.(status := Success, paidAt := Some(now))]);
    ReplacedPaymentKeepsInv(t, p, pay.(status := Success, paidAt := Some(now)));
    forall s | s in t.subs && t.subs[s].user == pay.user && InFlight(t.subs[s])
      ensures FindInFlight(paid, pay.user) == Some(s)
    {
      assert IsInFlight(paid, s, pay.user);
      FindInFlightIs(paid, pay.user, s);
    }
  }

  // ----- what a duplicate subscription request is told -----

  /** A replay names the newest subscription of the requested cycle whatever its state; it is PENDING or
      ACTIVE exactly when it is the user's one such subscription. */
  lemma ReplayNamesInFlightExactlyWhenNewest(t: Tables, user: nat, cycle: BillingCycle, latest: Option<nat>)
    requires TablesInv(t) && ExistingReply(t, user, cycle, latest).SubReplayed?
    ensures InFlight(t.subs[latest.value]) <==> FindInFlight(t, user) == latest
  {
    if InFlight(t.subs[latest.value]) {
      assert IsInFlight(t, latest.value, user);
      FindInFlightIs(t, user, latest.value);
    }
  }
}
