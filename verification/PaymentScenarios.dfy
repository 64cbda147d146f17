/** Runs of real steps in which the payment service's user-only lookups do harm. */
module PaymentScenarios {
  import opened Json
  import opened PaymentRows
  import opened PaymentProtocol
  import opened PaymentTheorems

  // ----- runs of one and two steps -----

  lemma {:induction false} RunAppend(s: State, a: seq<Action>, b: seq<Action>)
    ensures Run(s, a + b) == Run(Run(s, a), b)
    decreases |a|
  {
    if a == [] {
      assert a + b == b;
    } else {
      assert (a + b)[1..] == a[1..] + b;
      RunAppend(Step(s, a[0]), a[1..], b);
    }
  }

  lemma RunSingle(s: State, a: Action)
    ensures Run(s, [a]) == Step(s, a)
  {
    assert [a][1..] == [];
  }

  /** Two runs one after the other. */
  lemma Joined(s: State, a: seq<Action>, t: State, b: seq<Action>, u: State) returns (acts: seq<Action>)
    requires t == Run(s, a) && u == Run(t, b)
    ensures u == Run(s, acts)
  {
    RunAppend(s, a, b);
    acts := a + b;
  }

  lemma TwoSteps(s: State, a: Action, b: Action) returns (acts: seq<Action>, t: State)
    ensures t == Run(s, acts) && t == Step(Step(s, a), b)
  {
    t := Step(Step(s, a), b);
    RunSingle(s, a);
    RunSingle(Step(s, a), b);
    acts := Joined(s, [a], Step(s, a), [b], t);
  }

  // ----- the steps of the scenarios -----

  lemma SubscriptionRequested(s: State, r: nat, key: Key, cycle: BillingCycle, p: nat, sub: nat, now: int)
    returns (acts: seq<Action>, t: State)
    requires r !in s.inits && p !in s.tables.payments && sub !in s.tables.subs && key.kind == KeyKindOf(cycle)
    requires !KeyTaken(s.tables, key) && !exists u :: IsInFlight(s.tables, u, key.user)
    ensures t == Run(s, acts) && t.prices == s.prices && t.inits == s.inits[r := Inserted(p)]
    ensures t.tables.payments ==
            s.tables.payments[p := NewSubscriptionPayment(s.prices, key.user, sub, cycle, key.hour)]
    ensures t.tables.subs ==
            s.tables.subs[sub := NewSubscription(key.user, cycle, SubPending, now, PeriodEnd(cycle, now))]
  {
    var asked := Put(s, r, SubAsked(key, cycle));
    assert AskSubscription(s, r, key.user, cycle, key.hour) == asked;
    t := SubscriptionRowsInserted(asked, r, key, cycle, p, sub, now);
    acts := SubscriptionSteps(s, r, key, cycle, p, sub, now);
  }

  lemma SubscriptionSteps(s: State, r: nat, key: Key, cycle: BillingCycle, p: nat, sub: nat, now: int)
    returns (acts: seq<Action>)
    ensures Run(s, acts) == InsertSubscription(AskSubscription(s, r, key.user, cycle, key.hour), r, p, sub, now)
  {
    var t;
    acts, t := TwoSteps(s, AAskSubscription(r, key.user, cycle, key.hour), AInsertSubscription(r, p, sub, now));
  }

  lemma SubscriptionRowsInserted(s: State, r: nat, key: Key, cycle: BillingCycle, p: nat, sub: nat, now: int)
    returns (t: State)
    requires r in s.inits && s.inits[r] == SubAsked(key, cycle) && key.kind == KeyKindOf(cycle)
    requires p !in s.tables.payments && sub !in s.tables.subs
    requires !KeyTaken(s.tables, key) && !exists u :: IsInFlight(s.tables, u, key.user)
    ensures t == InsertSubscription(s, r, p, sub, now) && t.prices == s.prices && t.inits == s.inits[r := Inserted(p)]
    ensures t.tables.payments ==
            s.tables.payments[p := NewSubscriptionPayment(s.prices, key.user, sub, cycle, key.hour)]
    ensures t.tables.subs ==
            s.tables.subs[sub := NewSubscription(key.user, cycle, SubPending, now, PeriodEnd(cycle, now))]
  {
    t := InsertSubscription(s, r, p, sub, now);
  }

  lemma PaymentRequested(s: State, r: nat, key: Key, p: nat) returns (acts: seq<Action>, t: State)
    requires r !in s.inits && p !in s.tables.payments && key.kind == ForOneTime && !KeyTaken(s.tables, key)
    ensures t == Run(s, acts) && t.prices == s.prices && t.inits == s.inits[r := Inserted(p)]
    ensures t.tables.payments == s.tables.payments[p := NewPayment(key.user, None, OneTime, s.prices.oneTime, key)]
    ensures t.tables.subs == s.tables.subs
  {
    var asked := Put(s, r, PayAsked(key));
    assert AskPayment(s, r, key.user, key.hour) == asked;
    acts, t := TwoSteps(s, AAskPayment(r, key.user, key.hour), AInsertPayment(r, p));
    assert t == InsertPayment(asked, r, p);
  }

  /** The provider answers with a reference no other payment has, and it is stored. */
  lemma ReferenceStored(s: State, r: nat, p: nat, reference: string) returns (acts: seq<Action>, t: State)
    requires r in s.inits && s.inits[r] == Inserted(p) && p in s.tables.payments
    requires forall q | q in s.tables.payments && q != p :: s.tables.payments[q].reference != Some(reference)
    ensures t == Run(s, acts) && t.prices == s.prices && t.inits.Keys == s.inits.Keys && t.tables.subs == s.tables.subs
    ensures t.tables.payments == s.tables.payments[p := s.tables.payments[p].(reference := Some(reference))]
  {
    var called := CallProvider(s, r, Some(reference));
    assert called.tables == s.tables && called.inits[r] == Called(p, reference);
    assert forall q | q != p :: !IsPayment(called.tables, q, reference);
    acts, t := TwoSteps(s, ACallProvider(r, Some(reference)), AStoreReference(r));
    assert t == StoreReference(called, r);
  }

  lemma Charged(s: State, reference: string, newSub: nat) returns (acts: seq<Action>, t: State)
    requires newSub !in s.tables.subs
    ensures t == Run(s, acts) && t.prices == s.prices && t.inits == s.inits
    ensures var c := ChargeSuccess(s.tables, reference, None, 0, newSub); t.tables == c.0 && t.events == s.events + c.1
  {
    var a := AChargeSuccess(reference, None, 0, newSub);
    RunSingle(s, a);
    acts, t := [a], Step(s, a);
    assert t == DoChargeSuccess(s, reference, None, 0, newSub);
  }

  lemma Disabled(s: State, sub: nat, code: string) returns (acts: seq<Action>, t: State)
    ensures t == Run(s, acts) && t.prices == s.prices && t.inits == s.inits
    ensures t.tables == CancelByProvider(SetCode(s.tables, sub, code), sub, code, 0)
  {
    acts, t := TwoSteps(s, ASetCode(sub, code), ACancelByProvider(sub, code, 0));
  }

  // ----- one user with a subscription charge and a one-time payment -----

  const SUB_KEY := Key(0, ForMonthly, 0)
  const PAY_KEY := Key(0, ForOneTime, 0)
  const ANNUAL_KEY := Key(0, ForAnnual, 0)

  /** Subscription 0 and its charge "a". */
  predicate OneCharge(t: Tables, status: SubStatus) {
    && 0 in t.payments && t.payments[0].user == 0 && t.payments[0].subscription == Some(0)
    && t.payments[0].kind.Recurring?
    && t.payments[0].status.Pending? && t.payments[0].reference == Some("a") && t.payments[0].key == SUB_KEY
    && 0 in t.subs && t.subs[0].user == 0 && t.subs[0].status == status
    && (status.SubPending? || status.SubActive? || t.subs[0].code == Some("c")) && t.subs[0].cycle == Monthly
  }

  /** The one-time payment "b" beside it. */
  predicate WithPayment(t: Tables, status: PaymentStatus) {
    && t.payments.Keys == {0, 1} && t.subs.Keys == {0} && t.payments[1].user == 0 && t.payments[1].kind.OneTime?
    && t.payments[1].status == status && t.payments[1].reference == Some("b") && t.payments[1].key == PAY_KEY
    && t.payments[1].subscription == None
  }

  lemma FirstCharge(prices: Prices) returns (acts: seq<Action>, t: State)
    ensures t == Run(Initial(prices), acts) && t.inits.Keys == {0}
    ensures OneCharge(t.tables, SubPending) && t.tables.payments.Keys == {0} && t.tables.subs.Keys == {0}
  {
    var s := Initial(prices);
    var asking, asked := SubscriptionRequested(s, 0, SUB_KEY, Monthly, 0, 0, 0);
    var storing, stored := ReferenceStored(asked, 0, 0, "a");
    acts := Joined(s, asking, asked, storing, stored);
    t := stored;
  }

  lemma BothPending(prices: Prices) returns (acts: seq<Action>, t: State)
    ensures t == Run(Initial(prices), acts) && t.inits.Keys == {0, 1}
    ensures OneCharge(t.tables, SubPending) && WithPayment(t.tables, Pending)
  {
    var first, s := FirstCharge(prices);
    assert s.tables.payments[0].key == SUB_KEY != PAY_KEY;
    var asking, asked := PaymentRequested(s, 1, PAY_KEY, 1);
    var storing, stored := ReferenceStored(asked, 1, 1, "b");
    var second := Joined(s, asking, asked, storing, stored);
    acts := Joined(Initial(prices), first, s, second, stored);
    t := stored;
  }

  lemma PendingIsUpgraded(t: Tables, user: nat, s: nat, now: int, newSub: nat)
    requires UniqueInFlight(t) && s in t.subs && t.subs[s].user == user && t.subs[s].status.SubPending?
    ensures var u := ActivatePro(t, user, now, newSub);
            && u.payments == t.payments && u.subs.Keys == t.subs.Keys && u.subs[s].user == user
            && u.subs[s].status.SubActive? && u.subs[s].cycle.Monthly?
  {
    assert IsInFlight(t, s, user);
    FindInFlightIs(t, user, s);
  }

  lemma OneTimeTakesOver(t: Tables)
    requires TablesInv(t) && OneCharge(t, SubPending) && WithPayment(t, Pending)
    ensures var u := ChargeSuccess(t, "b", None, 0, 1).0; OneCharge(u, SubActive) && WithPayment(u, Success)
  {
    assert IsPayment(t, 1, "b");
    FindPaymentIs(t, "b", 1);
    OneTimeSettles(t);
  }

  lemma OneTimeSettles(t: Tables)
    requires TablesInv(t) && OneCharge(t, SubPending) && WithPayment(t, Pending)
    ensures var u := Settle(t, 1, 0, 1).0; OneCharge(u, SubActive) && WithPayment(u, Success)
  {
    var paid := t.(payments := t.payments[1 := t.payments[1].(status := Success, paidAt := Some(0))]);
    PendingIsUpgraded(paid, 0, 0, 0, 1);
  }

  /** The one-time payment takes over the PENDING subscription, and the provider disables it. */
  lemma CancelledIsReached(prices: Prices) returns (acts: seq<Action>, t: State)
    ensures t == Run(Initial(prices), acts) && t.inits.Keys == {0, 1}
    ensures OneCharge(t.tables, SubCancelled) && WithPayment(t.tables, Success)
  {
    var opening, s := BothPending(prices);
    RunKeepsInv(Initial(prices), opening);
    var charging, charged := Charged(s, "b", 1);
    OneTimeTakesOver(s.tables);
    var disabling, disabled := Disabled(charged, 0, "c");
    acts := Joined(Initial(prices), opening, s, charging, charged);
    acts := Joined(Initial(prices), acts, charged, disabling, disabled);
    t := disabled;
  }

  // ----- an announced upgrade without a subscription -----

  lemma ChargeWithoutSubscription(t: Tables)
    requires OneCharge(t, SubCancelled) && t.subs.Keys == {0} && TablesInv(t)
    ensures ChargeSuccess(t, "a", None, 0, 1).1 == [PlanUpgraded(0, "a")]
    ensures !HasActive(ChargeSuccess(t, "a", None, 0, 1).0, 0)
  {
    assert IsPayment(t, 0, "a");
    WebhookUpgradeIsBackedExactlyWhenInFlight(t, 0, "a", None, 0, 1);
  }

  /** The disabled subscription's own charge announces an upgrade although nothing is ACTIVE. */
  lemma WebhookCanAnnounceWithoutSubscription(prices: Prices) returns (acts: seq<Action>, t: State)
    ensures t == Run(Initial(prices), acts)
    ensures PlanUpgraded(0, "a") in t.events && !HasActive(t.tables, 0)
  {
    var opening, s := CancelledIsReached(prices);
    RunKeepsInv(Initial(prices), opening);
    ChargeWithoutSubscription(s.tables);
    var charging, charged := Charged(s, "a", 1);
    acts := Joined(Initial(prices), opening, s, charging, charged);
    t := charged;
  }

  // ----- an old charge and a newer subscription -----

  /** Beside the old, cancelled subscription the user has started an annual one and not paid it. */
  predicate NewerPending(t: Tables) {
    && OneCharge(t, SubCancelled) && t.subs.Keys == {0, 2} && t.subs[2].user == 0 && t.subs[2].status.SubPending?
    && 2 in t.payments && t.payments[2].subscription == Some(2) && t.payments[2].status.Pending?
  }

  lemma NewerStarted(prices: Prices) returns (acts: seq<Action>, t: State)
    ensures t == Run(Initial(prices), acts) && NewerPending(t.tables)
  {
    var opening, s := CancelledIsReached(prices);
    assert s.tables.payments[0].key == SUB_KEY && s.tables.payments[1].key == PAY_KEY;
    var asking, asked := SubscriptionRequested(s, 2, ANNUAL_KEY, Annual, 2, 2, 0);
    acts := Joined(Initial(prices), opening, s, asking, asked);
    t := asked;
  }

  /** The old charge is paid, its subscription is still CANCELLED, and the newer, unpaid one is ACTIVE. */
  predicate NewerActive(t: Tables) {
    && 0 in t.payments && t.payments[0].subscription == Some(0) && t.payments[0].status.Success?
    && 0 in t.subs && t.subs[0].status.SubCancelled?
    && 2 in t.payments && t.payments[2].subscription == Some(2) && t.payments[2].status.Pending?
    && 2 in t.subs && t.subs[2].status.SubActive?
  }

  lemma OldChargeSettles(t: Tables)
    requires TablesInv(t) && NewerPending(t)
    ensures NewerActive(ChargeSuccess(t, "a", None, 0, 3).0)
  {
    assert IsPayment(t, 0, "a");
    FindPaymentIs(t, "a", 0);
    SettleKeepsInv(t, 0, 0, 3);
    OwnSubscriptionActivatedExactlyWhenPending(t, 0, 0, 3);
  }

  /** A late charge for a cancelled subscription activates the user's newer one, which nobody paid. */
  lemma OldChargeActivatesUnpaidSubscription(prices: Prices) returns (acts: seq<Action>, t: State)
    ensures t == Run(Initial(prices), acts) && NewerActive(t.tables)
  {
    var opening, s := NewerStarted(prices);
    RunKeepsInv(Initial(prices), opening);
    OldChargeSettles(s.tables);
    var charging, charged := Charged(s, "a", 3);
    acts := Joined(Initial(prices), opening, s, charging, charged);
    t := charged;
  }

  // ----- a duplicate request told of a cancelled subscription -----

  lemma DuplicateRequested(s: State, r: nat, key: Key, cycle: BillingCycle, latest: nat)
    returns (acts: seq<Action>, t: State)
    requires r !in s.inits && key.kind == KeyKindOf(cycle) && KeyTaken(s.tables, key)
    requires 2 !in s.tables.payments && 2 !in s.tables.subs
    ensures t == Run(s, acts) && t.tables == s.tables
    ensures r in t.inits && t.inits[r] == Answered(ExistingReply(s.tables, key.user, cycle, Some(latest)))
  {
    var asking, asked := TwoSteps(s, AAskSubscription(r, key.user, cycle, key.hour), AInsertSubscription(r, 2, 2, 0));
    assert AskSubscription(s, r, key.user, cycle, key.hour) == Put(s, r, SubAsked(key, cycle));
    assert asked == Put(s, r, SubDuplicate(key, cycle));
    RunSingle(asked, AReadExisting(r, Some(latest)));
    t := ReadExisting(asked, r, Some(latest));
    acts := Joined(s, asking, asked, [AReadExisting(r, Some(latest))], t);
  }

  lemma CancelledIsReplayed(t: Tables)
    requires OneCharge(t, SubCancelled) && WithPayment(t, Success)
    requires t.subs[0].cycle == Monthly && t.subs[0].code == Some("c")
    ensures ExistingReply(t, 0, Monthly, Some(0)) == SubReplayed(Some("a"))
  {
    assert t.payments[0].subscription == Some(0) && t.payments[1].subscription == None;
  }

  /** The same request again, after the subscription was cancelled, is answered as a success with the
      cancelled one. */
  lemma DuplicateIsToldOfCancelledSubscription(prices: Prices) returns (acts: seq<Action>, t: State)
    ensures t == Run(Initial(prices), acts)
    ensures 2 in t.inits && t.inits[2] == Answered(SubReplayed(Some("a")))
    ensures 0 in t.tables.subs && t.tables.subs[0].status.SubCancelled? && !HasActive(t.tables, 0)
  {
    var opening, s := CancelledIsReached(prices);
    assert s.tables.payments[0].key == SUB_KEY;
    var asking, asked := DuplicateRequested(s, 2, SUB_KEY, Monthly, 0);
    CancelledIsReplayed(s.tables);
    acts := Joined(Initial(prices), opening, s, asking, asked);
    t := asked;
  }
}
