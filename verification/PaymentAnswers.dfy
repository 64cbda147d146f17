/** What each payment handler answers and writes, field by field. */
module PaymentAnswers {
  import opened Json
  import opened Calendar
  import opened PaymentRows
  import opened PaymentProtocol

  /** Everything but the row s is as before. */
  predicate OnlySubChanged(t: Tables, u: Tables, s: nat) {
    && u.payments == t.payments && s in t.subs && u.subs.Keys == t.subs.Keys
    && forall q | q in t.subs && q != s :: u.subs[q] == t.subs[q]
  }

  predicate OnlyPaymentChanged(t: Tables, u: Tables, p: nat) {
    && u.subs == t.subs && p in t.payments && u.payments.Keys == t.payments.Keys
    && forall q | q in t.payments && q != p :: u.payments[q] == t.payments[q]
  }

  // ----- cancelling -----

  /** A user's cancellation goes through exactly when the provider agrees and there is an ACTIVE
      subscription with a code; that one row is then CANCELLED at the period's end and announced, and
      nobody is left ACTIVE. Every other answer changes nothing. */
  lemma CancellationCancels(t: Tables, user: nat, providerOk: bool, now: int) returns (s: nat)
    requires TablesInv(t)
    ensures var (u, events, reply) := CancelByUser(t, user, providerOk, now);
            && (reply.CancelDone? <==>
                  providerOk && exists q | q in t.subs ::
                    && t.subs[q].user == user && t.subs[q].status.SubActive?
                    && t.subs[q].code.Some? && t.subs[q].code.value != "")
            && (reply.CancelDone? ==>
                  && OnlySubChanged(t, u, s) && t.subs[s].user == user && t.subs[s].status.SubActive?
                  && u.subs[s].status.SubCancelled? && u.subs[s].cancelledAt == Some(now) && u.subs[s].cancelAtPeriodEnd
                  && u.subs[s].user == user && u.subs[s].code == t.subs[s].code && u.subs[s].cycle == t.subs[s].cycle
                  && u.subs[s].periodStart == t.subs[s].periodStart && u.subs[s].periodEnd == t.subs[s].periodEnd
                  && events == [SubscriptionCancelled(user, s, t.subs[s].periodEnd)]
                  && forall q | q in u.subs :: u.subs[q].user == user ==> !u.subs[q].status.SubActive?)
            && (!reply.CancelDone? ==> u == t && events == [])
  {
    s := ActiveSubscription(t, user);
  }

  /** The user's ACTIVE row, if there is one, is what the lookup finds. */
  lemma ActiveSubscription(t: Tables, user: nat) returns (s: nat)
    requires TablesInv(t)
    ensures (exists q | q in t.subs :: t.subs[q].user == user && t.subs[q].status.SubActive?) ==>
              && s in t.subs && t.subs[s].user == user && t.subs[s].status.SubActive?
              && FindInFlight(t, user) == Some(s)
              && forall q | q in t.subs && t.subs[q].user == user && t.subs[q].status.SubActive? :: q == s
    ensures (forall q | q in t.subs :: t.subs[q].user == user ==> !t.subs[q].status.SubActive?) ==>
              FindInFlight(t, user).None? || !t.subs[FindInFlight(t, user).value].status.SubActive?
  {
    s := 0;
    if q :| q in t.subs && t.subs[q].user == user && t.subs[q].status.SubActive? {
      s := q;
      assert IsInFlight(t, s, user);
      FindInFlightIs(t, user, s);
    }
  }

  /** Which refusal a cancellation meets. */
  lemma CancellationRefusals(t: Tables, user: nat, providerOk: bool, now: int)
    requires TablesInv(t)
    ensures var reply := CancelByUser(t, user, providerOk, now).2;
            var active := exists q | q in t.subs :: t.subs[q].user == user && t.subs[q].status.SubActive?;
            var ended := exists q | q in t.subs ::
                           t.subs[q].user == user && (t.subs[q].status.SubCancelled? || t.subs[q].status.SubExpired?);
            && (reply.AlreadyCancelled? <==> !active && ended)
            && (reply.NoSubscription? <==> !active && !ended)
            && (reply.CodeMissing? <==> exists q | q in t.subs ::
                  && t.subs[q].user == user && t.subs[q].status.SubActive?
                  && (t.subs[q].code.None? || t.subs[q].code.value == ""))
            && (reply.CancelProviderError? ==> !providerOk && active)
  {
    var s := ActiveSubscription(t, user);
  }

  /** subscription.disable cancels the ACTIVE row with that code, at once. */
  lemma ProviderCancels(t: Tables, s: nat, code: string, now: int)
    requires s in t.subs
    ensures var u := CancelByProvider(t, s, code, now);
            if t.subs[s].status.SubActive? && t.subs[s].code == Some(code) then
              && OnlySubChanged(t, u, s) && u.subs[s].status.SubCancelled? && u.subs[s].cancelledAt == Some(now)
              && !u.subs[s].cancelAtPeriodEnd && u.subs[s].user == t.subs[s].user && u.subs[s].code == t.subs[s].code
              && u.subs[s].cycle == t.subs[s].cycle && u.subs[s].periodEnd == t.subs[s].periodEnd
            else u == t
    ensures var u := SetNotRenew(t, s, code);
            if t.subs[s].status.SubActive? && t.subs[s].code == Some(code) then
              && OnlySubChanged(t, u, s) && u.subs[s].cancelAtPeriodEnd && u.subs[s].status.SubActive?
              && u.subs[s].cancelledAt == t.subs[s].cancelledAt && u.subs[s].periodEnd == t.subs[s].periodEnd
            else u == t
  {
  }

  // ----- verifying and charging -----

  /** The answer of a verify for a payment with that reference, case by case. */
  lemma VerifyAnswers(t: Tables, p: nat, user: nat, reference: string, gateway: Gateway, now: int, newSub: nat)
    requires TablesInv(t) && newSub !in t.subs && IsPayment(t, p, reference)
    ensures var (u, events, reply) := Verify(t, user, reference, gateway, now, newSub);
            var pay := t.payments[p];
            if pay.user != user then u == t && events == [] && reply.PaymentNotFound?
            else if !pay.status.Pending? then u == t && events == [] && reply == Resolved(pay.status)
            else match gateway
              case Unreachable => u == t && events == [] && reply.ProviderError?
              case Reported(Success, amount) =>
                if amount != pay.amount then u == t && events == [] && reply.AmountMismatch?
                else
                  && reply == Resolved(Success) && p in u.payments && u.payments[p].status.Success?
                  && u.payments[p].paidAt == Some(now) && u.payments == t.payments[p := u.payments[p]]
                  && u.payments[p].amount == pay.amount && u.payments[p].user == user
              case Reported(Failed, _) =>
                && reply == Resolved(Failed) && events == [] && OnlyPaymentChanged(t, u, p)
                && u.payments[p].status.Failed? && u.payments[p].paidAt == pay.paidAt
              case _ => u == t && events == [] && reply == Resolved(Pending)
  {
    FindPaymentIs(t, reference, p);
    SettleKeepsInv(t, p, now, newSub);
  }

  /** The webhook's two payment events: a PENDING payment with a matching or unreported amount becomes
      SUCCESS, a PENDING one FAILED, and each is announced to its user. */
  lemma ChargeAnswers(t: Tables, p: nat, reference: string, amount: Option<int>, now: int, newSub: nat)
    requires TablesInv(t) && newSub !in t.subs && IsPayment(t, p, reference)
    ensures var (u, events) := ChargeSuccess(t, reference, amount, now, newSub);
            var pay := t.payments[p];
            if pay.status.Pending? && (amount.Some? ==> amount.value == pay.amount) then
              && p in u.payments && u.payments[p].status.Success? && u.payments[p].paidAt == Some(now)
              && u.payments == t.payments[p := u.payments[p]] && events == [PlanUpgraded(pay.user, reference)]
            else u == t && events == []
    ensures var (u, events) := ChargeFailed(t, reference);
            var pay := t.payments[p];
            if pay.status.Pending? then
              && OnlyPaymentChanged(t, u, p) && u.payments[p].status.Failed? && u.payments[p].paidAt == pay.paidAt
              && events == [PaymentFailed(pay.user, reference)]
            else u == t && events == []
  {
    FindPaymentIs(t, reference, p);
    SettleKeepsInv(t, p, now, newSub);
  }

  lemma UnknownReferenceChangesNothing(t: Tables, user: nat, reference: string, gateway: Gateway, amount: Option<int>,
                                       now: int, newSub: nat)
    requires forall p | p in t.payments :: t.payments[p].reference != Some(reference)
    ensures Verify(t, user, reference, gateway, now, newSub) == (t, [], PaymentNotFound)
    ensures ChargeSuccess(t, reference, amount, now, newSub) == (t, []) && ChargeFailed(t, reference) == (t, [])
  {
    assert forall p :: !IsPayment(t, p, reference);
  }

  // ----- what a settlement grants -----

  /** A one-time payment leaves an ACTIVE subscription alone, makes a PENDING one a monthly one from
      now on, and otherwise adds a monthly one from now on. */
  lemma OneTimeGrantsMonth(t: Tables, p: nat, now: int, newSub: nat)
    requires TablesInv(t) && p in t.payments && t.payments[p].kind.OneTime? && newSub !in t.subs
    ensures var u, user := Settle(t, p, now, newSub).0, t.payments[p].user;
            && (forall s | s in t.subs && t.subs[s].user == user && t.subs[s].status.SubActive? :: u.subs == t.subs)
            && (forall s | s in t.subs && t.subs[s].user == user && t.subs[s].status.SubPending? ::
                  && u.subs == t.subs[s := u.subs[s]] && s in u.subs && u.subs[s].status.SubActive?
                  && u.subs[s].cycle.Monthly? && u.subs[s].periodStart == now && u.subs[s].periodEnd == PlusMonth(now)
                  && u.subs[s].user == user && u.subs[s].code == t.subs[s].code)
            && ((forall s | s in t.subs ::
                   t.subs[s].user == user ==> !t.subs[s].status.SubActive? && !t.subs[s].status.SubPending?) ==>
                  u.subs == t.subs[newSub :=
                    Subscription(user, Monthly, SubActive, None, now, PlusMonth(now), false, None)])
  {
    var user := t.payments[p].user;
    var paid := t.(payments := t.payments[p := t.payments[p].(status := Success, paidAt := Some(now))]);
    forall s | s in t.subs && t.subs[s].user == user && (t.subs[s].status.SubActive? || t.subs[s].status.SubPending?)
      ensures FindInFlight(paid, user) == Some(s)
    {
      assert IsInFlight(paid, s, user);
      FindInFlightIs(paid, user, s);
    }
  }

  /** A recurring payment's activation runs from now for the billing cycle of the row it activates. */
  lemma RecurringGrantsCycle(t: Tables, p: nat, now: int, newSub: nat, s: nat)
    requires TablesInv(t) && p in t.payments && t.payments[p].kind.Recurring? && newSub !in t.subs
    requires s in t.subs && t.subs[s].user == t.payments[p].user && t.subs[s].status.SubPending?
    ensures var u := Settle(t, p, now, newSub).0;
            && u.subs == t.subs[s := u.subs[s]] && s in u.subs && u.subs[s].status.SubActive?
            && u.subs[s].cycle == t.subs[s].cycle && u.subs[s].periodStart == now
            && u.subs[s].periodEnd
               == (match t.subs[s].cycle case Annual => PlusYear(now) case Monthly => PlusMonth(now))
            && u.subs[s].user == t.subs[s].user && u.subs[s].code == t.subs[s].code
  {
    var user := t.payments[p].user;
    var paid := t.(payments := t.payments[p := t.payments[p].(status := Success, paidAt := Some(now))]);
    assert IsInFlight(paid, s, user);
    FindInFlightIs(paid, user, s);
  }

  // ----- what a request puts into the tables -----

  /** A one-time request charges the one-time price and starts PENDING without a reference. */
  lemma PaymentRequestRow(s: State, r: nat, p: nat, user: nat, hour: int)
    requires r in s.inits && s.inits[r] == PayAsked(Key(user, ForOneTime, hour)) && p !in s.tables.payments
    requires forall q | q in s.tables.payments :: s.tables.payments[q].key != Key(user, ForOneTime, hour)
    ensures var t := InsertPayment(s, r, p);
            && t.tables.subs == s.tables.subs
            && t.tables.payments == s.tables.payments[p :=
                 Payment(user, None, OneTime, s.prices.oneTime, Pending, None, Key(user, ForOneTime, hour), None)]
  {
  }

  /** A subscription request puts in both rows, PENDING, at the price and for the period of its cycle. */
  lemma SubscriptionRequestRows(s: State, r: nat, p: nat, sub: nat, user: nat, cycle: BillingCycle, hour: int, now: int)
    requires r !in s.inits && p !in s.tables.payments && sub !in s.tables.subs
    requires var key := Key(user, match cycle case Annual => ForAnnual case Monthly => ForMonthly, hour);
             forall q | q in s.tables.payments :: s.tables.payments[q].key != key
    requires forall q | q in s.tables.subs :: s.tables.subs[q].user == user ==>
               !s.tables.subs[q].status.SubPending? && !s.tables.subs[q].status.SubActive?
    ensures var t := InsertSubscription(AskSubscription(s, r, user, cycle, hour), r, p, sub, now);
            var key := Key(user, match cycle case Annual => ForAnnual case Monthly => ForMonthly, hour);
            var price := match cycle case Annual => s.prices.annual case Monthly => s.prices.monthly;
            var end := match cycle case Annual => PlusYear(now) case Monthly => PlusMonth(now);
            && t.tables.payments == s.tables.payments[p :=
                 Payment(user, Some(sub), Recurring, price, Pending, None, key, None)]
            && t.tables.subs == s.tables.subs[sub := Subscription(user, cycle, SubPending, None, now, end, false, None)]
  {
    var asked := AskSubscription(s, r, user, cycle, hour);
    assert !KeyTaken(asked.tables, Key(user, KeyKindOf(cycle), hour));
    assert forall u :: !IsInFlight(asked.tables, u, user);
  }

  /** A taken key, or for a subscription also a PENDING or ACTIVE one of the user, puts in nothing. */
  lemma TakenRequestsPutInNothing(s: State, r: nat, p: nat, sub: nat, user: nat, cycle: BillingCycle, hour: int,
                                  now: int)
    requires r !in s.inits && p !in s.tables.payments && sub !in s.tables.subs
    ensures (exists q | q in s.tables.payments :: s.tables.payments[q].key == Key(user, ForOneTime, hour)) ==>
              InsertPayment(AskPayment(s, r, user, hour), r, p)
              == s.(inits := s.inits[r := PayDuplicate(Key(user, ForOneTime, hour))])
    ensures var key := Key(user, match cycle case Annual => ForAnnual case Monthly => ForMonthly, hour);
            (exists q | q in s.tables.payments :: s.tables.payments[q].key == key)
            || (exists q | q in s.tables.subs :: s.tables.subs[q].user == user
                  && (s.tables.subs[q].status.SubPending? || s.tables.subs[q].status.SubActive?)) ==>
              InsertSubscription(AskSubscription(s, r, user, cycle, hour), r, p, sub, now)
              == s.(inits := s.inits[r := SubDuplicate(key, cycle)])
  {
    if q :| q in s.tables.subs && s.tables.subs[q].user == user
            && (s.tables.subs[q].status.SubPending? || s.tables.subs[q].status.SubActive?) {
      assert IsInFlight(s.tables, q, user);
    }
  }

  /** A duplicate payment request replays the reference stored under its key, when there is one. */
  lemma DuplicateReplies(s: State, r: nat, key: Key)
    requires r in s.inits && s.inits[r] == PayDuplicate(key)
    ensures var t := ReadDuplicate(s, r);
            var known := exists p | p in s.tables.payments ::
                           s.tables.payments[p].key == key && s.tables.payments[p].reference.Some?;
            && t.tables == s.tables && t.calls == s.calls && t.inits[r].Answered?
            && (t.inits[r].reply.Replayed? <==> known) && (t.inits[r].reply.Refused? <==> !known)
            && (known ==>
                  exists p | p in s.tables.payments ::
                    && s.tables.payments[p].key == key
                    && s.tables.payments[p].reference == Some(t.inits[r].reply.reference))
  {
  }

  /** A duplicate subscription request replays the newest subscription of its cycle once that has a code. */
  lemma ExistingReplies(t: Tables, user: nat, cycle: BillingCycle, latest: Option<nat>)
    ensures var reply := ExistingReply(t, user, cycle, latest);
            && (reply.SubReplayed? <==>
                  && latest.Some? && latest.value in t.subs && t.subs[latest.value].user == user
                  && t.subs[latest.value].cycle == cycle
                  && t.subs[latest.value].code.Some? && t.subs[latest.value].code.value != "")
            && (!reply.SubReplayed? ==> reply.Refused?)
            && (reply.SubReplayed? && reply.existing.Some? ==>
                  exists p | p in t.payments ::
                    t.payments[p].subscription == latest && t.payments[p].reference == reply.existing)
  {
  }

  /** After the insert: one provider call under the row's key; its reference is stored unless some other
      payment has it, and a failed call stores nothing. */
  lemma ProviderReplies(s: State, r: nat, p: nat, reference: string)
    requires r in s.inits && s.inits[r] == Inserted(p) && p in s.tables.payments
    ensures var t := CallProvider(s, r, None);
            && t.tables == s.tables && t.inits[r] == Answered(InitFailed)
            && t.calls == s.calls + [s.tables.payments[p].key]
    ensures var t := StoreReference(CallProvider(s, r, Some(reference)), r);
            && t.calls == s.calls + [s.tables.payments[p].key]
            && (if exists q | q in s.tables.payments :: q != p && s.tables.payments[q].reference == Some(reference)
                then t.tables == s.tables && t.inits[r] == Answered(InitFailed)
                else
                  && t.inits[r] == Answered(Started(reference)) && t.tables.subs == s.tables.subs
                  && t.tables.payments
                     == s.tables.payments[p := s.tables.payments[p].(reference := Some(reference))])
  {
    var u := CallProvider(s, r, Some(reference));
    if q :| q in s.tables.payments && q != p && s.tables.payments[q].reference == Some(reference) {
      assert IsPayment(u.tables, q, reference);
    }
  }

  /** The provider's code is put on its subscription and nothing else changes. */
  lemma CodeIsStored(t: Tables, s: nat, code: string)
    requires s in t.subs
    ensures var u := SetCode(t, s, code);
            OnlySubChanged(t, u, s) && u.subs[s].code == Some(code)
            && u.subs[s].(code := None) == t.subs[s].(code := None)
  {
  }
}
