/** The payment service's handlers as methods on its two tables, each proved against its function. */
module PaymentTables {
  import opened Json
  import opened Calendar
  import opened PaymentRows
  import P = PaymentProtocol

  class PaymentTables {
    var payments: map<nat, Payment>
    var subs: map<nat, Subscription>
    var events: seq<Event>
    const prices: Prices

    function View(): Tables
      reads this
    {
      Tables(payments, subs)
    }

    ghost predicate Valid()
      reads this
    {
      TablesInv(View())
    }

    constructor (prices: Prices)
      ensures Valid() && View() == Tables(map[], map[]) && events == [] && this.prices == prices
    {
      payments, subs, events := map[], map[], [];
      this.prices := prices;
    }

    method FindByReference(reference: string) returns (found: Option<nat>)
      requires Valid()
      ensures found == FindPayment(View(), reference)
    {
      if p :| p in payments && payments[p].reference == Some(reference) {
        FindPaymentIs(View(), reference, p);
        found := Some(p);
      } else {
        assert forall p :: !IsPayment(View(), p, reference);
        found := None;
      }
    }

    method FindUserInFlight(user: nat) returns (found: Option<nat>)
      requires Valid()
      ensures found == FindInFlight(View(), user)
    {
      if s :| s in subs && subs[s].user == user && InFlight(subs[s]) {
        FindInFlightIs(View(), user, s);
        found := Some(s);
      } else {
        assert forall s :: !IsInFlight(View(), s, user);
        found := None;
      }
    }

    /** Undisturbed: a free key inserts, calls the provider once and stores what it answers; a taken key
        replays the stored reference or refuses, and calls nobody. */
    method InitiatePayment(user: nat, hour: int, newPayment: nat, outcome: Option<string>)
      returns (reply: P.InitReply, called: bool)
      requires Valid() && newPayment !in payments
      modifies this`payments
      ensures Valid()
      ensures called <==> !P.KeyTaken(old(View()), Key(user, ForOneTime, hour))
      ensures !called ==> payments == old(payments) && (reply.Replayed? || reply.Refused?)
      ensures !called ==> (reply.Replayed? <==> exists p | p in payments ::
                             payments[p].key == Key(user, ForOneTime, hour) && payments[p].reference.Some?)
      ensures reply.Replayed? ==> P.HasReference(View(), Key(user, ForOneTime, hour), reply.reference)
      ensures called ==>
                var row := P.NewPayment(user, None, OneTime, prices.oneTime, Key(user, ForOneTime, hour));
                if reply.Started? then
                  outcome == Some(reply.reference)
                  && payments == old(payments)[newPayment := row.(reference := outcome)]
                else reply.InitFailed? && payments == old(payments)[newPayment := row]
      ensures called && outcome.Some? ==>
                (reply.Started? <==> !exists p | p in old(payments) :: old(payments)[p].reference == outcome)
    {
      var key := Key(user, ForOneTime, hour);
      if p :| p in payments && payments[p].key == key {
        called := false;
        reply := match payments[p].reference case Some(r) => P.Replayed(r) case None => P.Refused;
        return;
      }
      payments := payments[newPayment := P.NewPayment(user, None, OneTime, prices.oneTime, key)];
      assert forall p | p in old(payments) :: p in payments && payments[p] == old(payments)[p];
      reply := StoreReference(newPayment, outcome);
      called := true;
    }

    method KeyIsTaken(key: Key) returns (taken: bool)
      ensures taken == P.KeyTaken(View(), key)
    {
      if p :| p in payments && payments[p].key == key {
        return true;
      }
      taken := false;
    }

    /** `latest` is the newest subscription of the user and cycle, as the query finds it. */
    method ExistingSubscription(user: nat, cycle: BillingCycle, latest: Option<nat>) returns (reply: P.InitReply)
      ensures reply.SubReplayed? || reply.Refused?
      ensures reply.SubReplayed? <==>
                latest.Some? && latest.value in subs && subs[latest.value].user == user
                && subs[latest.value].cycle == cycle
                && subs[latest.value].code.Some? && subs[latest.value].code.value != ""
      ensures reply.SubReplayed? && reply.existing.Some? ==>
                exists p | p in payments ::
                  payments[p].subscription == latest && payments[p].reference == reply.existing
    {
      if latest.Some? && latest.value in subs && subs[latest.value].user == user
         && subs[latest.value].cycle == cycle && P.HasCode(subs[latest.value]) {
        if p :| p in payments && payments[p].subscription == latest {
          return P.SubReplayed(payments[p].reference);
        }
        return P.SubReplayed(None);
      }
      reply := P.Refused;
    }

    /** After the provider call: `outcome` is its reference, None when it failed. */
    method StoreReference(p: nat, outcome: Option<string>) returns (reply: P.InitReply)
      requires Valid() && p in payments && payments[p].reference.None?
      modifies this`payments
      ensures Valid()
      ensures reply.Started? <==> outcome.Some? && !exists q | q in old(payments) ::
                old(payments)[q].reference == outcome
      ensures reply.Started? ==> outcome == Some(reply.reference)
      ensures reply.Started? ==> payments == old(payments)[p := old(payments)[p].(reference := outcome)]
      ensures !reply.Started? ==> reply.InitFailed? && payments == old(payments)
    {
      if outcome.None? {
        return P.InitFailed;
      }
      if q :| q in payments && payments[q].reference == outcome {
        return P.InitFailed;
      }
      payments := payments[p := payments[p].(reference := outcome)];
      reply := P.Started(outcome.value);
    }

    /** Both rows or neither; a clash with a key or with a PENDING or ACTIVE subscription of the user
        calls nobody. */
    method InitiateSubscription(user: nat, cycle: BillingCycle, hour: int, now: int, newPayment: nat, newSub: nat,
                                latest: Option<nat>, outcome: Option<string>)
      returns (reply: P.InitReply, called: bool)
      requires Valid() && newPayment !in payments && newSub !in subs
      modifies this`payments, this`subs
      ensures Valid()
      ensures called <==>
                && FindInFlight(old(View()), user).None?
                && !P.KeyTaken(old(View()), Key(user, P.KeyKindOf(cycle), hour))
      ensures !called ==> View() == old(View()) && (reply.SubReplayed? || reply.Refused?)
      ensures !called ==>
                (reply.SubReplayed? <==>
                   && latest.Some? && latest.value in subs && subs[latest.value].user == user
                   && subs[latest.value].cycle == cycle
                   && subs[latest.value].code.Some? && subs[latest.value].code.value != "")
      ensures called ==>
                && subs == old(subs)[newSub := NewSubscription(user, cycle, SubPending, now, PeriodEnd(cycle, now))]
                && var row := P.NewSubscriptionPayment(prices, user, newSub, cycle, hour);
                   if reply.Started? then
                     outcome == Some(reply.reference)
                     && payments == old(payments)[newPayment := row.(reference := outcome)]
                   else reply.InitFailed? && payments == old(payments)[newPayment := row]
    {
      var key := Key(user, P.KeyKindOf(cycle), hour);
      var inFlight := FindUserInFlight(user);
      var taken := KeyIsTaken(key);
      if inFlight.Some? || taken {
        reply := ExistingSubscription(user, cycle, latest);
        return reply, false;
      }
      P.SubscriptionRowsFit(View(), prices, user, newPayment, newSub, cycle, hour, now);
      subs := subs[newSub := NewSubscription(user, cycle, SubPending, now, PeriodEnd(cycle, now))];
      payments := payments[newPayment := P.NewSubscriptionPayment(prices, user, newSub, cycle, hour)];
      reply := StoreReference(newPayment, outcome);
      called := true;
    }

    method ActivateProSubscription(user: nat, now: int, newSub: nat)
      requires Valid() && newSub !in subs
      modifies this`subs
      ensures Valid() && View() == ActivatePro(old(View()), user, now, newSub)
    {
      ActivateProKeepsInv(View(), user, now, newSub);
      var found := FindUserInFlight(user);
      if found.Some? {
        var s := found.value;
        if subs[s].status.SubActive? {
          return;
        }
        var upgraded := subs[s].(cycle := Monthly, status := SubActive, periodStart := now,
                                 periodEnd := PlusMonth(now));
        subs := subs[s := upgraded];
        return;
      }
      subs := subs[newSub := NewSubscription(user, Monthly, SubActive, now, PlusMonth(now))];
    }

    method ActivateSubscriptionPayment(user: nat, now: int) returns (activated: bool)
      requires Valid()
      modifies this`subs
      ensures Valid() && (View(), activated) == ActivatePending(old(View()), user, now)
    {
      ActivatePendingKeepsInv(View(), user, now);
      var found := FindUserInFlight(user);
      if found.None? || !subs[found.value].status.SubPending? {
        return false;
      }
      var sub := subs[found.value];
      var periodEnd := if sub.cycle.Annual? then PlusYear(now) else PlusMonth(now);
      subs := subs[found.value := sub.(status := SubActive, periodStart := now, periodEnd := periodEnd)];
      activated := true;
    }

    method SettlePayment(p: nat, now: int, newSub: nat) returns (activated: bool)
      requires Valid() && p in payments && newSub !in subs
      modifies this`payments, this`subs
      ensures Valid() && (View(), activated) == Settle(old(View()), p, now, newSub)
    {
      var pay := payments[p];
      ReplacedPaymentKeepsInv(View(), p, pay.(status := Success, paidAt := Some(now)));
      payments := payments[p := pay.(status := Success, paidAt := Some(now))];
      if pay.kind.OneTime? {
        ActivateProSubscription(pay.user, now, newSub);
        activated := true;
      } else {
        activated := ActivateSubscriptionPayment(pay.user, now);
      }
    }

    method ResolvePayment(user: nat, reference: string, gateway: Gateway, now: int, newSub: nat)
        returns (reply: VerifyReply)
      requires Valid() && newSub !in subs
      modifies this
      ensures Valid()
      ensures var (t, es, rep) := Verify(old(View()), user, reference, gateway, now, newSub);
              View() == t && events == old(events) + es && reply == rep
    {
      var found := FindByReference(reference);
      if found.None? || payments[found.value].user != user {
        return PaymentNotFound;
      }
      var p := found.value;
      var pay := payments[p];
      if !pay.status.Pending? {
        return Resolved(pay.status);
      }
      if gateway.Unreachable? {
        return ProviderError;
      }
      if gateway.status.Success? && gateway.amount != pay.amount {
        return AmountMismatch;
      }
      if gateway.status.Success? {
        var activated := SettlePayment(p, now, newSub);
        if activated {
          events := events + [PlanUpgraded(user, reference)];
        }
        return Resolved(Success);
      }
      if gateway.status.Failed? {
        ReplacedPaymentKeepsInv(View(), p, pay.(status := Failed));
        payments := payments[p := pay.(status := Failed)];
        return Resolved(Failed);
      }
      reply := Resolved(Pending);
    }

    method HandleChargeSuccess(reference: string, amount: Option<int>, now: int, newSub: nat)
      requires Valid() && newSub !in subs
      modifies this
      ensures Valid()
      ensures var (t, es) := ChargeSuccess(old(View()), reference, amount, now, newSub);
              View() == t && events == old(events) + es
    {
      var found := FindByReference(reference);
      if found.None? {
        return;
      }
      var pay := payments[found.value];
      if !pay.status.Pending? {
        return;
      }
      if amount.Some? && amount.value != pay.amount {
        return;
      }
      var activated := SettlePayment(found.value, now, newSub);
      events := events + [PlanUpgraded(pay.user, reference)];
    }

    method HandleChargeFailed(reference: string)
      requires Valid()
      modifies this
      ensures Valid()
      ensures var (t, es) := ChargeFailed(old(View()), reference);
              View() == t && events == old(events) + es
    {
      var found := FindByReference(reference);
      if found.None? || !payments[found.value].status.Pending? {
        return;
      }
      var pay := payments[found.value];
      ReplacedPaymentKeepsInv(View(), found.value, pay.(status := Failed));
      payments := payments[found.value := pay.(status := Failed)];
      events := events + [PaymentFailed(pay.user, reference)];
    }

    method CancelUserSubscription(user: nat, providerOk: bool, now: int) returns (reply: CancelReply)
      requires Valid()
      modifies this
      ensures Valid()
      ensures var (t, es, rep) := CancelByUser(old(View()), user, providerOk, now);
              View() == t && events == old(events) + es && reply == rep
    {
      var found := FindUserInFlight(user);
      if found.None? || !subs[found.value].status.SubActive? {
        if s :| s in subs && subs[s].user == user && !InFlight(subs[s]) {
          return AlreadyCancelled;
        }
        return NoSubscription;
      }
      var sub := subs[found.value];
      if sub.code == None || sub.code == Some("") {
        return CodeMissing;
      }
      if !providerOk {
        return CancelProviderError;
      }
      var cancelled := sub.(status := SubCancelled, cancelAtPeriodEnd := true, cancelledAt := Some(now));
      ReplacedSubKeepsInv(View(), found.value, cancelled);
      subs := subs[found.value := cancelled];
      events := events + [SubscriptionCancelled(user, found.value, sub.periodEnd)];
      reply := CancelDone;
    }

    /** Cancels one ACTIVE row with the code when there is any; the code column has no unique index. */
    method HandleSubscriptionCancelled(code: string, now: int) returns (s: Option<nat>)
      requires Valid()
      modifies this`subs
      ensures Valid()
      ensures s.Some? ==> HoldsCode(old(View()), s.value, code)
      ensures s.Some? ==> View() == CancelByProvider(old(View()), s.value, code, now)
      ensures s.None? ==> View() == old(View()) && forall u :: !HoldsCode(View(), u, code)
    {
      if u :| u in subs && subs[u].code == Some(code) && subs[u].status.SubActive? {
        var cancelled := subs[u].(status := SubCancelled, cancelAtPeriodEnd := false, cancelledAt := Some(now));
        ReplacedSubKeepsInv(View(), u, cancelled);
        subs := subs[u := cancelled];
        return Some(u);
      }
      s := None;
    }
  }
}
