/**
 * The subscription routes: creating and cancelling a photographer's monthly
 * subscription, the status view, and the processor's webhook that moves
 * subscription rows and the photographer's own status through their states.
 *
 * The `subscriptions` table is a sequence in creation order (a row's id is
 * its position, and "newest first, limit 1" is the last matching row); the
 * processor's answers and the simulation switch are inputs.
 */
module Subscriptions {
  import opened Base
  import opened JsText
  import opened CivilDate
  import P = Photographers
  import AuthMiddleware

  datatype Status = Active | Pending | Cancelled | Expired | Paused

  datatype Plan = Plan(id: string, displayName: string, priceCents: int)

  datatype Subscription = Subscription(
    photographerId: string,
    planId: string,
    preapprovalId: string,
    payerId: Option<string>,
    status: Status,
    startedAt: int,
    periodStart: int,
    periodEnd: int,
    amountCents: int,
    cancelledAt: Option<int>,
    cancelAtPeriodEnd: bool)

  datatype PaymentStatus = Approved | Rejected

  datatype SubscriptionPayment = SubscriptionPayment(
    subscription: nat,
    photographerId: string,
    planId: string,
    paymentId: string,
    amountCents: int,
    currency: string,
    status: PaymentStatus,
    periodStart: int,
    periodEnd: int,
    paidAt: Option<int>,
    paymentMethod: string)

  /** The tables these routes read and write; photographers are keyed by their id. */
  datatype Db = Db(
    subscriptions: seq<Subscription>,
    payments: seq<SubscriptionPayment>,
    photographers: map<string, P.Photographer>,
    plans: map<string, Plan>)

  // ---------------------------------------------------------------- queries

  /** Index of the newest row satisfying `p` (ordered by creation, descending, limit 1). */
  function Newest(subs: seq<Subscription>, p: Subscription -> bool): (r: Option<nat>)
    ensures r.Some? ==> r.value < |subs| && p(subs[r.value])
    ensures r.Some? ==> forall j :: r.value < j < |subs| ==> !p(subs[j])
    ensures r.None? <==> forall j :: 0 <= j < |subs| ==> !p(subs[j])
  {
    if |subs| == 0 then None
    else if p(subs[|subs| - 1]) then Some(|subs| - 1)
    else Newest(subs[..|subs| - 1], p)
  }

  /** Number of rows satisfying `p`. */
  function Count(subs: seq<Subscription>, p: Subscription -> bool): (n: nat)
    ensures n <= |subs|
    ensures n == 0 <==> forall j :: 0 <= j < |subs| ==> !p(subs[j])
  {
    if |subs| == 0 then 0
    else Count(subs[..|subs| - 1], p) + (if p(subs[|subs| - 1]) then 1 else 0)
  }

  /** A `.single()` lookup without a limit: the matching row when there is
      exactly one, nothing when there are none or several. */
  function Single(subs: seq<Subscription>, p: Subscription -> bool): (r: Option<nat>)
    ensures r.Some? <==> Count(subs, p) == 1
    ensures r.Some? ==> r.value < |subs| && p(subs[r.value])
  {
    if Count(subs, p) == 1 then Newest(subs, p) else None
  }

  /** An active or pending subscription of `pid` that was never cancelled: it blocks a new one. */
  predicate IsOpen(s: Subscription, pid: string) {
    s.photographerId == pid && (s.status == Active || s.status == Pending) && s.cancelledAt.None?
  }

  /** An active subscription of `pid` that carries a cancellation date: it is retired before a new one. */
  predicate IsActiveCancelled(s: Subscription, pid: string) {
    s.photographerId == pid && s.status == Active && s.cancelledAt.Some?
  }

  predicate IsActiveOf(s: Subscription, pid: string) {
    s.photographerId == pid && s.status == Active
  }

  // ---------------------------------------------------------------- create

  const SIMULATED_PREFIX: string := "dev_preapproval_"

  /** A number as a template literal renders it. */
  function IntToString(v: int): (r: string)
    ensures |r| >= 1
  {
    if v >= 0 then NatToString(v) else "-" + NatToString(-v)
  }

  /** The preapproval id simulation mode makes up from the clock. */
  function SimulatedId(now: Instant): (r: string)
    ensures OccursAt(r, SIMULATED_PREFIX, 0)
  {
    assert (SIMULATED_PREFIX + IntToString(TimeValue(now)))[..|SIMULATED_PREFIX|] == SIMULATED_PREFIX;
    SIMULATED_PREFIX + IntToString(TimeValue(now))
  }

  /** The row inserted for a new subscription: active straight away in
      simulation mode, pending until the processor confirms otherwise; one
      billing period from now. */
  function NewSubscription(pid: string, plan: Plan, preapprovalId: string, simulate: bool, now: Instant): Subscription {
    Subscription(
      photographerId := pid,
      planId := plan.id,
      preapprovalId := preapprovalId,
      payerId := None,
      status := if simulate then Active else Pending,
      startedAt := TimeValue(now),
      periodStart := TimeValue(now),
      periodEnd := TimeValue(AddOneMonth(now)),
      amountCents := plan.priceCents,
      cancelledAt := None,
      cancelAtPeriodEnd := false)
  }

  datatype CreateResult =
    | InvalidPlan                 // 400
    | AlreadySubscribed           // 400
    | PlanNotFound                // 404
    | ProcessorError              // 500: the processor refused the preapproval
    | SaveError                   // 500: the insert failed
    | Created(subscription: nat, preapprovalId: string)

  /** The newest active-but-cancelled subscription of `pid`, if any, set to expired. */
  function RetireCancelled(subs: seq<Subscription>, pid: string): (r: seq<Subscription>)
    ensures |r| == |subs|
  {
    match Newest(subs, (s: Subscription) => IsActiveCancelled(s, pid))
    case None => subs
    case Some(i) => subs[i := subs[i].(status := Expired)]
  }

  /** `POST /subscriptions/create` for the authenticated photographer `pid`.
      `processorId` is the id the processor gives the new preapproval (None:
      it threw), `insertOk` whether the insert succeeded. */
  function CreateSpec(db: Db, pid: string, planType: string, simulate: bool,
                      processorId: Option<string>, insertOk: bool, now: Instant): (Db, CreateResult)
  {
    if planType != "pro" && planType != "premium" then (db, InvalidPlan)
    else if Newest(db.subscriptions, (s: Subscription) => IsOpen(s, pid)).Some? then (db, AlreadySubscribed)
    else
      var db1 := db.(subscriptions := RetireCancelled(db.subscriptions, pid));
      if planType !in db.plans then (db1, PlanNotFound)
      else
        var preapprovalId := if simulate then Some(SimulatedId(now)) else processorId;
        if preapprovalId.None? then (db1, ProcessorError)
        else if !insertOk then (db1, SaveError)
        else
          var row := NewSubscription(pid, db.plans[planType], preapprovalId.value, simulate, now);
          var photographers :=
            if simulate && pid in db.photographers then
              db.photographers[pid := db.photographers[pid].(
                planType := planType,
                subscriptionStatus := P.Active,
                subscriptionExpiresAt := Some(row.periodEnd))]
            else db.photographers;
          (db1.(subscriptions := db1.subscriptions + [row], photographers := photographers),
           Created(|db.subscriptions|, preapprovalId.value))
  }

  /** A plan name other than `pro` or `premium` is refused with nothing written. */
  lemma {:induction false} CreateRejectsInvalidPlan(db: Db, pid: string, planType: string, simulate: bool,
                                 processorId: Option<string>, insertOk: bool, now: Instant)
    requires planType != "pro" && planType != "premium"
    ensures CreateSpec(db, pid, planType, simulate, processorId, insertOk, now) == (db, InvalidPlan)
  {
  }

  /** A valid plan is refused exactly when the photographer already holds an
      open (active or pending, never cancelled) subscription, and then nothing
      is written. */
  lemma {:induction false} CreateBlockedByOpen(db: Db, pid: string, planType: string, simulate: bool,
                            processorId: Option<string>, insertOk: bool, now: Instant)
    requires planType == "pro" || planType == "premium"
    ensures CreateSpec(db, pid, planType, simulate, processorId, insertOk, now).1 == AlreadySubscribed
            <==> exists j :: 0 <= j < |db.subscriptions| && IsOpen(db.subscriptions[j], pid)
    ensures CreateSpec(db, pid, planType, simulate, processorId, insertOk, now).1 == AlreadySubscribed
            ==> CreateSpec(db, pid, planType, simulate, processorId, insertOk, now).0 == db
  {
    if exists j :: 0 <= j < |db.subscriptions| && IsOpen(db.subscriptions[j], pid) {
      var j :| 0 <= j < |db.subscriptions| && IsOpen(db.subscriptions[j], pid);
      assert ((s: Subscription) => IsOpen(s, pid))(db.subscriptions[j]);
    }
  }

  /** Retiring expires the newest active-but-cancelled row of the
      photographer and keeps every other row. */
  lemma {:induction false} RetireCancelledRows(subs: seq<Subscription>, pid: string)
    ensures var retired := RetireCancelled(subs, pid);
      && (forall j :: 0 <= j < |subs| && !IsActiveCancelled(subs[j], pid) ==> retired[j] == subs[j])
      && (forall j :: (0 <= j < |subs| && IsActiveCancelled(subs[j], pid) &&
                       (forall k :: j < k < |subs| ==> !IsActiveCancelled(subs[k], pid))) ==>
            retired[j] == subs[j].(status := Expired))
  {
    var retired := RetireCancelled(subs, pid);
    var n := Newest(subs, (s: Subscription) => IsActiveCancelled(s, pid));
    forall j | 0 <= j < |subs| && IsActiveCancelled(subs[j], pid) &&
               (forall k :: j < k < |subs| ==> !IsActiveCancelled(subs[k], pid))
      ensures retired[j] == subs[j].(status := Expired)
    {
      assert ((s: Subscription) => IsActiveCancelled(s, pid))(subs[j]);
    }
    if n.Some? {
      assert IsActiveCancelled(subs[n.value], pid) by {
        assert ((s: Subscription) => IsActiveCancelled(s, pid))(subs[n.value]);
      }
    }
  }

  /** Past the guards, the subscriptions `create` leaves begin with the
      retired rows, whatever happens afterwards. */
  lemma {:induction false} CreateKeepsRetired(db: Db, pid: string, planType: string, simulate: bool,
                                              processorId: Option<string>, insertOk: bool, now: Instant)
    requires planType == "pro" || planType == "premium"
    requires forall j :: 0 <= j < |db.subscriptions| ==> !IsOpen(db.subscriptions[j], pid)
    ensures var subs := CreateSpec(db, pid, planType, simulate, processorId, insertOk, now).0.subscriptions;
      |subs| >= |db.subscriptions| && subs[..|db.subscriptions|] == RetireCancelled(db.subscriptions, pid)
  {
    var subs := db.subscriptions;
    assert Newest(subs, (s: Subscription) => IsOpen(s, pid)).None? by {
      forall j | 0 <= j < |subs| ensures !((s: Subscription) => IsOpen(s, pid))(subs[j]) {
        assert !IsOpen(subs[j], pid);
      }
    }
    var retired := RetireCancelled(subs, pid);
    var r := CreateSpec(db, pid, planType, simulate, processorId, insertOk, now).0.subscriptions;
    assert r[..|subs|] == retired;
  }

  /** Once past the guards, the newest active-but-cancelled subscription of
      the photographer is expired and every other row is kept, whatever
      happens afterwards (an unknown plan or a processor error included). */
  lemma {:induction false} CreateRetiresCancelled(db: Db, pid: string, planType: string, simulate: bool,
                                                  processorId: Option<string>, insertOk: bool, now: Instant)
    requires planType == "pro" || planType == "premium"
    requires forall j :: 0 <= j < |db.subscriptions| ==> !IsOpen(db.subscriptions[j], pid)
    ensures var subs := CreateSpec(db, pid, planType, simulate, processorId, insertOk, now).0.subscriptions;
      && |subs| >= |db.subscriptions|
      && (forall j :: 0 <= j < |db.subscriptions| && !IsActiveCancelled(db.subscriptions[j], pid) ==>
            subs[j] == db.subscriptions[j])
      && (forall j :: (0 <= j < |db.subscriptions| && IsActiveCancelled(db.subscriptions[j], pid) &&
                       (forall k :: j < k < |db.subscriptions| ==> !IsActiveCancelled(db.subscriptions[k], pid))) ==>
            subs[j] == db.subscriptions[j].(status := Expired))
  {
    CreateKeepsRetired(db, pid, planType, simulate, processorId, insertOk, now);
    RetireCancelledRows(db.subscriptions, pid);
    var subs := CreateSpec(db, pid, planType, simulate, processorId, insertOk, now).0.subscriptions;
    assert forall j :: 0 <= j < |db.subscriptions| ==> subs[j] == subs[..|db.subscriptions|][j];
  }

  /** A created subscription is the new last row: active exactly in simulation
      mode, pending otherwise, charged the plan's price, never cancelled, and
      its billing period runs from now to one calendar month later, which is
      28 to 31 days ahead. */
  lemma {:induction false} CreateInsertsNew(db: Db, pid: string, planType: string, simulate: bool,
                                            processorId: Option<string>, insertOk: bool, now: Instant)
    requires CreateSpec(db, pid, planType, simulate, processorId, insertOk, now).1.Created?
    ensures var (db2, res) := CreateSpec(db, pid, planType, simulate, processorId, insertOk, now);
      && planType in db.plans
      && res.subscription == |db.subscriptions|
      && |db2.subscriptions| == |db.subscriptions| + 1
      && var row := db2.subscriptions[res.subscription];
      && row.photographerId == pid
      && row.preapprovalId == res.preapprovalId
      && (row.status == Active <==> simulate)
      && (row.status == Pending <==> !simulate)
      && row.amountCents == db.plans[planType].priceCents
      && row.cancelledAt.None?
      && row.periodStart == TimeValue(now)
      && row.periodEnd == TimeValue(AddOneMonth(now))
      && TimeValue(now) + 28 * DAY_MS <= row.periodEnd <= TimeValue(now) + 31 * DAY_MS
      && (simulate ==> OccursAt(res.preapprovalId, SIMULATED_PREFIX, 0))
      && (!simulate ==> Some(res.preapprovalId) == processorId)
  {
    AddOneMonthShift(now);
  }

  /** In simulation mode the photographer is switched to the chosen plan,
      active until the end of the new period, and so passes the access gate
      now; with the real processor the photographer is left as it was until
      the processor's webhook arrives. */
  lemma {:induction false} CreateActivation(db: Db, pid: string, planType: string, simulate: bool,
                                            processorId: Option<string>, insertOk: bool, now: Instant)
    requires CreateSpec(db, pid, planType, simulate, processorId, insertOk, now).1.Created?
    ensures var db2 := CreateSpec(db, pid, planType, simulate, processorId, insertOk, now).0;
      && (!simulate ==> db2.photographers == db.photographers)
      && (simulate && pid in db.photographers ==>
            && db2.photographers == db.photographers[pid := db2.photographers[pid]]
            && db2.photographers[pid].planType == planType
            && db2.photographers[pid].subscriptionStatus == P.Active
            && AuthMiddleware.HasAccess(db2.photographers[pid], TimeValue(now)))
  {
    AddOneMonthShift(now);
  }

  // ---------------------------------------------------------------- cancel

  datatype CancelResult =
    | NoActiveSubscription        // 404
    | CancelFailed                // 500: the processor refused the cancellation
    | CancelledUntil(accessUntil: int)

  /** Whether cancelling goes through the processor: not for a made-up id,
      not in simulation mode. */
  predicate CallsProcessor(s: Subscription, simulate: bool) {
    !OccursAt(s.preapprovalId, SIMULATED_PREFIX, 0) && !simulate
  }

  /** `POST /subscriptions/cancel`. `processorOk` is whether the processor
      accepted the cancellation, when it is asked. */
  function CancelSpec(db: Db, pid: string, simulate: bool, processorOk: bool, now: Instant): (Db, CancelResult) {
    match Newest(db.subscriptions, (s: Subscription) => IsActiveOf(s, pid))
    case None => (db, NoActiveSubscription)
    case Some(i) =>
      var s := db.subscriptions[i];
      if CallsProcessor(s, simulate) && !processorOk then (db, CancelFailed)
      else
        (db.(subscriptions := db.subscriptions[i := s.(
            status := Cancelled,
            cancelledAt := Some(TimeValue(now)),
            cancelAtPeriodEnd := true)]),
         CancelledUntil(s.periodEnd))
  }

  /** Cancelling finds nothing exactly when the photographer has no active
      subscription. On success the newest active one is marked cancelled,
      dated now and set to end with its period, access is promised until the
      period's end, nothing else changes, and in particular the photographer's
      own status is left alone. */
  lemma {:induction false} CancelMarksNewestActive(db: Db, pid: string, simulate: bool, processorOk: bool, now: Instant)
    ensures var (db2, res) := CancelSpec(db, pid, simulate, processorOk, now);
      && (res == NoActiveSubscription <==> forall j :: 0 <= j < |db.subscriptions| ==> !IsActiveOf(db.subscriptions[j], pid))
      && (!res.CancelledUntil? ==> db2 == db)
      && (res.CancelledUntil? ==>
            exists i :: 0 <= i < |db.subscriptions| && IsActiveOf(db.subscriptions[i], pid)
              && (forall k :: i < k < |db.subscriptions| ==> !IsActiveOf(db.subscriptions[k], pid))
              && res.accessUntil == db.subscriptions[i].periodEnd
              && db2 == db.(subscriptions := db.subscriptions[i := db.subscriptions[i].(
                   status := Cancelled, cancelledAt := Some(TimeValue(now)), cancelAtPeriodEnd := true)]))
      && db2.photographers == db.photographers
  {
    var subs := db.subscriptions;
    var n := Newest(subs, (s: Subscription) => IsActiveOf(s, pid));
    if n.None? {
      forall j | 0 <= j < |subs| ensures !IsActiveOf(subs[j], pid) {
        assert !((s: Subscription) => IsActiveOf(s, pid))(subs[j]);
      }
    } else {
      var i := n.value;
      assert IsActiveOf(subs[i], pid) by { assert ((s: Subscription) => IsActiveOf(s, pid))(subs[i]); }
      forall k | i < k < |subs| ensures !IsActiveOf(subs[k], pid) {
        assert !((s: Subscription) => IsActiveOf(s, pid))(subs[k]);
      }
    }
  }

  /** The processor is only asked to cancel real preapprovals: a
      subscription created in simulation mode is cancelled locally even
      after simulation mode is switched off. */
  lemma {:induction false} SimulatedNeverCallsProcessor(pid: string, plan: Plan, now: Instant, simulate: bool)
    ensures !CallsProcessor(NewSubscription(pid, plan, SimulatedId(now), true, now), simulate)
  {
  }

  /** `/cancel` sets the status to `cancelled`, while `/create` retires only
      active rows carrying a cancellation date: a subscription cancelled
      through the route is never expired by a later `create`, and it no
      longer blocks one. */
  lemma {:induction false} CancelledNeverRetired(db: Db, pid: string, simulate: bool, processorOk: bool, now: Instant, i: nat)
    requires i < |db.subscriptions| && IsActiveOf(db.subscriptions[i], pid)
    requires forall k :: i < k < |db.subscriptions| ==> !IsActiveOf(db.subscriptions[k], pid)
    requires CancelSpec(db, pid, simulate, processorOk, now).1.CancelledUntil?
    ensures var subs := CancelSpec(db, pid, simulate, processorOk, now).0.subscriptions;
      && i < |subs| && subs[i].status == Cancelled && subs[i].cancelledAt.Some?
      && !IsOpen(subs[i], pid)
      && RetireCancelled(subs, pid)[i] == subs[i]
  {
    CancelMarksNewestActive(db, pid, simulate, processorOk, now);
    var subs := CancelSpec(db, pid, simulate, processorOk, now).0.subscriptions;
    var j :| 0 <= j < |db.subscriptions| && IsActiveOf(db.subscriptions[j], pid)
      && (forall k :: j < k < |db.subscriptions| ==> !IsActiveOf(db.subscriptions[k], pid))
      && subs == db.subscriptions[j := db.subscriptions[j].(
           status := Cancelled, cancelledAt := Some(TimeValue(now)), cancelAtPeriodEnd := true)];
    assert j == i;
    RetireCancelledRows(subs, pid);
  }

  // ---------------------------------------------------------------- status

  datatype StatusView =
    | NoSubscription(status: P.SubscriptionStatus, trialEndsAt: Option<int>)
    | HasSubscription(subscription: Subscription, payments: seq<SubscriptionPayment>,
                      status: P.SubscriptionStatus, trialEndsAt: Option<int>, expiresAt: Option<int>)

  /** The payments recorded against subscription `i`, newest first. */
  function PaymentsOf(payments: seq<SubscriptionPayment>, i: nat): (r: seq<SubscriptionPayment>)
    ensures forall x :: x in r <==> x in payments && x.subscription == i
  {
    if |payments| == 0 then []
    else
      var last := payments[|payments| - 1];
      (if last.subscription == i then [last] else []) + PaymentsOf(payments[..|payments| - 1], i)
  }

  /** The positions in the payments table of subscription `i`'s payments,
      from the last row to the first. */
  function Positions(payments: seq<SubscriptionPayment>, i: nat): seq<nat> {
    if |payments| == 0 then []
    else
      var n := |payments| - 1;
      (if payments[n].subscription == i then [n] else []) + Positions(payments[..n], i)
  }

  /** `Positions` names rows of subscription `i`, strictly decreasing, and
      misses none of them. */
  lemma {:induction false} PositionsOrdered(payments: seq<SubscriptionPayment>, i: nat)
    ensures forall a :: 0 <= a < |Positions(payments, i)| ==>
      Positions(payments, i)[a] < |payments| && payments[Positions(payments, i)[a]].subscription == i
    ensures forall a :: 0 <= a < |Positions(payments, i)| - 1 ==> Positions(payments, i)[a] > Positions(payments, i)[a + 1]
    ensures forall k :: 0 <= k < |payments| && payments[k].subscription == i ==> k in Positions(payments, i)
  {
    PositionsRows(payments, i);
    PositionsComplete(payments, i);
  }

  lemma {:induction false} PositionsRows(payments: seq<SubscriptionPayment>, i: nat)
    ensures forall a :: 0 <= a < |Positions(payments, i)| ==>
      Positions(payments, i)[a] < |payments| && payments[Positions(payments, i)[a]].subscription == i
    ensures forall a :: 0 <= a < |Positions(payments, i)| - 1 ==> Positions(payments, i)[a] > Positions(payments, i)[a + 1]
  {
    if |payments| > 0 {
      var n := |payments| - 1;
      var init := payments[..n];
      PositionsRows(init, i);
      var rest := Positions(init, i);
      PositionsInPrefixRows(payments, n, rest, i);
      if payments[n].subscription == i {
        assert Positions(payments, i) == [n] + rest;
      } else {
        assert Positions(payments, i) == rest;
      }
    }
  }

  lemma {:induction false} PositionsInPrefixRows(payments: seq<SubscriptionPayment>, n: nat, pos: seq<nat>, i: nat)
    requires n <= |payments|
    requires forall a :: 0 <= a < |pos| ==> pos[a] < n && payments[..n][pos[a]].subscription == i
    ensures forall a :: 0 <= a < |pos| ==> payments[pos[a]].subscription == i
  {
  }

  lemma {:induction false} PositionsComplete(payments: seq<SubscriptionPayment>, i: nat)
    ensures forall k :: 0 <= k < |payments| && payments[k].subscription == i ==> k in Positions(payments, i)
  {
    if |payments| > 0 {
      var n := |payments| - 1;
      var init := payments[..n];
      PositionsComplete(init, i);
      var rest, pos := Positions(init, i), Positions(payments, i);
      assert forall k :: 0 <= k < n ==> init[k] == payments[k];
      assert forall k :: k in rest ==> k in pos;
    }
  }

  /** `PaymentsOf` lists the payments at those positions, in that order:
      every payment of the subscription, newest first. */
  lemma {:induction false} PaymentsOfNewestFirst(payments: seq<SubscriptionPayment>, i: nat)
    ensures |PaymentsOf(payments, i)| == |Positions(payments, i)|
    ensures forall a :: 0 <= a < |Positions(payments, i)| ==>
      Positions(payments, i)[a] < |payments| && PaymentsOf(payments, i)[a] == payments[Positions(payments, i)[a]]
  {
    if |payments| > 0 {
      var n := |payments| - 1;
      var init := payments[..n];
      PaymentsOfNewestFirst(init, i);
      var rest, found := Positions(init, i), PaymentsOf(init, i);
      PositionsInPrefix(payments, n, rest, found);
      var pos, r := Positions(payments, i), PaymentsOf(payments, i);
      if payments[n].subscription == i {
        assert pos == [n] + rest && r == [payments[n]] + found;
        PositionsCons(payments, n, rest, found);
      } else {
        assert pos == rest && r == found;
      }
    }
  }

  lemma {:induction false} PositionsCons(payments: seq<SubscriptionPayment>, n: nat, pos: seq<nat>, rows: seq<SubscriptionPayment>)
    requires n < |payments| && |pos| == |rows|
    requires forall a :: 0 <= a < |pos| ==> pos[a] < |payments| && rows[a] == payments[pos[a]]
    ensures forall a :: 0 <= a < |pos| + 1 ==> ([n] + pos)[a] < |payments| && ([payments[n]] + rows)[a] == payments[([n] + pos)[a]]
  {
    forall a | 0 < a < |pos| + 1
      ensures ([payments[n]] + rows)[a] == payments[([n] + pos)[a]]
    {
      assert ([n] + pos)[a] == pos[a - 1];
    }
  }

  /** Positions read in a prefix of the table read the same rows in the table. */
  lemma {:induction false} PositionsInPrefix(payments: seq<SubscriptionPayment>, n: nat, pos: seq<nat>, rows: seq<SubscriptionPayment>)
    requires n <= |payments| && |pos| == |rows|
    requires forall a :: 0 <= a < |pos| ==> pos[a] < n && rows[a] == payments[..n][pos[a]]
    ensures forall a :: 0 <= a < |pos| ==> rows[a] == payments[pos[a]]
  {
  }

  /** `GET /subscriptions/status` for the authenticated photographer `p` with id `pid`. */
  function StatusOf(db: Db, pid: string, p: P.Photographer): (v: StatusView)
    ensures v.NoSubscription? <==> forall j :: 0 <= j < |db.subscriptions| ==> db.subscriptions[j].photographerId != pid
    ensures v.NoSubscription? ==> v.status == p.subscriptionStatus && v.trialEndsAt == p.trialEndsAt
    ensures v.HasSubscription? ==>
      exists i :: 0 <= i < |db.subscriptions|
        && v.subscription == db.subscriptions[i]
        && db.subscriptions[i].photographerId == pid
        && (forall j :: i < j < |db.subscriptions| ==> db.subscriptions[j].photographerId != pid)
        && v.payments == PaymentsOf(db.payments, i)
    ensures v.HasSubscription? ==>
      v.status == p.subscriptionStatus && v.trialEndsAt == p.trialEndsAt && v.expiresAt == p.subscriptionExpiresAt
  {
    match Newest(db.subscriptions, (s: Subscription) => s.photographerId == pid)
    case None =>
      assert forall j :: 0 <= j < |db.subscriptions| ==> !((s: Subscription) => s.photographerId == pid)(db.subscriptions[j]);
      NoSubscription(p.subscriptionStatus, p.trialEndsAt)
    case Some(i) =>
      HasSubscription(db.subscriptions[i], PaymentsOf(db.payments, i),
                      p.subscriptionStatus, p.trialEndsAt, p.subscriptionExpiresAt)
  }

  // ---------------------------------------------------------------- webhook

  /** What the processor reports for a preapproval. */
  datatype Preapproval = Preapproval(status: string, payerId: Option<string>, nextPaymentDate: Option<int>)

  /** What the processor reports for a recurring payment; `payerId` is None
      when the payment carries no payer, which makes the handler throw. The
      amount is the reported amount times 100. */
  datatype ProcessorPayment = ProcessorPayment(
    status: string, payerId: Option<string>, amountCents: int, currency: string, paymentMethod: string)

  /** The notification body: its `type` and `data.id` (None when absent). */
  datatype Notification = Notification(kind: string, dataId: Option<string>)

  /** The new state of a preapproval's subscription row, or None for an
      empty update. */
  function PreapprovalRowStatus(status: string): (r: Option<Status>)
    ensures r == Some(Active) <==> status == "authorized"
    ensures r == Some(Cancelled) <==> status == "cancelled"
    ensures r == Some(Paused) <==> status == "paused"
    ensures r.None? <==> status != "authorized" && status != "cancelled" && status != "paused"
  {
    if status == "authorized" then Some(Active)
    else if status == "cancelled" then Some(Cancelled)
    else if status == "paused" then Some(Paused)
    else None
  }

  /** The photographer update a preapproval status brings, applied to `p`. */
  function PreapprovalPhotographer(pa: Preapproval, p: P.Photographer): P.Photographer {
    if pa.status == "authorized" then p.(subscriptionStatus := P.Active, subscriptionExpiresAt := pa.nextPaymentDate)
    else if pa.status == "cancelled" then p.(subscriptionStatus := P.Cancelled)
    else p
  }

  function UpdatePhotographer(ps: map<string, P.Photographer>, id: string, f: P.Photographer -> P.Photographer)
    : (r: map<string, P.Photographer>)
    ensures r.Keys == ps.Keys
    ensures id in ps ==> r == ps[id := f(ps[id])]
    ensures id !in ps ==> r == ps
  {
    if id in ps then ps[id := f(ps[id])] else ps
  }

  /** A `preapproval` notification: the row with that preapproval id (exactly
      one), the photographer update, then the row update. */
  function PreapprovalSpec(db: Db, preapprovalId: string, pa: Preapproval): Db {
    match Single(db.subscriptions, (s: Subscription) => s.preapprovalId == preapprovalId)
    case None => db
    case Some(i) =>
      var s := db.subscriptions[i];
      var photographers := UpdatePhotographer(db.photographers, s.photographerId, (p: P.Photographer) => PreapprovalPhotographer(pa, p));
      var row :=
        match PreapprovalRowStatus(pa.status)
        case None => s
        case Some(st) =>
          if pa.status == "authorized" && pa.payerId.Some? then s.(status := st, payerId := pa.payerId)
          else s.(status := st);
      db.(subscriptions := db.subscriptions[i := row], photographers := photographers)
  }

  /** A `payment` notification: the one active row of that payer, the
      payment record, then the renewal or the past-due mark. */
  function PaymentSpec(db: Db, paymentId: string, pay: ProcessorPayment, now: Instant): Db {
    if pay.payerId.None? then db
    else
      match Single(db.subscriptions, (s: Subscription) => s.payerId == pay.payerId && s.status == Active)
      case None => db
      case Some(i) =>
        var s := db.subscriptions[i];
        var approved := pay.status == "approved";
        var record := SubscriptionPayment(
          subscription := i,
          photographerId := s.photographerId,
          planId := s.planId,
          paymentId := paymentId,
          amountCents := pay.amountCents,
          currency := pay.currency,
          status := if approved then Approved else Rejected,
          periodStart := s.periodStart,
          periodEnd := s.periodEnd,
          paidAt := if approved then Some(TimeValue(now)) else None,
          paymentMethod := pay.paymentMethod);
        var db1 := db.(payments := db.payments + [record]);
        if approved then
          var nextEnd := TimeValue(AddOneMonth(now));
          db1.(subscriptions := db.subscriptions[i := s.(periodStart := TimeValue(now), periodEnd := nextEnd)],
               photographers := UpdatePhotographer(db.photographers, s.photographerId,
                 (p: P.Photographer) => p.(subscriptionStatus := P.Active, subscriptionExpiresAt := Some(nextEnd))))
        else if pay.status == "rejected" then
          db1.(photographers := UpdatePhotographer(db.photographers, s.photographerId,
                 (p: P.Photographer) => p.(subscriptionStatus := P.PastDue)))
        else db1
  }

  /** `POST /subscriptions/webhook`: always answered 200 before any work, so
      only the tables change. A notification without `data.id`, or whose
      lookup at the processor fails, changes nothing. */
  function WebhookSpec(db: Db, n: Notification, preapprovalOf: string -> Option<Preapproval>,
                       paymentOf: string -> Option<ProcessorPayment>, now: Instant): (r: Db)
    ensures r.plans == db.plans
    ensures n.kind != "preapproval" && n.kind != "payment" ==> r == db
  {
    if n.kind == "preapproval" then
      if n.dataId.None? then db
      else match preapprovalOf(n.dataId.value)
        case None => db
        case Some(pa) => PreapprovalSpec(db, n.dataId.value, pa)
    else if n.kind == "payment" then
      if n.dataId.None? then db
      else match paymentOf(n.dataId.value)
        case None => db
        case Some(pay) => PaymentSpec(db, n.dataId.value, pay, now)
    else db
  }

  /** The preapproval mapping: for the one row with that preapproval id,
      `authorized` makes the row and the photographer active (expiring at the
      next payment date), `cancelled` makes both cancelled, `paused` pauses
      the row only, and any other status changes nothing at all. Without
      exactly one such row nothing changes either. */
  lemma {:induction false} PreapprovalMapping(db: Db, preapprovalId: string, pa: Preapproval)
    ensures var db2 := PreapprovalSpec(db, preapprovalId, pa);
      && db2.payments == db.payments && db2.plans == db.plans
      && |db2.subscriptions| == |db.subscriptions|
      && (Count(db.subscriptions, (s: Subscription) => s.preapprovalId == preapprovalId) != 1 ==> db2 == db)
      && (PreapprovalRowStatus(pa.status).None? ==> db2 == db)
      && (forall i :: (0 <= i < |db.subscriptions| && db.subscriptions[i].preapprovalId == preapprovalId &&
                       Count(db.subscriptions, (s: Subscription) => s.preapprovalId == preapprovalId) == 1) ==>
            var s, pid := db.subscriptions[i], db.subscriptions[i].photographerId;
            && (pa.status == "authorized" ==>
                  db2.subscriptions[i].status == Active
                  && (pid in db.photographers ==>
                        db2.photographers[pid].subscriptionStatus == P.Active
                        && db2.photographers[pid].subscriptionExpiresAt == pa.nextPaymentDate))
            && (pa.status == "cancelled" ==>
                  db2.subscriptions[i].status == Cancelled
                  && (pid in db.photographers ==> db2.photographers[pid].subscriptionStatus == P.Cancelled))
            && (pa.status == "paused" ==>
                  db2.subscriptions[i] == s.(status := Paused) && db2.photographers == db.photographers))
  {
    var subs := db.subscriptions;
    var single := Single(subs, (s: Subscription) => s.preapprovalId == preapprovalId);
    forall i | 0 <= i < |subs| && subs[i].preapprovalId == preapprovalId &&
               Count(subs, (s: Subscription) => s.preapprovalId == preapprovalId) == 1
      ensures single == Some(i)
    {
      SingleIsTheMatch(subs, (s: Subscription) => s.preapprovalId == preapprovalId, i);
    }
    if single.Some? && PreapprovalRowStatus(pa.status).None? {
      var i := single.value;
      var pid := subs[i].photographerId;
      if pid in db.photographers {
        assert PreapprovalPhotographer(pa, db.photographers[pid]) == db.photographers[pid];
        assert db.photographers[pid := db.photographers[pid]] == db.photographers;
      }
      assert db.subscriptions[i := subs[i]] == db.subscriptions;
    }
  }

  /** With exactly one row satisfying `p`, `Single` finds that row. */
  lemma {:induction false} SingleIsTheMatch(subs: seq<Subscription>, p: Subscription -> bool, i: nat)
    requires i < |subs| && p(subs[i]) && Count(subs, p) == 1
    ensures Single(subs, p) == Some(i)
    decreases |subs|
  {
    var last := |subs| - 1;
    var init := subs[..last];
    if i == last {
    } else {
      assert init[i] == subs[i];
      if p(subs[last]) {
        assert false;
      }
      assert Count(init, p) == 1;
      SingleIsTheMatch(init, p, i);
    }
  }

  /** The payment mapping: when the payer has exactly one active row, one
      payment record is appended for it, recorded `approved` exactly when the
      processor says approved and `rejected` in every other case. An approved
      payment starts a new one-month period and makes the photographer
      active until its end, so the access gate lets them in; a rejected one
      marks the photographer past due, which the gate refuses; any other
      status records the payment and changes nothing else. */
  lemma {:induction false} PaymentMapping(db: Db, paymentId: string, pay: ProcessorPayment, now: Instant, i: nat)
    requires pay.payerId.Some?
    requires i < |db.subscriptions| && db.subscriptions[i].payerId == pay.payerId && db.subscriptions[i].status == Active
    requires Count(db.subscriptions, (s: Subscription) => s.payerId == pay.payerId && s.status == Active) == 1
    ensures var db2, s, pid := PaymentSpec(db, paymentId, pay, now), db.subscriptions[i], db.subscriptions[i].photographerId;
      && db2.payments == db.payments + [db2.payments[|db.payments|]]
      && var record := db2.payments[|db.payments|];
      && record.subscription == i && record.paymentId == paymentId
      && record.periodStart == s.periodStart && record.periodEnd == s.periodEnd
      && (record.status == Approved <==> pay.status == "approved")
      && (record.paidAt.Some? <==> pay.status == "approved")
      && (pay.status == "approved" ==>
            && db2.subscriptions == db.subscriptions[i := s.(periodStart := TimeValue(now), periodEnd := TimeValue(AddOneMonth(now)))]
            && db2.subscriptions[i].periodEnd > db2.subscriptions[i].periodStart
            && (pid in db.photographers ==>
                  db2.photographers[pid].subscriptionStatus == P.Active
                  && db2.photographers[pid].subscriptionExpiresAt == Some(TimeValue(AddOneMonth(now)))
                  && AuthMiddleware.HasAccess(db2.photographers[pid], TimeValue(now))))
      && (pay.status == "rejected" ==>
            && db2.subscriptions == db.subscriptions
            && (pid in db.photographers ==>
                  db2.photographers[pid] == db.photographers[pid].(subscriptionStatus := P.PastDue)
                  && !AuthMiddleware.HasAccess(db2.photographers[pid], TimeValue(now))))
      && (pay.status != "approved" && pay.status != "rejected" ==>
            db2.subscriptions == db.subscriptions && db2.photographers == db.photographers)
  {
    SingleIsTheMatch(db.subscriptions, (s: Subscription) => s.payerId == pay.payerId && s.status == Active, i);
    AddOneMonthShift(now);
  }

  /** Without a single active row for the payer nothing is recorded. */
  lemma {:induction false} PaymentNeedsSingleRow(db: Db, paymentId: string, pay: ProcessorPayment, now: Instant)
    requires pay.payerId.None? || Count(db.subscriptions, (s: Subscription) => s.payerId == pay.payerId && s.status == Active) != 1
    ensures PaymentSpec(db, paymentId, pay, now) == db
  {
  }

  // ---------------------------------------------------------------- the routes over mutable tables

  class SubscriptionStore {
    var subscriptions: seq<Subscription>
    var payments: seq<SubscriptionPayment>
    var photographers: map<string, P.Photographer>
    const plans: map<string, Plan>

    function Snapshot(): Db
      reads this
    {
      Db(subscriptions, payments, photographers, plans)
    }

    constructor (db: Db)
      ensures Snapshot() == db
    {
      subscriptions := db.subscriptions;
      payments := db.payments;
      photographers := db.photographers;
      plans := db.plans;
    }

    /** `POST /subscriptions/create`: the guards, the retirement of a
        cancelled subscription, the plan lookup, the preapproval, the insert,
        and in simulation mode the photographer update. */
    method Create(pid: string, planType: string, simulate: bool, processorId: Option<string>,
                  insertOk: bool, now: Instant) returns (res: CreateResult)
      modifies this
      ensures (Snapshot(), res) == CreateSpec(old(Snapshot()), pid, planType, simulate, processorId, insertOk, now)
    {
      if planType != "pro" && planType != "premium" {
        return InvalidPlan;
      }
      var existing := Newest(subscriptions, (s: Subscription) => IsOpen(s, pid));
      if existing.Some? {
        return AlreadySubscribed;
      }
      var cancelled := Newest(subscriptions, (s: Subscription) => IsActiveCancelled(s, pid));
      if cancelled.Some? {
        var i := cancelled.value;
        subscriptions := subscriptions[i := subscriptions[i].(status := Expired)];
      }
      if planType !in plans {
        return PlanNotFound;
      }
      var plan := plans[planType];
      var preapprovalId := if simulate then Some(SimulatedId(now)) else processorId;
      if preapprovalId.None? {
        return ProcessorError;
      }
      if !insertOk {
        return SaveError;
      }
      var row := NewSubscription(pid, plan, preapprovalId.value, simulate, now);
      var id := |subscriptions|;
      subscriptions := subscriptions + [row];
      if simulate && pid in photographers {
        photographers := photographers[pid := photographers[pid].(
          planType := planType,
          subscriptionStatus := P.Active,
          subscriptionExpiresAt := Some(row.periodEnd))];
      }
      res := Created(id, preapprovalId.value);
    }

    /** `POST /subscriptions/cancel`. */
    method Cancel(pid: string, simulate: bool, processorOk: bool, now: Instant) returns (res: CancelResult)
      modifies this
      ensures (Snapshot(), res) == CancelSpec(old(Snapshot()), pid, simulate, processorOk, now)
    {
      var found := Newest(subscriptions, (s: Subscription) => IsActiveOf(s, pid));
      if found.None? {
        return NoActiveSubscription;
      }
      var i := found.value;
      var s := subscriptions[i];
      if CallsProcessor(s, simulate) && !processorOk {
        return CancelFailed;
      }
      subscriptions := subscriptions[i := s.(status := Cancelled, cancelledAt := Some(TimeValue(now)), cancelAtPeriodEnd := true)];
      res := CancelledUntil(s.periodEnd);
    }

    /** `POST /subscriptions/webhook`: the preapproval branch fills the row
        update field by field before writing it; the payment branch inserts
        the record and then renews or marks the photographer. */
    method Webhook(n: Notification, preapprovalOf: string -> Option<Preapproval>,
                   paymentOf: string -> Option<ProcessorPayment>, now: Instant)
      modifies this
      ensures Snapshot() == WebhookSpec(old(Snapshot()), n, preapprovalOf, paymentOf, now)
    {
      if n.dataId.None? {
        return;
      }
      var id := n.dataId.value;
      if n.kind == "preapproval" {
        var fetched := preapprovalOf(id);
        if fetched.None? {
          return;
        }
        var pa := fetched.value;
        var found := Single(subscriptions, (s: Subscription) => s.preapprovalId == id);
        if found.None? {
          return;
        }
        var i := found.value;
        var row := subscriptions[i];
        if pa.status == "authorized" {
          row := row.(status := Active);
          if pa.payerId.Some? {
            row := row.(payerId := pa.payerId);
          }
          photographers := UpdatePhotographer(photographers, row.photographerId,
            (p: P.Photographer) => p.(subscriptionStatus := P.Active, subscriptionExpiresAt := pa.nextPaymentDate));
        } else if pa.status == "cancelled" {
          row := row.(status := Cancelled);
          photographers := UpdatePhotographer(photographers, row.photographerId,
            (p: P.Photographer) => p.(subscriptionStatus := P.Cancelled));
        } else if pa.status == "paused" {
          row := row.(status := Paused);
        }
        subscriptions := subscriptions[i := row];
        assert UpdatePhotographer(old(photographers), row.photographerId, (p: P.Photographer) => PreapprovalPhotographer(pa, p)) == photographers;
      } else if n.kind == "payment" {
        var fetched := paymentOf(id);
        if fetched.None? {
          return;
        }
        var pay := fetched.value;
        if pay.payerId.None? {
          return;
        }
        var found := Single(subscriptions, (s: Subscription) => s.payerId == pay.payerId && s.status == Active);
        if found.None? {
          return;
        }
        var i := found.value;
        var s := subscriptions[i];
        var approved := pay.status == "approved";
        payments := payments + [SubscriptionPayment(
          subscription := i,
          photographerId := s.photographerId,
          planId := s.planId,
          paymentId := id,
          amountCents := pay.amountCents,
          currency := pay.currency,
          status := if approved then Approved else Rejected,
          periodStart := s.periodStart,
          periodEnd := s.periodEnd,
          paidAt := if approved then Some(TimeValue(now)) else None,
          paymentMethod := pay.paymentMethod)];
        if approved {
          var nextEnd := TimeValue(AddOneMonth(now));
          subscriptions := subscriptions[i := s.(periodStart := TimeValue(now), periodEnd := nextEnd)];
          photographers := UpdatePhotographer(photographers, s.photographerId,
            (p: P.Photographer) => p.(subscriptionStatus := P.Active, subscriptionExpiresAt := Some(nextEnd)));
        } else if pay.status == "rejected" {
          photographers := UpdatePhotographer(photographers, s.photographerId,
            (p: P.Photographer) => p.(subscriptionStatus := P.PastDue));
        }
      }
    }
  }
}
