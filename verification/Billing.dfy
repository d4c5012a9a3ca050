/**
  Billing entries: what a subscription is charged, how the charge timestamps move, and which subscriptions are due.
 */
module Billing {
  import opened Wrappers
  import opened Collections
  import opened Calendar

  datatype ProductTier = Trial | Free | Plus | Business | Enterprise {
    predicate Paid() { this != Free && this != Trial }

    function Rank(): nat {
      match this
      case Trial => 0
      case Free => 1
      case Plus => 2
      case Business => 3
      case Enterprise => 4
    }

    function AccountsIncluded(): nat {
      match this
      case Trial => 0
      case Free => 0
      case Plus => 3
      case Business => 10
      case Enterprise => 25
    }
  }

  // ----- the billing factor

  /** The band around a full period, 0.1667 of it to either side. */
  predicate IsFullPeriod(delta: int, period: int) {
    period * (10000 - 1667) < delta * 10000 < period * (10000 + 1667)
  }

  function BillingFactor(billingTime: DateTime, lastCharged: DateTime, period: int): real
    requires billingTime.Valid() && lastCharged.Valid() && period > 0
  {
    var delta := billingTime.Instant() - lastCharged.Instant();
    if IsFullPeriod(delta, period) then 1.0 else delta as real / period as real
  }

  /** A factor of one is charged exactly inside the band. */
  lemma FactorIsOneExactlyInTheBand(billingTime: DateTime, lastCharged: DateTime, period: int)
    requires billingTime.Valid() && lastCharged.Valid() && period > 0
    ensures BillingFactor(billingTime, lastCharged, period) == 1.0
       <==> IsFullPeriod(billingTime.Instant() - lastCharged.Instant(), period)
  {
    var delta := billingTime.Instant() - lastCharged.Instant();
    if delta as real / period as real == 1.0 {
      assert delta as real == 1.0 * period as real;
    }
  }

  /** Two consecutive monthly charges, the first `late` after a due time and still in its month, the second `late'`
      after the due time the first one set: one full period exactly when the month's length, corrected by the two
      delays, lies strictly between 24.999 and 35.001 days. */
  lemma ConsecutiveMonthlyCharges(due: DateTime, first: DateTime, second: DateTime)
    requires due.Valid() && due.day == 1 && due.clock == 9 * HOUR
    requires first.Valid() && due.Instant() <= first.Instant() < MonthStart(due.MonthIndex() + 1)
    requires second.Valid() && StartOfNextMonth(first, 9).Valid() &&
        StartOfNextMonth(first, 9).Instant() <= second.Instant()
    ensures BillingFactor(second, first, 30 * DAY) == 1.0
       <==> var late, late' := first.Instant() - due.Instant(), second.Instant() - StartOfNextMonth(first, 9).Instant();
            24999 * DAY < 1000 * (DaysInMonth(due.year, due.month) * DAY + late' - late) < 35001 * DAY
  {
    OnlyItsMonth(first, due.MonthIndex());
    NextMonth(first, 9);
    MonthOfIndex(due);
    FactorIsOneExactlyInTheBand(second, first, 30 * DAY);
  }

  /** On schedule means full: in every month of every year, delays of at most three days still give factor one. */
  lemma OnScheduleChargesAreFullPeriods(due: DateTime, first: DateTime, second: DateTime)
    requires due.Valid() && due.day == 1 && due.clock == 9 * HOUR
    requires first.Valid() && due.Instant() <= first.Instant() <= due.Instant() + 3 * DAY
    requires second.Valid() && StartOfNextMonth(first, 9).Valid()
    requires StartOfNextMonth(first, 9).Instant() <= second.Instant() <= StartOfNextMonth(first, 9).Instant() + 3 * DAY
    ensures BillingFactor(second, first, 30 * DAY) == 1.0
  {
    MonthOfIndex(due);
    ConsecutiveMonthlyCharges(due, first, second);
  }

  /** Three days is about all there is: a common February charged 3.001 days late and on time afterwards is prorated. */
  lemma LaterThanThatIsProrated(due: DateTime, first: DateTime, second: DateTime)
    requires due == DateTime(2023, 2, 1, 9 * HOUR) && second == DateTime(2023, 3, 1, 9 * HOUR)
    requires first == DateTime(2023, 2, 4, 9 * HOUR + DAY / 1000)
    ensures due.Valid() && first.Valid() && second == StartOfNextMonth(first, 9) && second.Valid()
    ensures first.Instant() - due.Instant() == 3 * DAY + DAY / 1000
    ensures BillingFactor(second, first, 30 * DAY) < 1.0
  {
    assert first.MonthIndex() == due.MonthIndex();
    NextMonth(first, 9);
    MonthOfIndex(first);
    var delta := second.Instant() - first.Instant();
    assert delta as real / (30 * DAY) as real < 1.0 by {
      assert delta < 30 * DAY;
    }
  }

  // ----- one charge

  datatype Subscription = Subscription(active: bool, lastCharge: Option<DateTime>, nextCharge: Option<DateTime>) {
    predicate Valid() {
      && (lastCharge.Some? ==> lastCharge.value.Valid())
      && (nextCharge.Some? ==> nextCharge.value.Valid())
    }

    /** The filter of the overdue job; a missing timestamp is never due. */
    predicate Due(now: DateTime)
      requires Valid() && now.Valid()
    {
      active && nextCharge.Some? && nextCharge.value.Instant() <= now.Instant()
    }
  }

  datatype BillingEntry = BillingEntry(workspace: nat, tier: ProductTier, accounts: int, start: DateTime, end: DateTime)

  /** An entry as it is stored, with the subscription it belongs to. */
  datatype Recorded = Recorded(subscription: nat, entry: BillingEntry)

  /** Tiers of the accounts a workspace collected between two timestamps. */
  type Metering = (nat, DateTime, DateTime) -> seq<ProductTier>

  function HighestTier(tiers: seq<ProductTier>): ProductTier {
    if tiers == [] then Free
    else if |tiers| == 1 then tiers[0]
    else
      var best := HighestTier(tiers[..|tiers| - 1]);
      if tiers[|tiers| - 1].Rank() > best.Rank() then tiers[|tiers| - 1] else best
  }

  function PeriodValue(period: BillingPeriod): int {
    if period.Month? then 30 * DAY else DAY
  }

  /** Python's `int`: truncation toward zero. */
  function Truncated(x: real): int {
    if x >= 0.0 then x.Floor else -((-x).Floor)
  }

  function Usage(tiers: seq<ProductTier>, factor: real): int {
    var charged := Truncated(|tiers| as real * factor);
    var included := HighestTier(tiers).AccountsIncluded();
    if charged >= included then charged else included
  }

  /** The highest tier is one of the recorded ones, or Free when there is none, and none of them outranks it. */
  lemma {:induction false} HighestTierIsTheMaximum(tiers: seq<ProductTier>)
    ensures HighestTier(tiers) in tiers || (tiers == [] && HighestTier(tiers) == Free)
    ensures forall t <- tiers :: t.Rank() <= HighestTier(tiers).Rank()
  {
    if |tiers| > 1 {
      HighestTierIsTheMaximum(tiers[..|tiers| - 1]);
    }
  }

  /** What is charged: the accounts of a full period, and never less than the tier includes, whatever the factor. */
  lemma {:induction false} UsageOfAPeriod(tiers: seq<ProductTier>, factor: real)
    ensures Usage(tiers, factor) >= HighestTier(tiers).AccountsIncluded()
    ensures factor == 1.0 && |tiers| >= HighestTier(tiers).AccountsIncluded() ==> Usage(tiers, factor) == |tiers|
    ensures HighestTier(tiers).Paid() ==> Usage(tiers, factor) > 0
    ensures factor <= 1.0 ==>
        Usage(tiers, factor) <= |tiers| || Usage(tiers, factor) == HighestTier(tiers).AccountsIncluded()
  {
    assert |tiers| as real * 1.0 == |tiers| as real;
    if factor <= 1.0 {
      PartOf(|tiers|, factor);
    }
  }

  lemma PartOf(n: nat, factor: real)
    requires factor <= 1.0
    ensures Truncated(n as real * factor) <= n
  {
    var x := n as real * factor;
    NoMoreThanWhole(n as real, factor);
    assert x <= n as real;
    if x < 0.0 {
      assert 0 <= (-x).Floor;
    }
  }

  lemma NoMoreThanWhole(x: real, factor: real)
    requires 0.0 <= x && factor <= 1.0
    ensures x * factor <= x
  {
  }

  datatype Outcome =
    | Untouched                  // inactive, or no workspace
    | NoUsage                    // only the timestamps move
    | Billed(entry: BillingEntry)

  function LastCharged(s: Subscription, now: DateTime): DateTime {
    if s.lastCharge.Some? then s.lastCharge.value else now
  }

  /** What a billing run does for a subscription: only its first workspace is looked at. */
  function Charge(s: Subscription, workspaces: seq<nat>, metering: Metering, period: BillingPeriod,
                  now: DateTime): Outcome
    requires s.Valid() && now.Valid()
  {
    if !s.active || workspaces == [] then Untouched
    else
      var last := LastCharged(s, now);
      var tiers := metering(workspaces[0], last, now);
      var tier := HighestTier(tiers);
      var usage := Usage(tiers, BillingFactor(now, last, PeriodValue(period)));
      if !tier.Paid() || usage == 0 then NoUsage
      else Billed(BillingEntry(workspaces[0], tier, usage, last, now))
  }

  // ----- what is charged, in accounts and microseconds

  /** The tiers recorded for the workspace that is looked at. */
  function RecordedTiers(s: Subscription, workspaces: seq<nat>, metering: Metering, now: DateTime): seq<ProductTier>
    requires workspaces != []
  {
    metering(workspaces[0], if s.lastCharge.Some? then s.lastCharge.value else now, now)
  }

  /** A subscription is billed if and only if it is active and some account of its first workspace was collected on a
      paid tier since the last charge; the entry is about that workspace and stretch of time, on the highest tier. */
  lemma {:induction false} BilledExactly(s: Subscription, workspaces: seq<nat>, metering: Metering,
                                         period: BillingPeriod, now: DateTime)
    requires s.Valid() && now.Valid()
    ensures var outcome := Charge(s, workspaces, metering, period, now);
            && (outcome.Untouched? <==> !s.active || workspaces == [])
            && (outcome.Billed? ==> workspaces != [])
            && (workspaces != [] ==>
                  var tiers := RecordedTiers(s, workspaces, metering, now);
                  && (outcome.Billed? <==> s.active && (Plus in tiers || Business in tiers || Enterprise in tiers))
                  && (outcome.Billed? ==>
                        var entry := outcome.entry;
                        && entry.workspace == workspaces[0] && entry.end == now
                        && entry.start == (if s.lastCharge.Some? then s.lastCharge.value else now)
                        && entry.tier == if Enterprise in tiers then Enterprise
                                         else if Business in tiers then Business else Plus))
  {
    if s.active && workspaces != [] {
      var tiers := RecordedTiers(s, workspaces, metering, now);
      HighestTierIsTheMaximum(tiers);
      UsageOfAPeriod(tiers, BillingFactor(now, LastCharged(s, now), PeriodValue(period)));
    }
  }

  /** How many accounts an entry bills. With `n` collected accounts and `elapsed` microseconds since the last charge:
      all of them when the time is within 0.1667 of a period of thirty days, or of one day; otherwise as many as the
      elapsed part of the period makes, rounded down. And never less than the tier includes. */
  lemma {:induction false} BilledAccountsExactly(s: Subscription, workspaces: seq<nat>, metering: Metering,
                                                 period: BillingPeriod, now: DateTime)
    requires s.Valid() && now.Valid() && Charge(s, workspaces, metering, period, now).Billed?
    ensures workspaces != []
    ensures var entry := Charge(s, workspaces, metering, period, now).entry;
            var n := |RecordedTiers(s, workspaces, metering, now)|;
            var included := if entry.tier == Enterprise then 25 else if entry.tier == Business then 10 else 3;
            var elapsed := if s.lastCharge.Some? then now.Instant() - s.lastCharge.value.Instant() else 0;
            var p := if period == Month then 2_592_000_000_000 else 86_400_000_000;
            entry.accounts == if 8333 * p < 10000 * elapsed < 11667 * p then Larger(n, included)
                              else if elapsed < 0 then included
                              else Larger(n * elapsed / p, included)
  {
    var tiers, last := RecordedTiers(s, workspaces, metering, now), LastCharged(s, now);
    var p := PeriodValue(period);
    UsageExactly(tiers, BillingFactor(now, last, p), now.Instant() - last.Instant(), p);
  }

  function Larger(x: int, y: int): int { if x >= y then x else y }

  lemma {:induction false} UsageExactly(tiers: seq<ProductTier>, factor: real, elapsed: int, p: int)
    requires 0 < p && factor == if IsFullPeriod(elapsed, p) then 1.0 else elapsed as real / p as real
    ensures var included := HighestTier(tiers).AccountsIncluded();
            Usage(tiers, factor) == if IsFullPeriod(elapsed, p) then Larger(|tiers|, included)
                                    else if elapsed < 0 then included
                                    else Larger(|tiers| * elapsed / p, included)
  {
    if IsFullPeriod(elapsed, p) {
      FullUsage(tiers);
    } else if elapsed < 0 {
      LeastUsage(tiers, elapsed, p);
    } else {
      ProratedUsage(tiers, elapsed, p);
    }
  }

  lemma {:induction false} FullUsage(tiers: seq<ProductTier>)
    ensures Usage(tiers, 1.0) == Larger(|tiers|, HighestTier(tiers).AccountsIncluded())
  {
    assert |tiers| as real * 1.0 == |tiers| as real;
    UsageOfPart(tiers, 1.0, |tiers|);
  }

  lemma {:induction false} LeastUsage(tiers: seq<ProductTier>, elapsed: int, p: int)
    requires 0 < p && elapsed < 0
    ensures Usage(tiers, elapsed as real / p as real) == HighestTier(tiers).AccountsIncluded()
  {
    BelowZero(|tiers|, elapsed, p);
  }

  lemma {:induction false} ProratedUsage(tiers: seq<ProductTier>, elapsed: int, p: int)
    requires 0 < p && 0 <= elapsed
    ensures Usage(tiers, elapsed as real / p as real)
         == Larger(|tiers| * elapsed / p, HighestTier(tiers).AccountsIncluded())
  {
    RoundedDown(|tiers|, elapsed, p, |tiers| * elapsed / p);
    UsageOfPart(tiers, elapsed as real / p as real, |tiers| * elapsed / p);
  }

  lemma {:induction false} UsageOfPart(tiers: seq<ProductTier>, factor: real, charged: int)
    requires charged == Truncated(|tiers| as real * factor)
    ensures Usage(tiers, factor) == Larger(charged, HighestTier(tiers).AccountsIncluded())
  {
  }

  lemma BelowZero(n: nat, elapsed: int, p: int)
    requires 0 < p && elapsed < 0
    ensures Truncated(n as real * (elapsed as real / p as real)) <= 0
  {
    var part := elapsed as real / p as real;
    assert part < 0.0;
    NoMoreThanWhole(n as real, part);
    assert n as real * part <= 0.0 by {
      assert 0.0 * part == 0.0;
    }
  }

  lemma {:induction false} RoundedDown(n: nat, elapsed: int, p: int, k: int)
    requires 0 < p && 0 <= elapsed && k * p <= n * elapsed < (k + 1) * p
    ensures Truncated(n as real * (elapsed as real / p as real)) == k
  {
    PartScaled(n, elapsed, p);
    TruncatedQuotient(n as real * (elapsed as real / p as real), n * elapsed, p, k);
  }

  lemma {:induction false} TruncatedQuotient(x: real, m: int, p: int, k: int)
    requires 0 < p && x * p as real == m as real && 0 <= m && k * p <= m < (k + 1) * p
    ensures Truncated(x) == k
  {
    var rest := m - k * p;
    assert (k + 1) * p == k * p + p;
    WholeScaled(k, p);
    Quotient(x, k as real, rest as real, p as real);
  }

  lemma Quotient(x: real, k: real, rest: real, p: real)
    requires 0.0 <= rest < p && x * p == k * p + rest && 0.0 <= k * p + rest
    ensures 0.0 <= x && k <= x < k + 1.0
  {
    assert (k + 1.0) * p == k * p + p;
    AtLeast(x, k, p);
    AtLeast(x, k + 1.0, p);
    AtLeast(x, 0.0, p);
  }

  lemma PartScaled(n: nat, elapsed: int, p: int)
    requires 0 < p
    ensures n as real * (elapsed as real / p as real) * p as real == (n * elapsed) as real
  {
    var part := elapsed as real / p as real;
    assert part * p as real == elapsed as real;
    assert n as real * part * p as real == n as real * (part * p as real);
    assert n as real * elapsed as real == (n * elapsed) as real;
  }

  lemma WholeScaled(k: int, p: int)
    ensures (k * p) as real == k as real * p as real
  {
  }

  lemma AtLeast(x: real, y: real, p: real)
    requires 0.0 < p
    ensures x >= y <==> x * p >= y * p
  {
  }

  function BilledWorkspaces(outcome: Outcome): set<nat> {
    if outcome.Billed? then {outcome.entry.workspace} else {}
  }

  /** The workspaces that would be billed if each were looked at on its own. */
  function Billable(s: Subscription, workspaces: seq<nat>, metering: Metering, period: BillingPeriod,
                    now: DateTime): set<nat>
    requires s.Valid() && now.Valid()
  {
    set w | w in workspaces && Charge(s, [w], metering, period, now).Billed?
  }

  /** Looking at the first workspace only bills all it should if and only if no other workspace has anything to bill. */
  lemma FirstWorkspaceSufficesExactly(s: Subscription, workspaces: seq<nat>, metering: Metering, period: BillingPeriod,
                                      now: DateTime)
    requires s.Valid() && now.Valid()
    ensures BilledWorkspaces(Charge(s, workspaces, metering, period, now))
         == Billable(s, workspaces, metering, period, now)
       <==> forall i :: 1 <= i < |workspaces| ==>
              workspaces[i] == workspaces[0] || !Charge(s, [workspaces[i]], metering, period, now).Billed?
  {
    var billed := Charge(s, workspaces, metering, period, now);
    var billable := Billable(s, workspaces, metering, period, now);
    if workspaces != [] {
      FirstDecides(s, workspaces, metering, period, now);
      forall i | 0 <= i < |workspaces|
        ensures workspaces[i] in billable <==> Charge(s, [workspaces[i]], metering, period, now).Billed?
      {}
      if w :| w in billable && w != workspaces[0] {
        var i :| 0 <= i < |workspaces| && workspaces[i] == w;
        assert w !in BilledWorkspaces(billed);
      }
    }
  }

  lemma FirstDecides(s: Subscription, workspaces: seq<nat>, metering: Metering, period: BillingPeriod, now: DateTime)
    requires s.Valid() && now.Valid() && workspaces != []
    ensures Charge(s, workspaces, metering, period, now) == Charge(s, [workspaces[0]], metering, period, now)
    ensures BilledWorkspaces(Charge(s, workspaces, metering, period, now)) <= {workspaces[0]}
  {
  }

  /** An instance: of two workspaces with a paid account each one is billed, and the usage of the other is passed over,
      because the charge timestamp moves all the same. */
  lemma SecondWorkspaceIsPassedOver(s: Subscription, v: nat, w: nat, period: BillingPeriod, now: DateTime)
    requires s.Valid() && now.Valid() && s.active && v != w
    ensures var metering: Metering := (_, _, _) => [Plus];
            var outcome := Charge(s, [v, w], metering, period, now);
            && BilledWorkspaces(outcome) == {v}
            && Billable(s, [v, w], metering, period, now) == {v, w}
            && Charged(s, outcome, period, now).lastCharge == Some(now)
  {
    var metering: Metering := (_, _, _) => [Plus];
    assert HighestTier([Plus]) == Plus;
    assert Charge(s, [v], metering, period, now).Billed? && Charge(s, [w], metering, period, now).Billed?;
  }

  function Charged(s: Subscription, outcome: Outcome, period: BillingPeriod, now: DateTime): Subscription {
    if outcome.Untouched? then s
    else s.(lastCharge := Some(now), nextCharge := Some(StartOfNextPeriod(period, now, 9)))
  }

  /** What a billing service is set up with, and what its charges come to. */
  datatype Setup = Setup(period: BillingPeriod, metering: Metering, workspaces: map<nat, seq<nat>>) {
    function WorkspacesOf(id: nat): seq<nat> {
      if id in workspaces then workspaces[id] else []
    }

    function OutcomeFor(id: nat, s: Subscription, now: DateTime): Outcome
      requires s.Valid() && now.Valid()
    {
      Charge(s, WorkspacesOf(id), metering, period, now)
    }

    /** The subscriptions after some of them were charged, each at its time in `at`. */
    function AfterJob(subs: map<nat, Subscription>, at: map<nat, DateTime>, ids: set<nat>): map<nat, Subscription>
      requires AllTimed(subs, at)
    {
      map id | id in subs ::
        if id in ids then Charged(subs[id], OutcomeFor(id, subs[id], at[id]), period, at[id]) else subs[id]
    }

    /** The same, charging them one after the other in this order. */
    function AfterOrder(subs: map<nat, Subscription>, at: map<nat, DateTime>,
                        order: seq<nat>): (after: map<nat, Subscription>)
      requires AllTimed(subs, at) && Elements(order) <= subs.Keys
    {
      if order == [] then subs
      else
        var front, last := order[..|order| - 1], order[|order| - 1];
        assert last in Elements(order) && Elements(front) <= Elements(order);
        var charged := Charged(subs[last], OutcomeFor(last, subs[last], at[last]), period, at[last]);
        AfterOrder(subs, at, front)[last := charged]
    }

    function BilledOf(subs: map<nat, Subscription>, at: map<nat, DateTime>, ids: set<nat>): set<nat>
      requires AllTimed(subs, at)
    {
      set id | id in ids && id in subs && OutcomeFor(id, subs[id], at[id]).Billed?
    }

    /** The entries of charging them in this order. */
    function EntriesFor(subs: map<nat, Subscription>, at: map<nat, DateTime>, order: seq<nat>): seq<Recorded>
      requires AllTimed(subs, at) && Elements(order) <= subs.Keys
    {
      if order == [] then []
      else
        var front, last := order[..|order| - 1], order[|order| - 1];
        assert last in Elements(order) && Elements(front) <= Elements(order);
        var outcome := OutcomeFor(last, subs[last], at[last]);
        EntriesFor(subs, at, front) + if outcome.Billed? then [Recorded(last, outcome.entry)] else []
    }
  }

  class BillingService {
    const period: BillingPeriod
    const metering: Metering
    const workspaces: map<nat, seq<nat>>
    var subscriptions: map<nat, Subscription>
    var entries: seq<Recorded>

    ghost predicate Valid()
      reads this
    {
      forall id <- subscriptions :: subscriptions[id].Valid()
    }

    constructor (period: BillingPeriod, metering: Metering, workspaces: map<nat, seq<nat>>,
                 subscriptions: map<nat, Subscription>)
      requires forall id <- subscriptions :: subscriptions[id].Valid()
      ensures Valid() && this.period == period && this.metering == metering && this.workspaces == workspaces
      ensures this.subscriptions == subscriptions && entries == []
    {
      this.period, this.metering, this.workspaces, this.subscriptions := period, metering, workspaces, subscriptions;
      entries := [];
    }

    function View(): Setup { Setup(period, metering, workspaces) }

    method UpdateChargeTimestamp(id: nat, now: DateTime, next: DateTime)
      requires Valid() && now.Valid() && next.Valid()
      modifies this`subscriptions
      ensures Valid() && subscriptions.Keys == old(subscriptions).Keys
      ensures forall k <- subscriptions ::
                subscriptions[k] == if k == id
                                    then old(subscriptions)[k].(lastCharge := Some(now), nextCharge := Some(next))
                                    else old(subscriptions)[k]
    {
      if id in subscriptions {
        subscriptions := subscriptions[id := subscriptions[id].(lastCharge := Some(now), nextCharge := Some(next))];
      }
    }

    /** `create_billing_entry` for the stored subscription `id`. */
    method CreateBillingEntry(id: nat, now: DateTime) returns (created: Option<BillingEntry>)
      requires Valid() && now.Valid() && id in subscriptions
      modifies this
      ensures Valid() && subscriptions.Keys == old(subscriptions).Keys
      ensures var outcome := View().OutcomeFor(id, old(subscriptions)[id], now);
              && subscriptions == old(subscriptions)[id := Charged(old(subscriptions)[id], outcome, period, now)]
              && (if outcome.Billed?
                  then created == Some(outcome.entry) && entries == old(entries) + [Recorded(id, outcome.entry)]
                  else created == None && entries == old(entries))
    {
      var subscription := subscriptions[id];
      if !subscription.active {
        return None;
      }
      var next := StartOfNextPeriod(period, now, 9);
      NextPeriodIsLater(period, now, 9);
      var last := if subscription.lastCharge.Some? then subscription.lastCharge.value else now;
      var factor := BillingFactor(now, last, PeriodValue(period));
      var all := View().WorkspacesOf(id);
      for i := 0 to |all|
        invariant i == 0 && Valid() && subscriptions == old(subscriptions) && entries == old(entries)
      {
        var tiers := metering(all[i], last, now);
        var tier := HighestTier(tiers);
        var usage := Usage(tiers, factor);
        if !tier.Paid() || usage == 0 {
          UpdateChargeTimestamp(id, now, next);
          return None;
        }
        var entry := BillingEntry(all[i], tier, usage, last, now);
        entries := entries + [Recorded(id, entry)];
        UpdateChargeTimestamp(id, now, next);
        return Some(entry);
      }
      return None;
    }

    /** The task of one subscription, after those of `order`. */
    method ChargeNext(id: nat, at: map<nat, DateTime>, ghost subs: map<nat, Subscription>, ghost order: seq<nat>,
                      ghost before: seq<Recorded>)
      returns (created: Option<BillingEntry>)
      requires Valid() && AllTimed(subs, at) && Elements(order) <= subs.Keys && id in subs && id !in Elements(order)
      requires subscriptions == View().AfterOrder(subs, at, order)
      requires entries == before + View().EntriesFor(subs, at, order)
      modifies this
      ensures Valid() && Elements(order + [id]) == Elements(order) + {id}
      ensures subscriptions == View().AfterOrder(subs, at, order + [id])
      ensures entries == before + View().EntriesFor(subs, at, order + [id])
      ensures |View().EntriesFor(subs, at, order + [id])|
           == |View().EntriesFor(subs, at, order)| + if created.Some? then 1 else 0
    {
      OneMoreCharge(View(), subs, at, order, id);
      created := CreateBillingEntry(id, at[id]);
    }

    /** All tasks of `ids`, in some order. */
    method ChargeAll(ids: set<nat>, at: map<nat, DateTime>) returns (counter: nat, ghost order: seq<nat>)
      requires Valid() && AllTimed(subscriptions, at) && ids <= subscriptions.Keys
      modifies this
      ensures Valid() && Distinct(order) && Elements(order) == ids
      ensures subscriptions == View().AfterOrder(old(subscriptions), at, order)
      ensures entries == old(entries) + View().EntriesFor(old(subscriptions), at, order)
      ensures counter == |View().EntriesFor(old(subscriptions), at, order)|
    {
      counter, order := 0, [];
      var remaining := ids;
      while remaining != {}
        invariant remaining <= ids && Elements(order) == ids - remaining && Distinct(order)
        invariant Valid() && subscriptions == View().AfterOrder(old(subscriptions), at, order)
        invariant entries == old(entries) + View().EntriesFor(old(subscriptions), at, order)
        invariant counter == |View().EntriesFor(old(subscriptions), at, order)|
        decreases remaining
      {
        var id :| id in remaining;
        ElementsOfAppend(order, id);
        var created := ChargeNext(id, at, old(subscriptions), order, old(entries));
        if created.Some? {
          counter := counter + 1;
        }
        remaining, order := remaining - {id}, order + [id];
      }
    }

    /** The overdue job: every due subscription is charged once, at the time `at` its task runs, in some order, and the
        counter says how many of them got an entry. */
    method CreateOverdueBillingEntries(now: DateTime, at: map<nat, DateTime>)
      returns (counter: nat, ghost order: seq<nat>)
      requires Valid() && now.Valid() && AllTimed(subscriptions, at)
      modifies this
      ensures Valid() && Distinct(order) && Elements(order) == DueIds(old(subscriptions), now)
      ensures forall id <- old(subscriptions) ::
                var s := old(subscriptions)[id];
                id in order <==> s.active && s.nextCharge.Some? && s.nextCharge.value.Instant() <= now.Instant()
      ensures subscriptions == View().AfterJob(old(subscriptions), at, DueIds(old(subscriptions), now))
      ensures entries == old(entries) + View().EntriesFor(old(subscriptions), at, order)
      ensures counter == |View().BilledOf(old(subscriptions), at, DueIds(old(subscriptions), now))|
    {
      counter, order := ChargeAll(DueIds(subscriptions, now), at);
      OneEntryEach(View(), old(subscriptions), at, order);
      OrderIsJob(View(), old(subscriptions), at, order);
    }
  }

  predicate AllTimed(subs: map<nat, Subscription>, at: map<nat, DateTime>) {
    forall id <- subs :: subs[id].Valid() && id in at && at[id].Valid()
  }

  function DueIds(subs: map<nat, Subscription>, now: DateTime): set<nat>
    requires now.Valid() && forall id <- subs :: subs[id].Valid()
  {
    set id | id in subs && subs[id].Due(now)
  }

  /** There are as many entries as billed subscriptions. */
  lemma {:induction false} OneEntryEach(setup: Setup, subs: map<nat, Subscription>, at: map<nat, DateTime>,
                                        order: seq<nat>)
    requires AllTimed(subs, at) && Elements(order) <= subs.Keys && Distinct(order)
    ensures |setup.EntriesFor(subs, at, order)| == |setup.BilledOf(subs, at, Elements(order))|
  {
    if order == [] {
      assert setup.BilledOf(subs, at, Elements(order)) == {};
    } else {
      var front, last := order[..|order| - 1], order[|order| - 1];
      assert order == front + [last];
      ElementsOfAppend(front, last);
      assert last in Elements(order) && last !in Elements(front);
      OneEntryEach(setup, subs, at, front);
      BilledOneMore(setup, subs, at, Elements(front), last);
    }
  }

  lemma BilledOneMore(setup: Setup, subs: map<nat, Subscription>, at: map<nat, DateTime>, ids: set<nat>, id: nat)
    requires AllTimed(subs, at) && id in subs && id !in ids
    ensures |setup.BilledOf(subs, at, ids + {id})|
         == |setup.BilledOf(subs, at, ids)| + if setup.OutcomeFor(id, subs[id], at[id]).Billed? then 1 else 0
  {
    var billed := setup.OutcomeFor(id, subs[id], at[id]).Billed?;
    assert setup.BilledOf(subs, at, ids + {id}) == setup.BilledOf(subs, at, ids) + if billed then {id} else {};
  }

  lemma {:induction false} OneMoreCharge(setup: Setup, subs: map<nat, Subscription>, at: map<nat, DateTime>,
                                         order: seq<nat>, id: nat)
    requires AllTimed(subs, at) && Elements(order) <= subs.Keys && id in subs && id !in Elements(order)
    ensures Elements(order + [id]) == Elements(order) + {id}
    ensures var outcome := setup.OutcomeFor(id, subs[id], at[id]);
            && setup.EntriesFor(subs, at, order + [id])
               == setup.EntriesFor(subs, at, order) + (if outcome.Billed? then [Recorded(id, outcome.entry)] else [])
            && setup.AfterOrder(subs, at, order + [id])
               == setup.AfterOrder(subs, at, order)[id := Charged(subs[id], outcome, setup.period, at[id])]
    ensures id in setup.AfterOrder(subs, at, order) && setup.AfterOrder(subs, at, order)[id] == subs[id]
  {
    assert (order + [id])[..|order|] == order;
    NotYetCharged(setup, subs, at, order, id);
  }

  lemma {:induction false} NotYetCharged(setup: Setup, subs: map<nat, Subscription>, at: map<nat, DateTime>,
                                         order: seq<nat>,
                                     id: nat)
    requires AllTimed(subs, at) && Elements(order) <= subs.Keys && id in subs && id !in Elements(order)
    ensures id in setup.AfterOrder(subs, at, order) && setup.AfterOrder(subs, at, order)[id] == subs[id]
  {
    if order != [] {
      var front, last := order[..|order| - 1], order[|order| - 1];
      assert last in Elements(order) && Elements(front) <= Elements(order);
      NotYetCharged(setup, subs, at, front, id);
    }
  }

  /** Charging one after the other charges each on its own. */
  lemma {:induction false} OrderIsJob(setup: Setup, subs: map<nat, Subscription>, at: map<nat, DateTime>,
                                      order: seq<nat>)
    requires AllTimed(subs, at) && Elements(order) <= subs.Keys
    ensures setup.AfterOrder(subs, at, order) == setup.AfterJob(subs, at, Elements(order))
  {
    if order == [] {
      assert setup.AfterJob(subs, at, {}) == subs && Elements(order) == {};
    } else {
      var front, last := order[..|order| - 1], order[|order| - 1];
      assert order == front + [last];
      ElementsOfAppend(front, last);
      assert last in Elements(order);
      OrderIsJob(setup, subs, at, front);
      OneMoreInJob(setup, subs, at, Elements(front), last);
    }
  }

  lemma {:induction false} OneMoreInJob(setup: Setup, subs: map<nat, Subscription>, at: map<nat, DateTime>,
                                        ids: set<nat>, id: nat)
    requires AllTimed(subs, at) && id in subs
    ensures setup.AfterJob(subs, at, ids + {id})
         == setup.AfterJob(subs, at, ids)
              [id := Charged(subs[id], setup.OutcomeFor(id, subs[id], at[id]), setup.period, at[id])]
  {
  }

  /** After a charge at `now` a subscription is due again exactly from the start of the next period on; one without a
      workspace is not moved and stays as due as it was. */
  lemma DueAgainNextPeriod(s: Subscription, workspaces: seq<nat>, metering: Metering, period: BillingPeriod,
                           now: DateTime, later: DateTime)
    requires s.Valid() && now.Valid() && later.Valid() && s.active
    ensures var s' := Charged(s, Charge(s, workspaces, metering, period, now), period, now);
            && s'.Valid()
            && (workspaces == [] ==> s' == s)
            && (workspaces != [] ==>
                  && !s'.Due(now)
                  && (s'.Due(later) <==> StartOfNextPeriod(period, now, 9).Valid()
                                         && StartOfNextPeriod(period, now, 9).Instant() <= later.Instant()))
  {
    NextPeriodIsLater(period, now, 9);
  }

  // ----- runs: one subscription, charged again and again

  datatype Call = Call(now: DateTime, workspaces: seq<nat>)

  /** A stretch of time the charge timestamp moved over, with the entry that bills it, if any. */
  datatype Span = Span(start: DateTime, end: DateTime, entry: Option<BillingEntry>)

  ghost predicate Calls(s: Subscription, calls: seq<Call>) {
    && s.Valid()
    && (forall i :: 0 <= i < |calls| ==> calls[i].now.Valid())
    && (forall i, j :: 0 <= i < j < |calls| ==> calls[i].now.Instant() <= calls[j].now.Instant())
    && (calls != [] && s.lastCharge.Some? ==> s.lastCharge.value.Instant() <= calls[0].now.Instant())
  }

  lemma FrontCalls(s: Subscription, calls: seq<Call>)
    requires Calls(s, calls) && calls != []
    ensures Calls(s, calls[..|calls| - 1])
  {
  }

  function Next(s: Subscription, call: Call, metering: Metering, period: BillingPeriod): (r: Subscription)
    requires s.Valid() && call.now.Valid()
    ensures r.Valid()
  {
    NextPeriodIsLater(period, call.now, 9);
    Charged(s, Charge(s, call.workspaces, metering, period, call.now), period, call.now)
  }

  function SpanOf(s: Subscription, call: Call, metering: Metering, period: BillingPeriod): seq<Span>
    requires s.Valid() && call.now.Valid()
  {
    match Charge(s, call.workspaces, metering, period, call.now)
    case Untouched => []
    case NoUsage => [Span(LastCharged(s, call.now), call.now, None)]
    case Billed(entry) => [Span(LastCharged(s, call.now), call.now, Some(entry))]
  }

  ghost function After(s: Subscription, calls: seq<Call>, metering: Metering, period: BillingPeriod): (r: Subscription)
    requires Calls(s, calls)
    ensures r.Valid()
  {
    if calls == [] then s
    else
      FrontCalls(s, calls);
      Next(After(s, calls[..|calls| - 1], metering, period), calls[|calls| - 1], metering, period)
  }

  ghost function Spans(s: Subscription, calls: seq<Call>, metering: Metering, period: BillingPeriod): seq<Span>
    requires Calls(s, calls)
  {
    if calls == [] then []
    else
      FrontCalls(s, calls);
      var front := calls[..|calls| - 1];
      Spans(s, front, metering, period) + SpanOf(After(s, front, metering, period), calls[|calls| - 1], metering,
          period)
  }

  function TotalLength(spans: seq<Span>): int
    requires forall x <- spans :: x.start.Valid() && x.end.Valid()
  {
    if spans == [] then 0
    else
      var last := spans[|spans| - 1];
      TotalLength(spans[..|spans| - 1]) + last.end.Instant() - last.start.Instant()
  }

  ghost predicate Tiles(s: Subscription, spans: seq<Span>, s': Subscription) {
    && (forall x <- spans :: x.start.Valid() && x.end.Valid() && x.start.Instant() <= x.end.Instant())
    && (forall i :: 0 <= i < |spans| - 1 ==> spans[i].end == spans[i + 1].start)
    && (forall x <- spans :: x.entry.Some? ==> x.entry.value.start == x.start && x.entry.value.end == x.end)
    && (spans == [] ==> s' == s)
    && (spans != [] ==>
          && (s.lastCharge.Some? ==> spans[0].start == s.lastCharge.value)
          && s'.lastCharge == Some(spans[|spans| - 1].end)
          && s'.nextCharge.Some? && s'.nextCharge.value.Valid()
          && s'.lastCharge.value.Instant() < s'.nextCharge.value.Instant()
          && TotalLength(spans) == s'.lastCharge.value.Instant() - spans[0].start.Instant())
  }

  /** Over every run of billing calls at non-decreasing times, the billed entries and the unbilled skips tile the time
      the charge timestamp moved over, without gap or overlap, and the next charge stays after the last one. */
  lemma {:induction false} ChargesTile(s: Subscription, calls: seq<Call>, metering: Metering, period: BillingPeriod)
    requires Calls(s, calls)
    ensures Tiles(s, Spans(s, calls, metering, period), After(s, calls, metering, period))
    ensures calls != [] && After(s, calls, metering, period).lastCharge.Some? ==>
              After(s, calls, metering, period).lastCharge.value.Instant() <= calls[|calls| - 1].now.Instant()
  {
    if calls != [] {
      var front, call := calls[..|calls| - 1], calls[|calls| - 1];
      FrontCalls(s, calls);
      ChargesTile(s, front, metering, period);
      TileOneCall(s, Spans(s, front, metering, period), After(s, front, metering, period), call, metering, period);
    }
  }

  lemma TileOneCall(s: Subscription, spans: seq<Span>, s': Subscription, call: Call, metering: Metering,
                    period: BillingPeriod)
    requires Tiles(s, spans, s') && s'.Valid() && call.now.Valid()
    requires s'.lastCharge.Some? ==> s'.lastCharge.value.Instant() <= call.now.Instant()
    ensures Tiles(s, spans + SpanOf(s', call, metering, period), Next(s', call, metering, period))
  {
    var outcome := Charge(s', call.workspaces, metering, period, call.now);
    if outcome.Untouched? {
      assert spans + [] == spans;
    } else {
      var entry := if outcome.Billed? then Some(outcome.entry) else None;
      AppendSpan(s, spans, s', Span(LastCharged(s', call.now), call.now, entry), period);
    }
  }

  lemma AppendSpan(s: Subscription, spans: seq<Span>, s': Subscription, x: Span, period: BillingPeriod)
    requires Tiles(s, spans, s') && s'.Valid() && x.end.Valid()
    requires x.start == LastCharged(s', x.end) && x.start.Instant() <= x.end.Instant()
    requires x.entry.Some? ==> x.entry.value.start == x.start && x.entry.value.end == x.end
    ensures Tiles(s, spans + [x],
        s'.(lastCharge := Some(x.end), nextCharge := Some(StartOfNextPeriod(period, x.end, 9))))
  {
    NextPeriodIsLater(period, x.end, 9);
    assert (spans + [x])[..|spans|] == spans;
  }

  /** Entries of a run never overlap. */
  lemma {:induction false} EntriesDoNotOverlap(s: Subscription, spans: seq<Span>, s': Subscription, i: nat, j: nat)
    requires Tiles(s, spans, s') && i < j < |spans|
    ensures spans[i].end.Instant() <= spans[j].start.Instant()
    decreases j
  {
    assert spans[j - 1] in spans;
    if i < j - 1 {
      EntriesDoNotOverlap(s, spans, s', i, j - 1);
    }
  }

  // ----- runs of the service: one overdue job after the other

  /** An overdue job at `now`, whose tasks run at the times `at` and store their entries in this order. */
  datatype Job = Job(now: DateTime, at: map<nat, DateTime>, order: seq<nat>)

  /** What the contract of `CreateOverdueBillingEntries` says about a job. */
  ghost predicate IsJob(subs: map<nat, Subscription>, job: Job) {
    && job.now.Valid() && AllTimed(subs, job.at)
    && Distinct(job.order) && Elements(job.order) == DueIds(subs, job.now)
  }

  ghost predicate AllJobs(setup: Setup, subs: map<nat, Subscription>, jobs: seq<Job>)
    decreases |jobs|, 0
  {
    jobs == [] || (
      && AllJobs(setup, subs, jobs[..|jobs| - 1])
      && IsJob(SubsAfter(setup, subs, jobs[..|jobs| - 1]), jobs[|jobs| - 1]))
  }

  ghost function SubsAfter(setup: Setup, subs: map<nat, Subscription>, jobs: seq<Job>): (after: map<nat, Subscription>)
    requires AllJobs(setup, subs, jobs)
    ensures after.Keys == subs.Keys
    decreases |jobs|, 1
  {
    if jobs == [] then subs
    else
      var before, job := SubsAfter(setup, subs, jobs[..|jobs| - 1]), jobs[|jobs| - 1];
      setup.AfterJob(before, job.at, DueIds(before, job.now))
  }

  ghost function EntriesAfter(setup: Setup, subs: map<nat, Subscription>, jobs: seq<Job>): seq<Recorded>
    requires AllJobs(setup, subs, jobs)
  {
    if jobs == [] then []
    else
      var front, job := jobs[..|jobs| - 1], jobs[|jobs| - 1];
      EntriesAfter(setup, subs, front) + setup.EntriesFor(SubsAfter(setup, subs, front), job.at, job.order)
  }

  /** The calls a subscription gets: one from each job for which it is due. */
  ghost function CallsOf(setup: Setup, subs: map<nat, Subscription>, jobs: seq<Job>, id: nat): seq<Call>
    requires AllJobs(setup, subs, jobs) && id in subs
  {
    if jobs == [] then []
    else
      var front, job := jobs[..|jobs| - 1], jobs[|jobs| - 1];
      CallsOf(setup, subs, front, id) +
      if SubsAfter(setup, subs, front)[id].Due(job.now) then [Call(job.at[id], setup.WorkspacesOf(id))] else []
  }

  function OfSubscription(entries: seq<Recorded>, id: nat): seq<BillingEntry> {
    if entries == [] then []
    else
      var last := entries[|entries| - 1];
      OfSubscription(entries[..|entries| - 1], id) + if last.subscription == id then [last.entry] else []
  }

  function EntriesOf(spans: seq<Span>): seq<BillingEntry> {
    if spans == [] then []
    else
      var last := spans[|spans| - 1];
      EntriesOf(spans[..|spans| - 1]) + if last.entry.Some? then [last.entry.value] else []
  }

  lemma {:induction false} OfSubscriptionInParts(front: seq<Recorded>, back: seq<Recorded>, id: nat)
    ensures OfSubscription(front + back, id) == OfSubscription(front, id) + OfSubscription(back, id)
  {
    if back == [] {
      assert front + back == front;
    } else {
      assert (front + back)[..|front + back| - 1] == front + back[..|back| - 1];
      OfSubscriptionInParts(front, back[..|back| - 1], id);
    }
  }

  lemma {:induction false} OneMoreOutcome(entries: seq<Recorded>, last: nat, outcome: Outcome, id: nat)
    ensures OfSubscription(entries + (if outcome.Billed? then [Recorded(last, outcome.entry)] else []), id)
         == OfSubscription(entries, id) + if outcome.Billed? && last == id then [outcome.entry] else []
  {
    if outcome.Billed? {
      assert (entries + [Recorded(last, outcome.entry)])[..|entries|] == entries;
    } else {
      assert entries + [] == entries;
    }
  }

  /** A job stores at most one entry for a subscription: the one of its own charge. */
  lemma {:induction false} EntriesOfOne(setup: Setup, subs: map<nat, Subscription>, at: map<nat, DateTime>,
                                        order: seq<nat>, id: nat)
    requires AllTimed(subs, at) && Elements(order) <= subs.Keys && Distinct(order) && id in subs
    ensures var outcome := setup.OutcomeFor(id, subs[id], at[id]);
            OfSubscription(setup.EntriesFor(subs, at, order), id)
            == if id in Elements(order) && outcome.Billed? then [outcome.entry] else []
  {
    if order != [] {
      var front, last := order[..|order| - 1], order[|order| - 1];
      assert order == front + [last];
      ElementsOfAppend(front, last);
      assert last in Elements(order) && last !in Elements(front);
      EntriesOfOne(setup, subs, at, front, id);
      OneMoreOutcome(setup.EntriesFor(subs, at, front), last, setup.OutcomeFor(last, subs[last], at[last]), id);
    }
  }

  lemma EntriesOfAppend(spans: seq<Span>, more: seq<Span>)
    requires |more| <= 1
    ensures EntriesOf(spans + more) == EntriesOf(spans) + EntriesOf(more)
  {
    if more == [] {
      assert spans + more == spans;
    } else {
      assert (spans + more)[..|spans|] == spans && more[..0] == [];
    }
  }

  /** The service and the run of one subscription agree on what is stored for it. */
  ghost predicate StoresSpans(setup: Setup, s: Subscription, calls: seq<Call>, after: Subscription,
                              stored: seq<BillingEntry>)
    requires Calls(s, calls)
  {
    && after == After(s, calls, setup.metering, setup.period)
    && stored == EntriesOf(Spans(s, calls, setup.metering, setup.period))
  }

  /** What one job adds for the subscription `id`. */
  lemma {:induction false} OneMoreJob(setup: Setup, subs: map<nat, Subscription>, jobs: seq<Job>, id: nat)
    requires AllJobs(setup, subs, jobs) && id in subs && jobs != []
    ensures var front, job := jobs[..|jobs| - 1], jobs[|jobs| - 1];
            var s, stored := SubsAfter(setup, subs, front)[id], OfSubscription(EntriesAfter(setup, subs, front), id);
            && s.Valid() && job.now.Valid() && id in job.at && job.at[id].Valid()
            && var outcome := setup.OutcomeFor(id, s, job.at[id]);
               && SubsAfter(setup, subs, jobs)[id]
                  == (if s.Due(job.now) then Charged(s, outcome, setup.period, job.at[id]) else s)
               && OfSubscription(EntriesAfter(setup, subs, jobs), id)
                  == stored + if s.Due(job.now) && outcome.Billed? then [outcome.entry] else []
  {
    var front, job := jobs[..|jobs| - 1], jobs[|jobs| - 1];
    var before := SubsAfter(setup, subs, front);
    EntriesOfOne(setup, before, job.at, job.order, id);
    OfSubscriptionInParts(EntriesAfter(setup, subs, front), setup.EntriesFor(before, job.at, job.order), id);
  }

  lemma {:induction false} ServiceStoresSpans(setup: Setup, subs: map<nat, Subscription>, jobs: seq<Job>, id: nat)
    requires AllJobs(setup, subs, jobs) && id in subs && Calls(subs[id], CallsOf(setup, subs, jobs, id))
    ensures StoresSpans(setup, subs[id], CallsOf(setup, subs, jobs, id), SubsAfter(setup, subs, jobs)[id],
                        OfSubscription(EntriesAfter(setup, subs, jobs), id))
  {
    if jobs != [] {
      var front, job := jobs[..|jobs| - 1], jobs[|jobs| - 1];
      var calls, s := CallsOf(setup, subs, front, id), SubsAfter(setup, subs, front)[id];
      OneMoreJob(setup, subs, jobs, id);
      if s.Due(job.now) {
        var call := Call(job.at[id], setup.WorkspacesOf(id));
        assert CallsOf(setup, subs, jobs, id) == calls + [call];
        FirstCalls(subs[id], calls, call);
        ServiceStoresSpans(setup, subs, front, id);
        OneMoreCall(subs[id], calls, call, setup);
      } else {
        assert CallsOf(setup, subs, jobs, id) == calls;
        ServiceStoresSpans(setup, subs, front, id);
      }
    }
  }

  lemma FirstCalls(s: Subscription, calls: seq<Call>, call: Call)
    requires Calls(s, calls + [call])
    ensures Calls(s, calls) && call.now.Valid()
  {
    FrontCalls(s, calls + [call]);
    assert (calls + [call])[..|calls|] == calls;
    assert (calls + [call])[|calls|] == call;
  }

  /** What the service stores and what the tiling theorem speaks about are the same: over any sequence of overdue jobs,
      as long as the tasks of a subscription run at non-decreasing times, the entries stored for it are those of its
      spans, and these tile the time its charge timestamp moved over. */
  lemma {:induction false} ServiceRunsTile(setup: Setup, subs: map<nat, Subscription>, jobs: seq<Job>, id: nat)
    requires AllJobs(setup, subs, jobs) && id in subs && Calls(subs[id], CallsOf(setup, subs, jobs, id))
    ensures var spans := Spans(subs[id], CallsOf(setup, subs, jobs, id), setup.metering, setup.period);
            && OfSubscription(EntriesAfter(setup, subs, jobs), id) == EntriesOf(spans)
            && Tiles(subs[id], spans, SubsAfter(setup, subs, jobs)[id])
  {
    ServiceStoresSpans(setup, subs, jobs, id);
    ChargesTile(subs[id], CallsOf(setup, subs, jobs, id), setup.metering, setup.period);
  }

  lemma {:induction false} OneMoreCall(s: Subscription, calls: seq<Call>, call: Call, setup: Setup)
    requires Calls(s, calls) && Calls(s, calls + [call]) && call.now.Valid()
    ensures var before := After(s, calls, setup.metering, setup.period);
            var outcome := Charge(before, call.workspaces, setup.metering, setup.period, call.now);
            && After(s, calls + [call], setup.metering, setup.period)
               == Charged(before, outcome, setup.period, call.now)
            && EntriesOf(Spans(s, calls + [call], setup.metering, setup.period))
               == EntriesOf(Spans(s, calls, setup.metering, setup.period))
                  + if outcome.Billed? then [outcome.entry] else []
  {
    assert (calls + [call])[..|calls|] == calls;
    var before := After(s, calls, setup.metering, setup.period);
    var more := SpanOf(before, call, setup.metering, setup.period);
    EntriesOfAppend(Spans(s, calls, setup.metering, setup.period), more);
    assert more != [] ==> more[..0] == [];
  }
}
