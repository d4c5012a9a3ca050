/**
  The account limit over whole runs of a workspace. The limit is checked when an account is switched on or created;
  other handlers can raise the number of collected accounts without looking at it.
 */
module AccountLimits {
  import opened Wrappers
  import opened Collections
  import opened AccountState
  import opened CloudAccounts
  import opened AccountService

  /** What happens in a workspace whose tier and threshold do not change. The count that a handler holds against the
      limit is read before its update commits, so it is part of the handling and need not be up to date. */
  datatype Handling =
    | Create(id: AccountId, cloud: Cloud, access: Option<CloudAccess>, onHold: bool, counted: nat)  // of a new account
    | Switch(id: AccountId, enabled: bool, onHold: bool, counted: nat)
    | Handle(id: AccountId, action: Action)  // any other handler of a stored account

  /** Nothing but the checked switch turns an account on. */
  predicate Possible(accounts: Accounts, h: Handling) {
    match h
    case Create(id, cloud, access, _, _) => id !in accounts && (access.Some? ==> access.value.Cloud() == cloud)
    case Switch(_, _, _, _) => true
    case Handle(id, action) => id in accounts && action != SetEnabled(true)
  }

  /** `_should_be_enabled`: below the limit, counting every account that is not deleted, and no payment on hold. */
  predicate ShouldBeEnabled(counted: nat, tier: Tier, onHold: bool) {
    BelowLimit(counted, tier) && !onHold
  }

  predicate BelowLimit(counted: nat, tier: Tier) {
    tier.Limit().None? || counted < tier.Limit().value
  }

  function Present(accounts: Accounts): set<AccountId> {
    set id | id in accounts && !accounts[id].state.Deleted?
  }

  function Created(h: Handling, enabled: bool, now: int): Account
    requires h.Create?
  {
    match h.access
    case None => NewAccount(h.cloud, Detected, now)
    case Some(AwsCloudAccess(externalId, role)) => CreatedAws(None, Some(role), externalId, enabled, now)
    case Some(access) => CreatedConfigured(None, access, enabled, now)
  }

  /** A new account with access is enabled if and only if the accounts counted before leave a slot and no payment is on
      hold; one without access is only known of. */
  lemma CreatedEnabledExactly(h: Handling, tier: Tier, now: int)
    requires h.Create? && (h.access.Some? ==> h.access.value.Cloud() == h.cloud)
    ensures var a := Created(h, ShouldBeEnabled(h.counted, tier, h.onHold), now);
            && a.cloud == h.cloud && a.state.Access() == h.access
            && (h.access.Some? ==>
                  (a.state.enabled <==>
                     !h.onHold && (tier.accountLimit == None || tier.accountLimit == Some(0)
                                   || h.counted < tier.accountLimit.value)))
  {
  }

  function Handled(accounts: Accounts, h: Handling, tier: Tier, threshold: Threshold, now: int): Accounts
    requires Possible(accounts, h)
  {
    match h
    case Create(id, _, _, onHold, counted) => accounts[id := Created(h, ShouldBeEnabled(counted, tier, onHold), now)]
    case Switch(id, enabled, onHold, counted) =>
      OrUnchanged(EnabledByCount(accounts, id, enabled, tier, onHold, counted), accounts)
    case Handle(id, action) => accounts[id := Step(accounts[id], action, threshold, now)]
  }

  ghost predicate AllPossible(accounts: Accounts, hs: seq<(Handling, int)>, tier: Tier, threshold: Threshold)
    decreases |hs|, 0
  {
    hs == [] ||
    var (h, now) := hs[|hs| - 1];
    && AllPossible(accounts, hs[..|hs| - 1], tier, threshold)
    && Possible(RunOf(accounts, hs[..|hs| - 1], tier, threshold), h)
  }

  ghost function RunOf(accounts: Accounts, hs: seq<(Handling, int)>, tier: Tier, threshold: Threshold): Accounts
    requires AllPossible(accounts, hs, tier, threshold)
    decreases |hs|, 1
  {
    if hs == [] then accounts
    else
      var (h, now) := hs[|hs| - 1];
      Handled(RunOf(accounts, hs[..|hs| - 1], tier, threshold), h, tier, threshold, now)
  }

  // ----- one step

  /** The handlings after which one more account is collected. */
  predicate Raises(accounts: Accounts, h: Handling, tier: Tier, threshold: Threshold) {
    match h
    case Create(_, _, access, onHold, counted) =>
      access.Some? && !access.value.AwsCloudAccess? && ShouldBeEnabled(counted, tier, onHold)
    case Switch(id, enabled, onHold, counted) =>
      && id in accounts && accounts[id].state.Configured? && !accounts[id].state.enabled
      && enabled && BelowLimit(counted, tier) && !onHold
    case Handle(id, action) =>
      id in accounts && Confirms(accounts[id], action, threshold) && accounts[id].state.enabled
  }

  /** The count it goes by is not below what there is by now. */
  predicate GoesByTheCount(accounts: Accounts, h: Handling) {
    match h
    case Create(_, _, _, _, counted) => |Present(accounts)| <= counted
    case Switch(_, _, _, counted) => |Ready(accounts)| <= counted
    case Handle(_, _) => false
  }

  /** It raises the number of collected accounts with an outdated count, or without looking at any. */
  predicate RaisesUnguarded(accounts: Accounts, h: Handling, tier: Tier, threshold: Threshold) {
    Raises(accounts, h, tier, threshold) && !GoesByTheCount(accounts, h)
  }

  /** One handler of one account collects it from now on exactly when it confirms an enabled account. */
  lemma StepCollects(a: Account, action: Action, threshold: Threshold, now: int)
    requires action != SetEnabled(true)
    ensures var after := Step(a, action, threshold, now);
            !a.ReadyForCollection() && after.ReadyForCollection() <==> Confirms(a, action, threshold) && a.state.enabled
  {
  }

  /** Among all handlers the number of collected accounts rises, and then by one, exactly when an enabled GCP or Azure
      account is created, a configured one is switched on, or a configure step or a good scan of a degraded account
      confirms an account that is enabled. */
  lemma ReadyRisesExactly(accounts: Accounts, h: Handling, tier: Tier, threshold: Threshold, now: int)
    requires Possible(accounts, h)
    ensures var before, after := |Ready(accounts)|, |Ready(Handled(accounts, h, tier, threshold, now))|;
            && after <= before + 1
            && (after == before + 1 <==> Raises(accounts, h, tier, threshold))
  {
    match h
    case Create(id, _, _, onHold, counted) =>
      ReadyAfterChange(accounts, id, Created(h, ShouldBeEnabled(counted, tier, onHold), now));
    case Switch(id, enabled, onHold, counted) =>
      if EnabledByCount(accounts, id, enabled, tier, onHold, counted).Ok? {
        ReadyAfterChange(accounts, id, accounts[id].(state := accounts[id].state.(enabled := enabled)));
      }
    case Handle(id, action) =>
      StepCollects(accounts[id], action, threshold, now);
      ReadyAfterChange(accounts, id, Step(accounts[id], action, threshold, now));
  }

  /** With a count that is up to date the limit is kept: what raises the number starts below it. */
  lemma CheckedStaysWithin(accounts: Accounts, h: Handling, tier: Tier, threshold: Threshold)
    requires Possible(accounts, h) && tier.Limit().Some?
    requires Raises(accounts, h, tier, threshold) && GoesByTheCount(accounts, h)
    ensures |Ready(accounts)| < tier.Limit().value
  {
    SubsetSize(Ready(accounts), Present(accounts));
  }

  // ----- every run

  /** After the first `n` handlers no more accounts are collected than the bound says. */
  ghost predicate Within(accounts: Accounts, hs: seq<(Handling, int)>, tier: Tier, threshold: Threshold, bound: nat,
                         n: nat)
    requires n <= |hs|
  {
    AllPossible(accounts, hs[..n], tier, threshold) && |Ready(RunOf(accounts, hs[..n], tier, threshold))| <= bound
  }

  /** Handler `i` does not raise the number of collected accounts while it is at the bound. */
  ghost predicate Spares(accounts: Accounts, hs: seq<(Handling, int)>, tier: Tier, threshold: Threshold, bound: nat,
                         i: nat)
    requires i < |hs|
  {
    AllPossible(accounts, hs[..i], tier, threshold) &&
    var before := RunOf(accounts, hs[..i], tier, threshold);
    RaisesUnguarded(before, hs[i].0, tier, threshold) ==> |Ready(before)| < bound
  }

  /** Over every run, concurrent handlers with outdated counts included, the number of collected accounts stays within
      the limit, or within what it was before if that was more, if and only if no account is added while the number is
      there by a handler with an outdated count, a configure step or a good scan. */
  lemma {:induction false} LimitHoldsExactly(accounts: Accounts, hs: seq<(Handling, int)>, tier: Tier,
                                             threshold: Threshold, bound: nat)
    requires AllPossible(accounts, hs, tier, threshold) && tier.Limit().Some?
    requires bound == if |Ready(accounts)| > tier.Limit().value then |Ready(accounts)| else tier.Limit().value
    ensures (forall n: nat :: n <= |hs| ==> Within(accounts, hs, tier, threshold, bound, n))
       <==> (forall i: nat :: i < |hs| ==> Spares(accounts, hs, tier, threshold, bound, i))
  {
    if forall i: nat :: i < |hs| ==> Spares(accounts, hs, tier, threshold, bound, i) {
      forall n: nat | n <= |hs| ensures Within(accounts, hs, tier, threshold, bound, n) {
        StaysWithin(accounts, hs, tier, threshold, bound, n);
      }
    } else {
      var i: nat :| i < |hs| && !Spares(accounts, hs, tier, threshold, bound, i);
      PrefixPossible(accounts, hs, tier, threshold, i);
      PrefixPossible(accounts, hs, tier, threshold, i + 1);
      OneHandler(accounts, hs, tier, threshold, i);
      assert !Within(accounts, hs, tier, threshold, bound, i) || !Within(accounts, hs, tier, threshold, bound, i + 1);
    }
  }

  lemma {:induction false} StaysWithin(accounts: Accounts, hs: seq<(Handling, int)>, tier: Tier, threshold: Threshold,
                                       bound: nat, n: nat)
    requires AllPossible(accounts, hs, tier, threshold) && tier.Limit().Some? && n <= |hs|
    requires |Ready(accounts)| <= bound && tier.Limit().value <= bound
    requires forall i: nat :: i < |hs| ==> Spares(accounts, hs, tier, threshold, bound, i)
    ensures Within(accounts, hs, tier, threshold, bound, n)
  {
    PrefixPossible(accounts, hs, tier, threshold, n);
    if n == 0 {
      assert hs[..0] == [];
    } else {
      StaysWithin(accounts, hs, tier, threshold, bound, n - 1);
      assert Spares(accounts, hs, tier, threshold, bound, n - 1);
      OneHandler(accounts, hs, tier, threshold, n - 1);
    }
  }

  lemma {:induction false} PrefixPossible(accounts: Accounts, hs: seq<(Handling, int)>, tier: Tier,
                                          threshold: Threshold, n: nat)
    requires AllPossible(accounts, hs, tier, threshold) && n <= |hs|
    ensures AllPossible(accounts, hs[..n], tier, threshold)
    ensures n < |hs| ==> Possible(RunOf(accounts, hs[..n], tier, threshold), hs[n].0)
    decreases |hs|
  {
    if n == |hs| {
      assert hs[..n] == hs;
    } else {
      var front := hs[..|hs| - 1];
      PrefixPossible(accounts, front, tier, threshold, n);
      assert front[..n] == hs[..n];
    }
  }

  lemma {:induction false} OneHandler(accounts: Accounts, hs: seq<(Handling, int)>, tier: Tier, threshold: Threshold,
                                      i: nat)
    requires i < |hs| && tier.Limit().Some?
    requires AllPossible(accounts, hs[..i], tier, threshold) && AllPossible(accounts, hs[..i + 1], tier, threshold)
    ensures var before := RunOf(accounts, hs[..i], tier, threshold);
            var count, after := |Ready(before)|, |Ready(RunOf(accounts, hs[..i + 1], tier, threshold))|;
            && (RaisesUnguarded(before, hs[i].0, tier, threshold) ==> after == count + 1)
            && (!RaisesUnguarded(before, hs[i].0, tier, threshold) ==> after <= count || after <= tier.Limit().value)
  {
    assert hs[..i + 1][..i] == hs[..i];
    var before := RunOf(accounts, hs[..i], tier, threshold);
    var (h, now) := hs[i];
    ReadyRisesExactly(before, h, tier, threshold, now);
    if Raises(before, h, tier, threshold) && GoesByTheCount(before, h) {
      CheckedStaysWithin(before, h, tier, threshold);
    }
  }

  /** An instance: two switches that counted before either of them took effect share the last place. */
  lemma TwoSwitchesShareAPlace(a: Account, b: Account, tier: Tier, threshold: Threshold)
    requires a.state.Configured? && !a.state.enabled && b.state.Configured? && !b.state.enabled
    requires tier == Tier(false, Some(1))
    ensures var start: Accounts := map[1 := a, 2 := b];
            var one := Handled(start, Switch(1, true, false, |Ready(start)|), tier, threshold, 1);
            var two := Handled(one, Switch(2, true, false, |Ready(start)|), tier, threshold, 2);
            |Ready(start)| == 0 && |Ready(one)| == 1 && |Ready(two)| == 2
  {
    var start: Accounts := map[1 := a, 2 := b];
    assert Ready(start) == {};
    ReadyRisesExactly(start, Switch(1, true, false, 0), tier, threshold, 1);
    ReadyRisesExactly(Handled(start, Switch(1, true, false, 0), tier, threshold, 1), Switch(2, true, false, 0), tier,
                      threshold, 2);
  }
}
