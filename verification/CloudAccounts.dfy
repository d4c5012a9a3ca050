/**
  The life of one cloud account: what each handler does to it, and what holds over every run of handlers.
 */
module CloudAccounts {
  import opened Wrappers
  import opened AccountState

  datatype Account = Account(
    cloud: Cloud,
    state: CloudAccountState,
    privileged: bool,
    stateUpdatedAt: int,
    createdAt: int,
    failedScanCount: nat,
    scannedResources: int,
    scanDuration: int,
    scanStartedAt: Option<int>,
    lastTaskId: Option<string>,
    resourceErrors: nat)
  {
    predicate ReadyForCollection() { state.Configured? && state.enabled }
  }

  /** What a collect event says about one account. */
  datatype ScanInfo = ScanInfo(scannedResources: int, durationSeconds: int, startedAt: int, taskId: Option<string>,
      errors: nat)

  // ----- the update functions

  /** Scans with no more resources than this count as failed. */
  type Threshold = int

  predicate BadScan(info: ScanInfo, failed: bool, threshold: Threshold) {
    failed || info.scannedResources <= threshold
  }

  function ScanRecorded(a: Account, info: ScanInfo, failed: bool, threshold: Threshold): Account {
    a.(scanDuration := info.durationSeconds, scannedResources := info.scannedResources,
        scanStartedAt := Some(info.startedAt),
       failedScanCount := if BadScan(info, failed, threshold) then a.failedScanCount + 1 else 0,
       lastTaskId := info.taskId, resourceErrors := info.errors)
  }

  function SetDegraded(a: Account, error: string, now: int): Account {
    var (enabled, scan) := match a.state
      case Discovered(_, e) => (e, false)
      case Configured(_, e, s) => (e, s)
      case Degraded(_, e, s, _) => (e, s)
      case _ => (false, false);
    match a.state.Access()
    case Some(access) => a.(state := Degraded(access, enabled, scan, error), stateUpdatedAt := now)
    case None => a
  }

  function SetConfigured(a: Account, now: int): Account {
    var (enabled, scan) := match a.state
      case Degraded(_, e, s, _) => (e, s)
      case _ => (false, false);
    match a.state.Access()
    case Some(access) => a.(state := Configured(access, enabled, scan), stateUpdatedAt := now)
    case None => a
  }

  function Degrade(a: Account, error: string, now: int): Account {
    if a.state.Degraded? then a else SetDegraded(a, error, now)
  }

  function Undegrade(a: Account, now: int): Account {
    if !a.state.Degraded? then a else SetConfigured(a, now)
  }

  const TOO_MANY_FAILED_SCANS := "Too many consecutive failed scans"

  /** The loop body for one account of a collect event; only a successful event can undegrade. */
  function Scanned(a: Account, info: ScanInfo, failed: bool, threshold: Threshold, now: int): Account {
    var updated := ScanRecorded(a, info, failed, threshold);
    var a' := if updated.failedScanCount > 3 then Degrade(updated, TOO_MANY_FAILED_SCANS, now) else updated;
    if !failed && updated.failedScanCount == 0 then Undegrade(a', now) else a'
  }

  function Deletion(a: Account, now: int): Account {
    a.(stateUpdatedAt := now, state := Deleted, scannedResources := 0, scanDuration := 0, scanStartedAt := None)
  }

  function NewAccount(cloud: Cloud, state: CloudAccountState, now: int): Account {
    Account(cloud, state, false, now, now, 0, 0, 0, None, None, 0)
  }

  /** `create_aws_account`; `enabled` is what `_should_be_enabled` said. */
  function CreatedAws(existing: Option<Account>, role: Option<string>, externalId: nat, enabled: bool,
                      now: int): Account
  {
    match existing
    case Some(a) =>
      var createdAt := if a.state == Deleted then now else a.createdAt;
      if role.None? || a.state.Access() == Some(AwsCloudAccess(externalId, role.value)) then a.(createdAt := createdAt)
      else a.(state := Discovered(AwsCloudAccess(externalId, role.value), enabled), stateUpdatedAt := now,
          createdAt := createdAt)
    case None =>
      NewAccount(AWS, if role.None? then Detected else Discovered(AwsCloudAccess(externalId, role.value), enabled), now)
  }

  /** `create_gcp_account` and `create_azure_account` leave an existing account alone, even a deleted one. */
  function CreatedConfigured(existing: Option<Account>, access: CloudAccess, enabled: bool, now: int): Account {
    match existing
    case Some(a) => a
    case None => NewAccount(access.Cloud(), Configured(access, enabled, enabled), now)
  }

  /** The last step of `configure_account`: the access was read at its start, the rest is read now. */
  function UpdatedToConfigured(a: Account, access: CloudAccess, privileged: bool, now: int): Option<Account> {
    if a.state.Discovered? then
      Some(a.(state := Configured(access, a.state.enabled, a.state.enabled), privileged := privileged,
          stateUpdatedAt := now))
    else None
  }

  const DISCOVERED_TOO_LONG := 30 * 60  // seconds
  const BECOME_DEGRADED_TIMEOUT := 15 * 60

  /** What the periodic pass does itself: it gives up on accounts that were discovered for too long, and earlier on
      those whose role cannot be assumed. An attempt that can assume the role ends in a step of its own. */
  function PassedOver(a: Account, canAssume: bool, now: int): Account {
    if !a.state.Discovered? then a
    else if now - a.stateUpdatedAt > DISCOVERED_TOO_LONG then
      Degrade(a, "Account in discovered state for too long", now)
    else if a.cloud == AWS && !canAssume && now - a.stateUpdatedAt > BECOME_DEGRADED_TIMEOUT then
      Degrade(a, "Cannot assume role", now)
    else a
  }

  function EnabledSet(a: Account, enabled: bool): Option<Account> {
    if a.state.Configured? || a.state.Degraded? then Some(a.(state := a.state.(enabled := enabled))) else None
  }

  function ScanSet(a: Account, scan: bool): Option<Account> {
    if a.state.Configured? || a.state.Degraded? then Some(a.(state := a.state.(scan := scan))) else None
  }

  /** `disable_cloud_account`; only a configured account can be. */
  function DisabledBoth(a: Account): Option<Account> {
    if a.state.Configured? then Some(a.(state := Configured(a.state.access, false, false))) else None
  }

  /** Disabling is switching off both flags, except that a degraded account can only be switched. */
  lemma DisablingIsBothSwitches(a: Account)
    ensures DisabledBoth(a).Some? ==>
              EnabledSet(a, false).Some? && DisabledBoth(a) == ScanSet(EnabledSet(a, false).value, false)
    ensures EnabledSet(a, false).Some? && DisabledBoth(a).None? <==> a.state.Degraded?
  {
  }

  /** The two switches fail for the same states, are independent of each other, and touch nothing but their flags. */
  lemma SwitchesAreIndependent(a: Account, enabled: bool, scan: bool)
    ensures var r := EnabledSet(a, enabled);
            && (r.Some? <==> ScanSet(a, scan).Some?)
            && (r.Some? <==> a.state.Configured? || a.state.Degraded?)
            && (r.Some? ==>
                  && ScanSet(r.value, scan) == EnabledSet(ScanSet(a, scan).value, enabled)
                  && ScanSet(r.value, scan).Some?
                  && var both := ScanSet(r.value, scan).value;
                     && both.state.enabled == enabled && both.state.scan == scan
                     && both.state.Access() == a.state.Access() && both.state.Degraded? == a.state.Degraded?
                     && both.(state := a.state) == a)
  {
  }

  // ----- degrading and undegrading

  /** Degrading and undegrading cancel out exactly for configured accounts and for those without access: a
      configured account comes back with its access and both flags, a discovered one comes back configured,
      a degraded one leaves its state. */
  lemma DegradeThenUndegrade(a: Account, error: string, t: int, t': int)
    ensures Undegrade(Degrade(a, error, t), t').state == a.state <==> a.state.Configured? || a.state.Access() == None
    ensures a.state.Discovered? ==>
        Undegrade(Degrade(a, error, t), t').state == Configured(a.state.access, a.state.enabled, false)
    ensures Degrade(a, error, t).state.Degraded? <==> a.state.Access() != None
  {
  }

  // ----- runs of one account

  datatype Action =
    | CreateAws(role: Option<string>, externalId: nat, enabled: bool)
    | CreateConfigured(access: CloudAccess, enabled: bool)
    | Pass(canAssume: bool)                                  // the periodic pass over the discovered accounts
    | Configure(access: CloudAccess, privileged: bool)       // the end of an attempt whose role could be assumed
    | DegradeAccount(error: string)                          // a deleted stack, say
    | Scan(info: ScanInfo, failed: bool)
    | SetEnabled(enabled: bool)
    | SetScan(scan: bool)
    | Disable                                                // without a look at the limit, and the scan flag goes too
    | Delete

  function OrSame(r: Option<Account>, a: Account): Account {
    match r
    case None => a
    case Some(a') => a'
  }

  /** One handler on a stored account; handlers that raise leave it as it is. */
  function Step(a: Account, action: Action, threshold: Threshold, now: int): Account {
    match action
    case CreateAws(role, externalId, enabled) => CreatedAws(Some(a), role, externalId, enabled, now)
    case CreateConfigured(access, enabled) => CreatedConfigured(Some(a), access, enabled, now)
    case Pass(canAssume) => PassedOver(a, canAssume, now)
    case Configure(access, privileged) => OrSame(UpdatedToConfigured(a, access, privileged, now), a)
    case DegradeAccount(error) => Degrade(a, error, now)
    case Scan(info, failed) => Scanned(a, info, failed, threshold, now)
    case SetEnabled(enabled) => OrSame(EnabledSet(a, enabled), a)
    case SetScan(scan) => OrSame(ScanSet(a, scan), a)
    case Disable => OrSame(DisabledBoth(a), a)
    case Delete => Deletion(a, now)
  }

  function Run(a: Account, actions: seq<(Action, int)>, threshold: Threshold): Account {
    if actions == [] then a
    else
      var (action, now) := actions[|actions| - 1];
      Step(Run(a, actions[..|actions| - 1], threshold), action, threshold, now)
  }

  // ----- one step, field by field

  /** A role other than the stored one is registered. */
  predicate NewRole(a: Account, action: Action) {
    action.CreateAws? && action.role.Some? &&
    a.state.Access() != Some(AwsCloudAccess(action.externalId, action.role.value))
  }

  predicate SameKind(s: CloudAccountState, t: CloudAccountState) {
    && (s.Detected? <==> t.Detected?) && (s.Discovered? <==> t.Discovered?) && (s.Configured? <==> t.Configured?)
    && (s.Degraded? <==> t.Degraded?) && (s.Deleted? <==> t.Deleted?)
  }

  /** The time of the last change of state moves with the kind of the state, with a new role and with a deletion, and
      with nothing else: switching flags does not touch it. */
  lemma TimestampMovesExactly(a: Account, action: Action, threshold: Threshold, now: int)
    ensures var after := Step(a, action, threshold, now);
            after.stateUpdatedAt == if !SameKind(a.state, after.state) || NewRole(a, action) || action.Delete? then now
                                    else a.stateUpdatedAt
  {
  }

  /** An account is degraded after a step if it was and the step is no deletion, no new role and no good scan, or if it
      was not, has access, and is degraded from outside, given up on, or has its fourth bad scan in a row. */
  lemma DegradedExactly(a: Account, action: Action, threshold: Threshold, now: int)
    ensures Step(a, action, threshold, now).state.Degraded?
       <==> if a.state.Degraded? then !action.Delete? && !NewRole(a, action) && !Confirms(a, action, threshold)
            else a.state.Access() != None &&
                 match action
                 case DegradeAccount(_) => true
                 case Pass(canAssume) =>
                   a.state.Discovered? &&
                   (now - a.stateUpdatedAt > 1800
                    || (a.cloud == AWS && !canAssume && now - a.stateUpdatedAt > 900))
                 case Scan(info, failed) => a.failedScanCount >= 3 && BadScan(info, failed, threshold)
                 case _ => false
  {
  }

  /** The other kinds: a new role discovers any account, a deletion deletes any, and only a new role leads back. */
  lemma KindsChangeExactly(a: Account, action: Action, threshold: Threshold, now: int)
    ensures var after := Step(a, action, threshold, now).state;
            && (after.Discovered? <==>
                  NewRole(a, action)
                  || (a.state.Discovered? && !action.Delete? && !action.Configure? && !after.Degraded?))
            && (after.Deleted? <==> action.Delete? || (a.state.Deleted? && !NewRole(a, action)))
            && (after.Detected? <==> a.state.Detected? && !action.Delete? && !NewRole(a, action))
            && (after.Configured? <==>
                  if a.state.Configured? then !action.Delete? && !NewRole(a, action) && !after.Degraded?
                  else Confirms(a, action, threshold))
  {
  }

  /** Registering an unknown account: an AWS account without a role is only known of, one with a role waits to be
      configured, and the others are configured and scanned at once when they are enabled. Its streak starts at zero. */
  lemma RegisteredAnew(role: Option<string>, externalId: nat, access: CloudAccess, enabled: bool, now: int)
    ensures var aws, other := CreatedAws(None, role, externalId, enabled, now),
                CreatedConfigured(None, access, enabled, now);
            && aws.state == (if role.None? then Detected
                             else Discovered(AwsCloudAccess(externalId, role.value), enabled))
            && other.state == Configured(access, enabled, enabled)
            && aws.cloud == AWS && other.cloud == access.Cloud()
            && forall a <- [aws, other] ::
                 && a.createdAt == a.stateUpdatedAt == now && a.failedScanCount == 0 && !a.privileged
                 && (a.scannedResources, a.scanDuration, a.scanStartedAt) == (0, 0, None)
                 && a.lastTaskId == None && a.resourceErrors == 0
  {
  }

  /** The flags and the error of a state: what sets them, and that everything else leaves them alone. */
  lemma FlagsChangeExactly(a: Account, action: Action, threshold: Threshold, now: int)
    ensures var after := Step(a, action, threshold, now).state;
            && (after.Access() != None ==>
                  after.enabled == if NewRole(a, action) then action.enabled
                                   else if action.SetEnabled? && Settled(a.state) then action.enabled
                                   else if action.Disable? && a.state.Configured? then false
                                   else a.state.enabled)
            && (Settled(after) ==>
                  after.scan == if action.SetScan? then action.scan
                                else if action.Disable? && a.state.Configured? then false
                                else if Settled(a.state) then a.state.scan
                                else after.Configured? && a.state.enabled)
            && (after.Degraded? ==>
                  if a.state.Degraded? then after.error == a.state.error
                  else match action
                       case DegradeAccount(error) => after.error == error
                       case Scan(_, _) => after.error == "Too many consecutive failed scans"
                       case _ => action.Pass?)
  {
  }

  /** The other columns: a scan writes what it reports, a deletion clears the scan but for its streak and task, a
      configure step says whether the account is privileged, and registering a deleted AWS account again makes it a new
      one. */
  lemma OtherColumnsChangeExactly(a: Account, action: Action, threshold: Threshold, now: int)
    ensures var after := Step(a, action, threshold, now);
            var scanned := (after.scannedResources, after.scanDuration, after.scanStartedAt);
            && scanned == (match action
                           case Scan(info, _) => (info.scannedResources, info.durationSeconds, Some(info.startedAt))
                           case Delete => (0, 0, None)
                           case _ => (a.scannedResources, a.scanDuration, a.scanStartedAt))
            && (after.lastTaskId, after.resourceErrors)
               == (if action.Scan? then (action.info.taskId, action.info.errors) else (a.lastTaskId, a.resourceErrors))
            && after.privileged
               == (if action.Configure? && a.state.Discovered? then action.privileged else a.privileged)
            && after.createdAt == (if action.CreateAws? && a.state == Deleted then now else a.createdAt)
            && after.cloud == a.cloud
  {
  }

  /** Step `k` of a run is a scan that counts as failed, or one that does not. */
  predicate BadAt(actions: seq<(Action, int)>, threshold: Threshold, k: nat)
    requires k < |actions|
  {
    actions[k].0.Scan? && BadScan(actions[k].0.info, actions[k].0.failed, threshold)
  }

  predicate GoodAt(actions: seq<(Action, int)>, threshold: Threshold, k: nat)
    requires k < |actions|
  {
    actions[k].0.Scan? && !BadScan(actions[k].0.info, actions[k].0.failed, threshold)
  }

  function BadFrom(actions: seq<(Action, int)>, threshold: Threshold, i: nat): set<nat> {
    set k: nat | i <= k < |actions| && BadAt(actions, threshold, k)
  }

  /** The last good scan is the one just before step `i`; with `i` zero there is none. */
  ghost predicate StreakFrom(actions: seq<(Action, int)>, threshold: Threshold, i: nat) {
    && i <= |actions|
    && (i > 0 ==> GoodAt(actions, threshold, i - 1))
    && forall k :: i <= k < |actions| ==> !GoodAt(actions, threshold, k)
  }

  /** The number of bad scans since the last good one, and all of them on top of `before` when there is none. */
  function Streak(before: nat, actions: seq<(Action, int)>, threshold: Threshold, i: nat): nat {
    (if i == 0 then before else 0) + |BadFrom(actions, threshold, i)|
  }

  /** Every run has exactly one place where its streak starts. */
  lemma {:induction false} StreakStarts(actions: seq<(Action, int)>, threshold: Threshold) returns (i: nat)
    ensures StreakFrom(actions, threshold, i)
    ensures forall j: nat :: StreakFrom(actions, threshold, j) ==> j == i
  {
    i := |actions|;
    while i > 0 && !GoodAt(actions, threshold, i - 1)
      invariant i <= |actions| && forall k :: i <= k < |actions| ==> !GoodAt(actions, threshold, k)
    {
      i := i - 1;
    }
    forall j: nat | j != i ensures !StreakFrom(actions, threshold, j) {
      if i < j <= |actions| {
        assert !GoodAt(actions, threshold, j - 1);
      } else if j < i {
        assert GoodAt(actions, threshold, i - 1);
      }
    }
  }

  /** In every run the stored count is the number of bad scans since the last good one, deletions, new roles and all
      other steps notwithstanding. */
  lemma {:induction false} StoredCountIsTheStreak(a: Account, actions: seq<(Action, int)>, threshold: Threshold, i: nat)
    requires StreakFrom(actions, threshold, i)
    ensures Run(a, actions, threshold).failedScanCount == Streak(a.failedScanCount, actions, threshold, i)
  {
    if actions != [] {
      var n := |actions| - 1;
      if i <= n {
        assert !GoodAt(actions, threshold, n);
        FrontStreak(actions, threshold, i);
        StoredCountIsTheStreak(a, actions[..n], threshold, i);
        OneMoreStep(actions, threshold, i);
      } else {
        assert GoodAt(actions, threshold, n);
      }
    }
    if i == |actions| {
      assert BadFrom(actions, threshold, i) == {};
    }
  }

  lemma FrontStreak(actions: seq<(Action, int)>, threshold: Threshold, i: nat)
    requires StreakFrom(actions, threshold, i) && i < |actions|
    ensures StreakFrom(actions[..|actions| - 1], threshold, i)
  {
    var n := |actions| - 1;
    assert forall k: nat :: k < n ==> (GoodAt(actions[..n], threshold, k) <==> GoodAt(actions, threshold, k));
  }

  lemma OneMoreStep(actions: seq<(Action, int)>, threshold: Threshold, i: nat)
    requires i < |actions|
    ensures var n := |actions| - 1;
            |BadFrom(actions, threshold, i)|
            == |BadFrom(actions[..n], threshold, i)| + if BadAt(actions, threshold, n) then 1 else 0
  {
    var n := |actions| - 1;
    var before := BadFrom(actions[..n], threshold, i);
    assert BadFrom(actions, threshold, i) == if BadAt(actions, threshold, n) then before + {n} else before;
  }

  /** After a scan event an account with access is degraded when the streak exceeds three, not degraded when the streak
      is zero, and as degraded as before in between; access, enabled flag and cloud never change. */
  lemma {:induction false} ScanDegradesByStreak(a: Account, actions: seq<(Action, int)>, info: ScanInfo, failed: bool,
                                                threshold: Threshold, now: int, i: nat)
    requires StreakFrom(actions + [(Scan(info, failed), now)], threshold, i)
    ensures var all := actions + [(Scan(info, failed), now)];
            var before, after := Run(a, actions, threshold), Run(a, all, threshold);
            var streak := Streak(a.failedScanCount, all, threshold, i);
            && after.state.Access() == before.state.Access()
            && (before.state.Access() == None ==> after.state == before.state)
            && (before.state.Access() != None ==> after.state.enabled == before.state.enabled)
            && (streak > 3 && before.state.Access() != None ==> after.state.Degraded?)
            && (streak == 0 ==> !after.state.Degraded?)
            && (1 <= streak <= 3 ==> after.state == before.state)
  {
    var all := actions + [(Scan(info, failed), now)];
    assert all[..|all| - 1] == actions;
    StoredCountIsTheStreak(a, all, threshold, i);
  }

  // ----- waiting to be configured

  ghost predicate Clocked(start: int, actions: seq<(Action, int)>) {
    && (forall i :: 0 <= i < |actions| ==> start <= actions[i].1)
    && (forall i, j :: 0 <= i <= j < |actions| ==> actions[i].1 <= actions[j].1)
  }

  /** No account waits forever: if one is discovered, then no pass ran more than thirty minutes after its state was last
      changed, and for an AWS account none that could not assume the role more than fifteen minutes after. */
  lemma {:induction false} NobodyStaysDiscovered(a: Account, actions: seq<(Action, int)>, threshold: Threshold)
    requires Clocked(a.stateUpdatedAt, actions)
    ensures var after := Run(a, actions, threshold);
            && after.cloud == a.cloud
            && after.stateUpdatedAt <= (if actions == [] then a.stateUpdatedAt else actions[|actions| - 1].1)
            && (after.state.Discovered? ==>
                  forall i :: 0 <= i < |actions| && actions[i].0.Pass? ==>
                    && actions[i].1 <= after.stateUpdatedAt + DISCOVERED_TOO_LONG
                    && (a.cloud == AWS && !actions[i].0.canAssume ==>
                        actions[i].1 <= after.stateUpdatedAt + BECOME_DEGRADED_TIMEOUT))
  {
    if actions != [] {
      var front, last := actions[..|actions| - 1], actions[|actions| - 1];
      NobodyStaysDiscovered(a, front, threshold);
      OneStepFromDiscovered(Run(a, front, threshold), last.0, threshold, last.1);
      forall i | 0 <= i < |front| ensures actions[i] == front[i] && actions[i].1 <= last.1 {}
    }
  }

  /** An account that is discovered after a step was already, and survived the step unchanged in that, or has just
      become so. */
  lemma OneStepFromDiscovered(a: Account, action: Action, threshold: Threshold, now: int)
    requires a.stateUpdatedAt <= now
    ensures var after := Step(a, action, threshold, now);
            && after.cloud == a.cloud && a.stateUpdatedAt <= after.stateUpdatedAt <= now
            && (after.state.Discovered? && after.stateUpdatedAt != now ==>
                a.state.Discovered? && after.stateUpdatedAt == a.stateUpdatedAt)
            && (after.state.Discovered? && action.Pass? ==>
                  && now <= after.stateUpdatedAt + DISCOVERED_TOO_LONG
                  && (a.cloud == AWS && !action.canAssume ==> now <= after.stateUpdatedAt + BECOME_DEGRADED_TIMEOUT))
  {
  }

  /** After `n` steps the account is discovered, and it has been in just this state since then: since the step that
      brought it there, or from the start. */
  ghost predicate WaitingSince(a: Account, actions: seq<(Action, int)>, threshold: Threshold, n: nat, since: int)
    requires n <= |actions|
  {
    Run(a, actions[..n], threshold).state.Discovered? &&
    exists j: nat :: j <= n && EnteredAt(a, actions, threshold, j, n, since)
  }

  /** The state after `n` steps is the one after `j` steps, and before that there was another one. */
  ghost predicate EnteredAt(a: Account, actions: seq<(Action, int)>, threshold: Threshold, j: nat, n: nat, since: int)
    requires j <= n <= |actions|
  {
    && SameStateFrom(a, actions, threshold, j, n)
    && if j == 0 then since == a.stateUpdatedAt
       else since == actions[j - 1].1 && !SameStateFrom(a, actions, threshold, j - 1, n)
  }

  ghost predicate SameStateFrom(a: Account, actions: seq<(Action, int)>, threshold: Threshold, j: nat, n: nat)
    requires j <= n <= |actions|
  {
    forall k: nat :: j <= k <= n ==> Run(a, actions[..k], threshold).state == Run(a, actions[..n], threshold).state
  }

  /** A pass gives up on a discovered account neither too late nor too early: when it has been waiting for more than
      thirty minutes, or for an AWS account whose role cannot be assumed for more than fifteen. Otherwise it leaves the
      account alone. */
  lemma {:induction false} GivesUpExactly(a: Account, actions: seq<(Action, int)>, threshold: Threshold, i: nat,
                                          since: int)
    requires i < |actions| && actions[i].0.Pass? && WaitingSince(a, actions, threshold, i, since)
    ensures var before, after := Run(a, actions[..i], threshold), Run(a, actions[..i + 1], threshold);
            var waited := actions[i].1 - since;
            && (after.state.Degraded? <==>
                  waited > 1800 || (before.cloud == AWS && !actions[i].0.canAssume && waited > 900))
            && (!after.state.Degraded? ==> after == before)
            && (after.state.Degraded? ==>
                  after.state == Degraded(before.state.access, before.state.enabled, false,
                                          if waited > 1800 then "Account in discovered state for too long"
                                          else "Cannot assume role"))
  {
    PrefixRun(a, actions, threshold, i);
    WaitedSince(a, actions, threshold, i, since);
  }

  lemma {:induction false} WaitedSince(a: Account, actions: seq<(Action, int)>, threshold: Threshold, n: nat,
                                       since: int)
    requires n <= |actions| && WaitingSince(a, actions, threshold, n, since)
    ensures Run(a, actions[..n], threshold).stateUpdatedAt == since
  {
    var j: nat :| j <= n && EnteredAt(a, actions, threshold, j, n, since);
    if j == 0 {
      assert actions[..0] == [];
    } else {
      assert Run(a, actions[..j], threshold).state.Discovered?;
      MovedAt(a, actions, threshold, j, n);
    }
    NotMoved(a, actions, threshold, j, n);
  }

  lemma {:induction false} MovedAt(a: Account, actions: seq<(Action, int)>, threshold: Threshold, j: nat, n: nat)
    requires 0 < j <= n <= |actions| && Run(a, actions[..j], threshold).state.Discovered?
    requires SameStateFrom(a, actions, threshold, j, n) && !SameStateFrom(a, actions, threshold, j - 1, n)
    ensures Run(a, actions[..j], threshold).stateUpdatedAt == actions[j - 1].1
  {
    PrefixRun(a, actions, threshold, j - 1);
    DiscoveredStamp(Run(a, actions[..j - 1], threshold), actions[j - 1].0, threshold, actions[j - 1].1);
  }

  lemma DiscoveredStamp(a: Account, action: Action, threshold: Threshold, now: int)
    requires Step(a, action, threshold, now).state.Discovered?
    ensures var after := Step(a, action, threshold, now);
            after.stateUpdatedAt == if after.state == a.state then a.stateUpdatedAt else now
  {
  }

  lemma {:induction false} NotMoved(a: Account, actions: seq<(Action, int)>, threshold: Threshold, j: nat, n: nat)
    requires j <= n <= |actions| && SameStateFrom(a, actions, threshold, j, n)
    requires Run(a, actions[..n], threshold).state.Discovered?
    ensures Run(a, actions[..n], threshold).stateUpdatedAt == Run(a, actions[..j], threshold).stateUpdatedAt
    decreases n
  {
    if j < n {
      PrefixRun(a, actions, threshold, n - 1);
      assert Run(a, actions[..n - 1], threshold).state == Run(a, actions[..n], threshold).state;
      DiscoveredStamp(Run(a, actions[..n - 1], threshold), actions[n - 1].0, threshold, actions[n - 1].1);
      NotMoved(a, actions, threshold, j, n - 1);
    }
  }

  /** Every discovered account has been waiting since some time. */
  lemma {:induction false} WaitingSinceSomeTime(a: Account, actions: seq<(Action, int)>, threshold: Threshold, n: nat)
    requires n <= |actions| && Run(a, actions[..n], threshold).state.Discovered?
    ensures exists since :: WaitingSince(a, actions, threshold, n, since)
  {
    var j: nat := n;
    while j > 0 && SameStateFrom(a, actions, threshold, j - 1, n)
      invariant j <= n && SameStateFrom(a, actions, threshold, j, n)
    {
      j := j - 1;
    }
    var since := if j == 0 then a.stateUpdatedAt else actions[j - 1].1;
    assert EnteredAt(a, actions, threshold, j, n, since);
    assert WaitingSince(a, actions, threshold, n, since);
  }

  /** An effective configure step: the role could be assumed, and the account is still discovered. */
  predicate ConfiguresAt(a: Account, actions: seq<(Action, int)>, threshold: Threshold, i: nat)
    requires i < |actions|
  {
    actions[i].0.Configure? && Run(a, actions[..i], threshold).state.Discovered?
  }

  /** The access that was registered last. */
  function Registered(before: Option<CloudAccess>, actions: seq<(Action, int)>): Option<CloudAccess> {
    if actions == [] then before
    else
      match actions[|actions| - 1].0
      case CreateAws(Some(role), externalId, _) => Some(AwsCloudAccess(externalId, role))
      case _ => Registered(before, actions[..|actions| - 1])
  }

  /** After `n` steps an account with access has the access that was registered last. */
  predicate UpToDate(a: Account, actions: seq<(Action, int)>, threshold: Threshold, n: nat)
    requires n <= |actions|
  {
    var access := Run(a, actions[..n], threshold).state.Access();
    access == None || access == Registered(a.state.Access(), actions[..n])
  }

  /** If step `i` is an effective configure step, the access it read at its start is still the stored one. */
  predicate CarriesStored(a: Account, actions: seq<(Action, int)>, threshold: Threshold, i: nat)
    requires i < |actions|
  {
    ConfiguresAt(a, actions, threshold, i) ==>
        Some(actions[i].0.access) == Run(a, actions[..i], threshold).state.Access()
  }

  /** In every run the stored access is always the one that was registered last if and only if each configure step that
      takes effect carries the access stored when it ends. A role registered during an attempt is lost otherwise. */
  lemma {:induction false} AccessIsUpToDateExactly(a: Account, actions: seq<(Action, int)>, threshold: Threshold)
    ensures (forall n: nat :: n <= |actions| ==> UpToDate(a, actions, threshold, n))
       <==> (forall i: nat :: i < |actions| ==> CarriesStored(a, actions, threshold, i))
  {
    if forall i: nat :: i < |actions| ==> CarriesStored(a, actions, threshold, i) {
      forall n: nat | n <= |actions| ensures UpToDate(a, actions, threshold, n) {
        StaysUpToDate(a, actions, threshold, n);
      }
    } else {
      var i: nat :| i < |actions| && !CarriesStored(a, actions, threshold, i);
      OneStepOfAccess(a, actions, threshold, i);
      assert !UpToDate(a, actions, threshold, i) || !UpToDate(a, actions, threshold, i + 1);
    }
  }

  lemma {:induction false} StaysUpToDate(a: Account, actions: seq<(Action, int)>, threshold: Threshold, n: nat)
    requires n <= |actions| && forall i: nat :: i < n ==> CarriesStored(a, actions, threshold, i)
    ensures UpToDate(a, actions, threshold, n)
  {
    if n == 0 {
      assert actions[..0] == [];
    } else {
      StaysUpToDate(a, actions, threshold, n - 1);
      assert CarriesStored(a, actions, threshold, n - 1);
      OneStepOfAccess(a, actions, threshold, n - 1);
    }
  }

  /** A step stores the access it registers, an effective configure step the one it carries, others none or the old. */
  ghost predicate Passes(before: CloudAccountState, action: Action, after: CloudAccountState) {
    if action.CreateAws? && action.role.Some? then
      after.Access() == Some(AwsCloudAccess(action.externalId, action.role.value))
    else if action.Configure? && before.Discovered? then after.Access() == Some(action.access)
    else after.Access() == None || after.Access() == before.Access()
  }

  lemma AccessStep(a: Account, action: Action, threshold: Threshold, now: int)
    ensures Passes(a.state, action, Step(a, action, threshold, now).state)
  {
  }

  lemma {:induction false} OneStepOfAccess(a: Account, actions: seq<(Action, int)>, threshold: Threshold, i: nat)
    requires i < |actions|
    ensures Passes(Run(a, actions[..i], threshold).state, actions[i].0, Run(a, actions[..i + 1], threshold).state)
    ensures var start, action := a.state.Access(), actions[i].0;
            Registered(start, actions[..i + 1])
            == if action.CreateAws? && action.role.Some? then Some(AwsCloudAccess(action.externalId, action.role.value))
               else Registered(start, actions[..i])
  {
    PrefixRun(a, actions, threshold, i);
    AccessStep(Run(a, actions[..i], threshold), actions[i].0, threshold, actions[i].1);
    assert actions[..i + 1][..i] == actions[..i];
  }

  /** The shortest instance: register a new role while an attempt with the old one is under way. */
  lemma LateConfigureRestoresTheOldRole(a: Account, before: CloudAccess, role: string, externalId: nat,
                                        enabled: bool, threshold: Threshold)
    requires a.state == Discovered(before, enabled)
    ensures var registered := AwsCloudAccess(externalId, role);
            var after := Run(a, [(CreateAws(Some(role), externalId, enabled), 1), (Configure(before, false), 2)],
                threshold);
            after.state.Configured? && after.state.access == before &&
                (after.state.access == registered <==> registered == before)
  {
    var actions := [(CreateAws(Some(role), externalId, enabled), 1), (Configure(before, false), 2)];
    assert actions[..2] == actions && actions[..1] == [actions[0]];
    PrefixRun(a, actions, threshold, 0);
    PrefixRun(a, actions, threshold, 1);
  }

  // ----- coming back from a deletion

  /** A step that brings an account into Configured: a finished configure, or a good scan of a degraded one. */
  predicate Confirms(a: Account, action: Action, threshold: Threshold) {
    || (action.Configure? && a.state.Discovered?)
    || (action.Scan? && a.state.Degraded? && !BadScan(action.info, action.failed, threshold))
  }

  /** A deleted account stays deleted until its AWS role is registered again, and then it is discovered. */
  lemma DeletedIsLeftThroughDiscovered(a: Account, action: Action, threshold: Threshold, now: int)
    requires a.state == Deleted
    ensures Step(a, action, threshold, now).state == Deleted
         || (action.CreateAws? && action.role.Some? && Step(a, action, threshold, now).state.Discovered?)
  {
  }

  /** Configured is entered by a confirming step, and only so. */
  lemma ConfiguredIsConfirmed(a: Account, action: Action, threshold: Threshold, now: int)
    requires !a.state.Configured?
    ensures Step(a, action, threshold, now).state.Configured? <==> Confirms(a, action, threshold)
  {
  }

  /** The steps of a run that discover, and those that confirm. */
  predicate DiscoversAt(a: Account, actions: seq<(Action, int)>, threshold: Threshold, i: nat)
    requires i < |actions|
  {
    Run(a, actions[..i], threshold).state == Deleted && Run(a, actions[..i + 1], threshold).state.Discovered?
  }

  predicate ConfirmsAt(a: Account, actions: seq<(Action, int)>, threshold: Threshold, i: nat)
    requires i < |actions|
  {
    Confirms(Run(a, actions[..i], threshold), actions[i].0, threshold)
  }

  lemma PrefixRun(a: Account, actions: seq<(Action, int)>, threshold: Threshold, i: nat)
    requires i < |actions|
    ensures Run(a, actions[..i + 1], threshold) ==
        Step(Run(a, actions[..i], threshold), actions[i].0, threshold, actions[i].1)
  {
    assert actions[..i + 1][..i] == actions[..i];
  }

  lemma {:induction false} LeftAfterDeletion(a: Account, actions: seq<(Action, int)>, threshold: Threshold, n: nat)
    requires a.state == Deleted && n <= |actions|
    ensures Run(a, actions[..n], threshold).state != Deleted ==>
        exists i :: 0 <= i < n && DiscoversAt(a, actions, threshold, i)
  {
    if n > 0 {
      LeftAfterDeletion(a, actions, threshold, n - 1);
      var before := Run(a, actions[..n - 1], threshold);
      if before.state == Deleted {
        PrefixRun(a, actions, threshold, n - 1);
        DeletedIsLeftThroughDiscovered(before, actions[n - 1].0, threshold, actions[n - 1].1);
        assert Run(a, actions[..n], threshold).state != Deleted ==> DiscoversAt(a, actions, threshold, n - 1);
      }
    }
  }

  /** Any Configured state after a deletion is preceded by a step into Discovered and, later, by a confirming step. */
  lemma {:induction false} ConfiguredAfterDeletion(a: Account, actions: seq<(Action, int)>, threshold: Threshold,
                                                   n: nat)
    requires a.state == Deleted && n <= |actions|
    ensures Run(a, actions[..n], threshold).state.Configured? ==>
              exists i, j :: 0 <= i < j < n && DiscoversAt(a, actions, threshold, i) &&
                  ConfirmsAt(a, actions, threshold, j)
  {
    if n > 0 && Run(a, actions[..n], threshold).state.Configured? {
      var before := Run(a, actions[..n - 1], threshold);
      PrefixRun(a, actions, threshold, n - 1);
      if before.state.Configured? {
        ConfiguredAfterDeletion(a, actions, threshold, n - 1);
      } else {
        ConfiguredIsConfirmed(before, actions[n - 1].0, threshold, actions[n - 1].1);
        LeftAfterDeletion(a, actions, threshold, n - 1);
        assert before.state != Deleted && ConfirmsAt(a, actions, threshold, n - 1);
      }
    }
  }

  /** The detour around a configure step: an account is given up on before it was configured. */
  predicate DetoursAt(a: Account, actions: seq<(Action, int)>, threshold: Threshold, i: nat)
    requires i < |actions|
  {
    Run(a, actions[..i], threshold).state.Discovered? && Run(a, actions[..i + 1], threshold).state.Degraded?
  }

  /** A step that sends an account back to the start: a deletion, or a new role. */
  predicate ReturnsAt(a: Account, actions: seq<(Action, int)>, threshold: Threshold, i: nat)
    requires i < |actions|
  {
    actions[i].0.Delete? || Run(a, actions[..i + 1], threshold).state.Discovered?
  }

  /** Some step before `n` took the detour, and none since sent the account back. */
  ghost predicate OnDetour(a: Account, actions: seq<(Action, int)>, threshold: Threshold, n: nat)
    requires n <= |actions|
  {
    exists j: nat :: j < n && DetoursAt(a, actions, threshold, j) &&
                     forall k: nat :: j < k < n ==> !ReturnsAt(a, actions, threshold, k)
  }

  predicate Settled(s: CloudAccountState) { s.Configured? || s.Degraded? }

  /** A run from a deletion without an effective configure step reaches Configured or Degraded exactly on the detour. */
  lemma {:induction false} SettledWithoutConfigure(a: Account, actions: seq<(Action, int)>, threshold: Threshold,
                                                   n: nat)
    requires a.state == Deleted && n <= |actions|
    requires forall i: nat :: i < n ==> !ConfiguresAt(a, actions, threshold, i)
    ensures Settled(Run(a, actions[..n], threshold).state) <==> OnDetour(a, actions, threshold, n)
  {
    if n > 0 {
      SettledWithoutConfigure(a, actions, threshold, n - 1);
      PrefixRun(a, actions, threshold, n - 1);
      SettledStep(Run(a, actions[..n - 1], threshold), actions[n - 1].0, threshold, actions[n - 1].1);
      DetourStep(a, actions, threshold, n);
      assert !ConfiguresAt(a, actions, threshold, n - 1);
    }
  }

  lemma DetourStep(a: Account, actions: seq<(Action, int)>, threshold: Threshold, n: nat)
    requires 0 < n <= |actions|
    ensures OnDetour(a, actions, threshold, n)
       <==> DetoursAt(a, actions, threshold, n - 1)
            || (OnDetour(a, actions, threshold, n - 1) && !ReturnsAt(a, actions, threshold, n - 1))
  {
    if j: nat :| j < n - 1 && DetoursAt(a, actions, threshold, j) &&
                 forall k: nat :: j < k < n - 1 ==> !ReturnsAt(a, actions, threshold, k) {
      assert !ReturnsAt(a, actions, threshold, n - 1) ==>
          forall k: nat :: j < k < n ==> !ReturnsAt(a, actions, threshold, k);
    }
  }

  /** Configured and Degraded are entered from Discovered, and left by a deletion or a new role only. */
  lemma SettledStep(a: Account, action: Action, threshold: Threshold, now: int)
    ensures var after := Step(a, action, threshold, now).state;
            if Settled(a.state) then Settled(after) <==> !action.Delete? && !after.Discovered?
            else Settled(after) <==> a.state.Discovered? && (action.Configure? || after.Degraded?)
  {
  }

  /** If no account is given up on while it is discovered, then after a deletion nothing is configured or degraded
      without a configure step before. */
  lemma {:induction false} ConfigureComesFirst(a: Account, actions: seq<(Action, int)>, threshold: Threshold, n: nat)
    requires a.state == Deleted && n <= |actions|
    requires forall i: nat :: i < n ==> !DetoursAt(a, actions, threshold, i)
    requires Settled(Run(a, actions[..n], threshold).state)
    ensures exists i: nat :: i < n && ConfiguresAt(a, actions, threshold, i)
  {
    if forall i: nat :: i < n ==> !ConfiguresAt(a, actions, threshold, i) {
      SettledWithoutConfigure(a, actions, threshold, n);
      assert false;
    }
  }

  /** And the condition is exact: as long as no configure step took effect, one good scan makes the account configured
      if and only if it is on the detour. */
  lemma {:induction false} GoodScanConfiguresExactly(a: Account, actions: seq<(Action, int)>, threshold: Threshold,
                                                     info: ScanInfo, now: int)
    requires a.state == Deleted && info.scannedResources > threshold
    requires forall i: nat :: i < |actions| ==> !ConfiguresAt(a, actions, threshold, i)
    ensures Run(a, actions + [(Scan(info, false), now)], threshold).state.Configured?
       <==> OnDetour(a, actions, threshold, |actions|)
  {
    var all := actions + [(Scan(info, false), now)];
    assert all[..|actions|] == actions && actions[..|actions|] == actions;
    SettledWithoutConfigure(a, actions, threshold, |actions|);
  }

  /** The shortest instance: an account that was registered again and degraded because its role could not be assumed is
      pinged, and one good scan makes it configured. */
  lemma ConfiguredWithoutConfigure(a: Account, role: string, externalId: nat, error: string, info: ScanInfo,
                                   threshold: Threshold)
    requires a.state == Deleted && info.scannedResources > threshold
    ensures var actions := [(CreateAws(Some(role), externalId, true), 1), (DegradeAccount(error), 2),
        (Scan(info, false), 3)];
            Run(a, actions, threshold).state == Configured(AwsCloudAccess(externalId, role), true, false)
  {
    var actions := [(CreateAws(Some(role), externalId, true), 1), (DegradeAccount(error), 2), (Scan(info, false), 3)];
    assert actions[..3] == actions && actions[..2] == [actions[0], actions[1]] && actions[..1] == [actions[0]];
    PrefixRun(a, actions, threshold, 0);
    PrefixRun(a, actions, threshold, 1);
    PrefixRun(a, actions, threshold, 2);
  }
}
