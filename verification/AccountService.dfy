/**
  The accounts of one workspace: the handlers that go through several of them, and the limits they enforce.
 */
module AccountService {
  import opened Wrappers
  import opened Collections
  import opened CloudAccounts

  type AccountId = nat
  type Accounts = map<AccountId, Account>

  /** What the product tier of the workspace says; a limit of zero counts as no limit. */
  datatype Tier = Tier(paid: bool, accountLimit: Option<nat>) {
    function Limit(): Option<nat> {
      if accountLimit == Some(0) then None else accountLimit
    }
  }

  datatype Error = NotFound | LimitReached | OnHold | WrongState

  datatype AccountEvent =
    | DegradedPublished(id: AccountId, error: string)
    | DeletedPublished(id: AccountId)
    | ToggledPublished(id: AccountId, enabled: bool)

  // ----- listings

  function Filter(xs: seq<AccountId>, p: AccountId -> bool): seq<AccountId> {
    if xs == [] then []
    else Filter(xs[..|xs| - 1], p) + if p(xs[|xs| - 1]) then [xs[|xs| - 1]] else []
  }

  lemma {:induction false} FilterElements(xs: seq<AccountId>, p: AccountId -> bool)
    ensures forall x :: x in Filter(xs, p) <==> x in xs && p(x)
  {
    if xs != [] {
      FilterElements(xs[..|xs| - 1], p);
    }
  }

  function NonDeleted(listing: seq<AccountId>, accounts: Accounts): seq<AccountId> {
    Filter(listing, id => id in accounts && !accounts[id].state.Deleted?)
  }

  function Disablable(listing: seq<AccountId>, accounts: Accounts): seq<AccountId> {
    Filter(listing, id => id in accounts && accounts[id].state.Access() != None && accounts[id].state.enabled)
  }

  function CanBeEnabled(listing: seq<AccountId>, accounts: Accounts): seq<AccountId> {
    Filter(listing, id => id in accounts && Switchable(accounts[id]) && !accounts[id].state.enabled)
  }

  predicate Switchable(a: Account) { a.state.Configured? || a.state.Degraded? }

  /** Python's `xs[:-k]`. */
  function DropLast<T>(xs: seq<T>, k: nat): seq<T> {
    if k == 0 || |xs| <= k then [] else xs[..|xs| - k]
  }

  function TakeLast<T>(xs: seq<T>, k: nat): seq<T> {
    if |xs| <= k then xs else xs[|xs| - k..]
  }

  ghost predicate Lists(listing: seq<AccountId>, accounts: Accounts) {
    && Distinct(listing)
    && (forall id :: id in listing <==> id in accounts)
  }

  // ----- one account at a time

  /** The accounts that are collected, and counted against the limit. */
  function Ready(accounts: Accounts): set<AccountId> {
    set id | id in accounts && accounts[id].ReadyForCollection()
  }

  function EnabledUpdate(accounts: Accounts, id: AccountId, enabled: bool, tier: Tier,
                         onHold: bool): Result<Accounts, Error>
  {
    EnabledByCount(accounts, id, enabled, tier, onHold, |Ready(accounts)|)
  }

  /** The same with the number of collected accounts as it was counted before. */
  function EnabledByCount(accounts: Accounts, id: AccountId, enabled: bool, tier: Tier, onHold: bool,
                          counted: nat): Result<Accounts, Error>
  {
    if id !in accounts then Err(NotFound)
    else if !Switchable(accounts[id]) then Err(WrongState)
    else if enabled && tier.Limit().Some? && counted >= tier.Limit().value then Err(LimitReached)
    else if enabled && onHold then Err(OnHold)
    else Ok(accounts[id := accounts[id].(state := accounts[id].state.(enabled := enabled))])
  }

  function OrUnchanged(r: Result<Accounts, Error>, accounts: Accounts): Accounts {
    match r
    case Ok(accounts') => accounts'
    case Err(_) => accounts
  }

  function Disabled(accounts: Accounts, ids: seq<AccountId>): Accounts {
    map id | id in accounts ::
      if id in ids && Switchable(accounts[id]) then SwitchedTo(accounts[id], false) else accounts[id]
  }

  function EnabledInOrder(accounts: Accounts, ids: seq<AccountId>, tier: Tier, onHold: bool): (r: Accounts)
    ensures r.Keys == accounts.Keys
  {
    if ids == [] then accounts
    else
      var before := EnabledInOrder(accounts, ids[..|ids| - 1], tier, onHold);
      OrUnchanged(EnabledUpdate(before, ids[|ids| - 1], true, tier, onHold), before)
  }

  function DeletedAll(accounts: Accounts, ids: seq<AccountId>, now: int): Accounts {
    map id | id in accounts :: if id in ids then Deletion(accounts[id], now) else accounts[id]
  }

  // ----- what is published

  function ToggledOff(id: AccountId): AccountEvent { ToggledPublished(id, false) }

  function DegradedByScans(id: AccountId): AccountEvent { DegradedPublished(id, TOO_MANY_FAILED_SCANS) }

  function DeletedAccount(id: AccountId): AccountEvent { DeletedPublished(id) }

  /** `after` is `before` with one event for each of `ids`, in some order. */
  ghost predicate Announces(before: seq<AccountEvent>, after: seq<AccountEvent>, ids: set<AccountId>,
                            event: AccountId -> AccountEvent)
    decreases |after|
  {
    if ids == {} then after == before
    else after != [] && exists id ::
        id in ids && Last(after) == event(id) && Announces(before, Front(after), ids - {id}, event)
  }

  function Last<T>(xs: seq<T>): T
    requires xs != []
  {
    xs[|xs| - 1]
  }

  function Front<T>(xs: seq<T>): seq<T>
    requires xs != []
  {
    xs[..|xs| - 1]
  }

  /** One more account is dealt with, and `announced` says whether it has an event. */
  lemma AnnouncesOneMore(start: seq<AccountEvent>, before: seq<AccountEvent>, after: seq<AccountEvent>,
                         ids: set<AccountId>, id: AccountId, announced: bool, event: AccountId -> AccountEvent)
    requires Announces(start, before, ids, event) && id !in ids
    requires after == before + if announced then [event(id)] else []
    ensures Announces(start, after, ids + if announced then {id} else {}, event)
  {
    if announced {
      assert Front(after) == before && ids + {id} - {id} == ids;
      assert id in ids + {id} && Last(after) == event(id);
    } else {
      assert after == before && ids + {} == ids;
    }
  }

  /** What that amounts to: the old events stay in front, and among the new ones is exactly one for each of `ids`. */
  lemma {:induction false} AnnouncedOnce(before: seq<AccountEvent>, after: seq<AccountEvent>, ids: set<AccountId>,
                                         event: AccountId -> AccountEvent)
    requires Announces(before, after, ids, event)
    ensures before <= after && |after| == |before| + |ids|
    ensures forall e :: e in after[|before|..] <==> exists id :: id in ids && e == event(id)
    decreases |after|
  {
    if ids != {} {
      var id :| id in ids && Last(after) == event(id) && Announces(before, Front(after), ids - {id}, event);
      AnnouncedOnce(before, Front(after), ids - {id}, event);
      assert after[|before|..] == Front(after)[|before|..] + [event(id)];
      forall e ensures e in after[|before|..] <==> exists i :: i in ids && e == event(i) {
        if i :| i in ids && e == event(i) {
          assert i == id || i in ids - {id};
        }
      }
    }
  }

  /** The accounts among `ids` whose flag the disable tasks clear. */
  function SwitchedOff(accounts: Accounts, ids: set<AccountId>): set<AccountId> {
    set id | id in ids && id in accounts && Switchable(accounts[id])
  }

  function Existing(accounts: Accounts, ids: set<AccountId>): set<AccountId> {
    set id | id in ids && id in accounts
  }

  predicate DegradesNow(a: Account, info: ScanInfo, failed: bool, threshold: Threshold) {
    ScanRecorded(a, info, failed, threshold).failedScanCount > 3 && !a.state.Degraded?
  }

  /** A scan announces an account with access exactly when it degrades it, and one without on the same count. */
  lemma AnnouncedWhenDegraded(a: Account, info: ScanInfo, failed: bool, threshold: Threshold, now: int)
    ensures DegradesNow(a, info, failed, threshold)
       <==> !a.state.Degraded? && a.failedScanCount >= 3 && (failed || info.scannedResources <= threshold)
    ensures a.state.Access() != None ==>
              (DegradesNow(a, info, failed, threshold) <==>
                 !a.state.Degraded? && Scanned(a, info, failed, threshold, now).state.Degraded?)
    ensures forall id :: DegradedByScans(id) == DegradedPublished(id, "Too many consecutive failed scans")
  {
  }

  /** The accounts after the scans of `ids` were recorded. */
  function ScannedAll(accounts: Accounts, ids: set<AccountId>, scans: map<AccountId, ScanInfo>, failed: bool,
                      threshold: Threshold, now: int): Accounts
  {
    map id | id in accounts ::
      if id in ids && id in scans then Scanned(accounts[id], scans[id], failed, threshold, now) else accounts[id]
  }

  lemma ScannedNone(accounts: Accounts, scans: map<AccountId, ScanInfo>, failed: bool, threshold: Threshold, now: int)
    ensures accounts == ScannedAll(accounts, {}, scans, failed, threshold, now)
  {
  }

  lemma ScannedOneMore(accounts: Accounts, ids: set<AccountId>, id: AccountId, scans: map<AccountId, ScanInfo>,
                       failed: bool, threshold: Threshold, now: int)
    requires id in accounts && id in scans && id !in ids
    ensures ScannedAll(accounts, ids, scans, failed, threshold, now)[id] == accounts[id]
    ensures ScannedAll(accounts, ids + {id}, scans, failed, threshold, now)
         == ScannedAll(accounts, ids, scans, failed, threshold, now)
              [id := Scanned(accounts[id], scans[id], failed, threshold, now)]
  {
  }

  /** The accounts among `ids` that a collect event degrades, those without access included. */
  function DegradedNow(accounts: Accounts, ids: set<AccountId>, scans: map<AccountId, ScanInfo>, failed: bool,
                       threshold: Threshold): set<AccountId>
  {
    set id | id in ids && id in accounts && id in scans && DegradesNow(accounts[id], scans[id], failed, threshold)
  }

  /** The events of switching accounts on one after the other: one for each success. */
  function SwitchedOn(accounts: Accounts, ids: seq<AccountId>, tier: Tier, onHold: bool): seq<AccountEvent> {
    if ids == [] then []
    else
      var front, last := ids[..|ids| - 1], ids[|ids| - 1];
      var r := EnabledUpdate(EnabledInOrder(accounts, front, tier, onHold), last, true, tier, onHold);
      SwitchedOn(accounts, front, tier, onHold) + if r.Ok? then [ToggledPublished(last, true)] else []
  }

  lemma SwitchedOffOneMore(accounts: Accounts, ids: set<AccountId>, id: AccountId)
    requires id !in ids
    ensures SwitchedOff(accounts, ids + {id})
         == SwitchedOff(accounts, ids) + if id in accounts && Switchable(accounts[id]) then {id} else {}
  {
  }

  lemma ExistingOneMore(accounts: Accounts, ids: set<AccountId>, id: AccountId)
    requires id !in ids
    ensures Existing(accounts, ids + {id}) == Existing(accounts, ids) + if id in accounts then {id} else {}
  {
  }

  lemma DegradedOneMore(accounts: Accounts, ids: set<AccountId>, id: AccountId, scans: map<AccountId, ScanInfo>,
                        failed: bool, threshold: Threshold)
    requires id in accounts && id in scans && id !in ids
    ensures DegradedNow(accounts, ids + {id}, scans, failed, threshold)
         == DegradedNow(accounts, ids, scans, failed, threshold)
            + if DegradesNow(accounts[id], scans[id], failed, threshold) then {id} else {}
  {
  }

  // ----- which accounts of the listing a pass is about

  /** Configured or degraded, and disabled. */
  predicate Off(accounts: Accounts, id: AccountId) {
    id in accounts && (accounts[id].state.Configured? || accounts[id].state.Degraded?) && !accounts[id].state.enabled
  }

  function SwitchedTo(a: Account, enabled: bool): Account
    requires a.state.Configured? || a.state.Degraded?
  {
    a.(state := a.state.(enabled := enabled))
  }

  /** The configured accounts before place `n` that are disabled: each of them takes a slot when it is enabled. */
  function SlotsBefore(listing: seq<AccountId>, accounts: Accounts, n: nat): set<nat>
    requires n <= |listing|
  {
    set j: nat | j < n && Off(accounts, listing[j]) && accounts[listing[j]].state.Configured?
  }

  /** Whether a pass over the listing switches on the account at place `i`. It has to be off, on an unpaid tier the
      first that is; the payment must not be on hold; and with what the accounts before it take there has to be a slot
      left. */
  predicate IsSwitchedOn(listing: seq<AccountId>, accounts: Accounts, tier: Tier, onHold: bool, i: nat)
    requires i < |listing|
  {
    && Off(accounts, listing[i]) && !onHold
    && (tier.paid || forall j: nat :: j < i ==> !Off(accounts, listing[j]))
    && (tier.accountLimit == None || tier.accountLimit == Some(0)
        || |Ready(accounts)| + |SlotsBefore(listing, accounts, i)| < tier.accountLimit.value)
  }

  /** The events of the first `n` places, in the order of the listing. */
  function OnEvents(listing: seq<AccountId>, accounts: Accounts, tier: Tier, onHold: bool, n: nat): seq<AccountEvent>
    requires n <= |listing|
  {
    if n == 0 then []
    else OnEvents(listing, accounts, tier, onHold, n - 1)
         + if IsSwitchedOn(listing, accounts, tier, onHold, n - 1) then [ToggledPublished(listing[n - 1], true)] else []
  }

  /** Whether keeping `keep` accounts switches off the one at place `i`: when there are at least as many enabled ones
      after it, discovered ones included, although these cannot be switched off themselves. */
  predicate IsSwitchedOff(listing: seq<AccountId>, accounts: Accounts, keep: nat, i: nat)
    requires i < |listing|
  {
    && listing[i] in accounts && accounts[listing[i]].state.Access() != None && accounts[listing[i]].state.enabled
    && !accounts[listing[i]].state.Discovered?
    && 0 < keep <= |EnabledAfter(listing, accounts, i)|
  }

  function EnabledAfter(listing: seq<AccountId>, accounts: Accounts, i: nat): set<nat> {
    set j: nat | i < j < |listing| && listing[j] in accounts
                 && accounts[listing[j]].state.Access() != None && accounts[listing[j]].state.enabled
  }

  /** The limit of one tier is above that of another; none, or zero, is above all. */
  predicate Exceeds(tier: Tier, other: Tier) {
    var limit, otherLimit := if tier.accountLimit.Some? then tier.accountLimit.value else 0,
        if other.accountLimit.Some? then other.accountLimit.value else 0;
    otherLimit != 0 && (limit == 0 || otherLimit < limit)
  }

  /** Whether a tier change deletes the account at place `i`: when the limit falls, and at least as many as it allows
      come after it that are not deleted. */
  predicate IsSurplus(listing: seq<AccountId>, accounts: Accounts, newTier: Tier, oldTier: Tier, i: nat)
    requires i < |listing|
  {
    && Exceeds(oldTier, newTier)
    && listing[i] in accounts && !accounts[listing[i]].state.Deleted?
    && newTier.accountLimit.value <= |PresentAfter(listing, accounts, i)|
  }

  function PresentAfter(listing: seq<AccountId>, accounts: Accounts, i: nat): set<nat> {
    set j: nat | i < j < |listing| && listing[j] in accounts && !accounts[listing[j]].state.Deleted?
  }

  /** What a tier change makes of the account at place `i`. */
  function AfterTierChange(listing: seq<AccountId>, accounts: Accounts, newTier: Tier, oldTier: Tier, onHold: bool,
                           now: int, i: nat): Account
    requires i < |listing| && listing[i] in accounts
  {
    var a := accounts[listing[i]];
    if IsSurplus(listing, accounts, newTier, oldTier, i) then Deletion(a, now)
    else if Exceeds(newTier, oldTier) && IsSwitchedOn(listing, accounts, newTier, onHold, i) then SwitchedTo(a, true)
    else a
  }

  /** Why the flag of an account cannot be set, if it cannot: the reasons in the order they are looked at. */
  function Refusal(accounts: Accounts, id: AccountId, enabled: bool, tier: Tier, onHold: bool): Option<Error> {
    if id !in accounts then Some(NotFound)
    else if !accounts[id].state.Configured? && !accounts[id].state.Degraded? then Some(WrongState)
    else if !enabled then None
    else if tier.accountLimit.Some? && 0 < tier.accountLimit.value <= |Ready(accounts)| then Some(LimitReached)
    else if onHold then Some(OnHold)
    else None
  }

  class CloudAccountService {
    const threshold: Threshold
    const listing: seq<AccountId>  // the accounts of the workspace in the order the database lists them
    var accounts: Accounts
    var events: seq<AccountEvent>

    ghost predicate Valid()
      reads this
    {
      Lists(listing, accounts)
    }

    constructor (threshold: Threshold, listing: seq<AccountId>, accounts: Accounts)
      requires Lists(listing, accounts)
      ensures Valid() && this.threshold == threshold && this.listing == listing && this.accounts == accounts &&
          events == []
    {
      this.threshold, this.listing, this.accounts, events := threshold, listing, accounts, [];
    }

    /** The event is published whenever the account was not degraded before, also when it has no access and stays as it
        is. */
    method DegradeAccount(id: AccountId, error: string, now: int) returns (found: bool)
      requires Valid()
      modifies this
      ensures Valid() && (found <==> id in old(accounts))
      ensures !found ==> accounts == old(accounts) && events == old(events)
      ensures found ==>
                && accounts == old(accounts)[id := Degrade(old(accounts)[id], error, now)]
                && events == old(events) + if old(accounts)[id].state.Degraded? then []
                    else [DegradedPublished(id, error)]
    {
      if id !in accounts {
        return false;
      }
      if accounts[id].state.Degraded? {
        return true;
      }
      accounts := accounts[id := SetDegraded(accounts[id], error, now)];
      events := events + [DegradedPublished(id, error)];
      return true;
    }

    method UndegradeAccount(id: AccountId, now: int) returns (found: bool)
      requires Valid()
      modifies this`accounts
      ensures Valid() && (found <==> id in old(accounts))
      ensures accounts == if found then old(accounts)[id := Undegrade(old(accounts)[id], now)] else old(accounts)
    {
      if id !in accounts {
        return false;
      }
      if accounts[id].state.Degraded? {
        accounts := accounts[id := SetConfigured(accounts[id], now)];
      }
      return true;
    }

    method ProcessScan(id: AccountId, info: ScanInfo, failed: bool, now: int) returns (found: bool)
      requires Valid()
      modifies this
      ensures Valid() && (found <==> id in old(accounts))
      ensures accounts == if found then old(accounts)[id := Scanned(old(accounts)[id], info, failed, threshold, now)]
                          else old(accounts)
      ensures events == old(events) + if found && DegradesNow(old(accounts)[id], info, failed, threshold)
                                      then [DegradedByScans(id)] else []
    {
      if id !in accounts {
        return false;
      }
      accounts := accounts[id := ScanRecorded(accounts[id], info, failed, threshold)];
      var count := accounts[id].failedScanCount;
      if count > 3 {
        var _ := DegradeAccount(id, TOO_MANY_FAILED_SCANS, now);
      }
      if !failed && count == 0 {
        var _ := UndegradeAccount(id, now);
      }
      return true;
    }

    /** A collect event about any number of accounts. It stops at the first one that does not exist; `done` are those it
        has updated by then. */
    method ProcessCollectEvent(scans: map<AccountId, ScanInfo>, failed: bool, now: int)
      returns (found: bool, ghost done: set<AccountId>)
      requires Valid()
      modifies this
      ensures Valid() && (found <==> scans.Keys <= old(accounts).Keys)
      ensures done <= scans.Keys && done <= old(accounts).Keys && (found ==> done == scans.Keys)
      ensures accounts.Keys == old(accounts).Keys
      ensures accounts == ScannedAll(old(accounts), done, scans, failed, threshold, now)
      ensures Announces(old(events), events, DegradedNow(old(accounts), done, scans, failed, threshold),
          DegradedByScans)
    {
      var remaining := scans.Keys;
      done := {};
      ScannedNone(accounts, scans, failed, threshold, now);
      while remaining != {}
        invariant Valid() && remaining <= scans.Keys && done == scans.Keys - remaining <= old(accounts).Keys
        invariant accounts == ScannedAll(old(accounts), done, scans, failed, threshold, now)
        invariant Announces(old(events), events, DegradedNow(old(accounts), done, scans, failed, threshold),
                            DegradedByScans)
        decreases remaining
      {
        var id :| id in remaining;
        ghost var before, degraded := events, DegradedNow(old(accounts), done, scans, failed, threshold);
        var ok := ProcessScan(id, scans[id], failed, now);
        if !ok {
          assert id in scans.Keys && id !in old(accounts);
          assert events == before;
          return false, done;
        }
        ScannedOneMore(old(accounts), done, id, scans, failed, threshold, now);
        DegradedOneMore(old(accounts), done, id, scans, failed, threshold);
        AnnouncesOneMore(old(events), before, events, degraded, id,
                         DegradesNow(old(accounts)[id], scans[id], failed, threshold), DegradedByScans);
        remaining, done := remaining - {id}, done + {id};
      }
      return true, done;
    }

    method UpdateCloudAccountEnabled(id: AccountId, enabled: bool, tier: Tier, onHold: bool)
      returns (error: Option<Error>)
      requires Valid()
      modifies this
      ensures Valid()
      ensures accounts == OrUnchanged(EnabledUpdate(old(accounts), id, enabled, tier, onHold), old(accounts))
      ensures error == None <==> EnabledUpdate(old(accounts), id, enabled, tier, onHold).Ok?
      ensures error == Refusal(old(accounts), id, enabled, tier, onHold)
      ensures events == old(events) + if error == None then [ToggledPublished(id, enabled)] else []
    {
      if id !in accounts {
        return Some(NotFound);
      }
      var count := |Ready(accounts)|;
      if !Switchable(accounts[id]) {
        return Some(WrongState);
      }
      if enabled {
        var limit := tier.Limit();
        if limit.Some? && count >= limit.value {
          return Some(LimitReached);
        }
        if onHold {
          return Some(OnHold);
        }
      }
      accounts := accounts[id := accounts[id].(state := accounts[id].state.(enabled := enabled))];
      events := events + [ToggledPublished(id, enabled)];
      return None;
    }

    /** The task of one account; what it raises is dropped. */
    method DisableAccount(id: AccountId, tier: Tier, onHold: bool)
      requires Valid()
      modifies this
      ensures Valid()
      ensures var switched := id in old(accounts) && Switchable(old(accounts)[id]);
              && accounts
                 == (if switched then old(accounts)[id := SwitchedTo(old(accounts)[id], false)] else old(accounts))
              && events == old(events) + if switched then [ToggledOff(id)] else []
    {
      var _ := UpdateCloudAccountEnabled(id, false, tier, onHold);
    }

    /** One such task per account, in any order. */
    method DisableEach(ids: seq<AccountId>, tier: Tier, onHold: bool)
      requires Valid()
      modifies this
      ensures Valid() && accounts == Disabled(old(accounts), ids)
      ensures Announces(old(events), events, SwitchedOff(old(accounts), Elements(ids)), ToggledOff)
    {
      var remaining := set id | id in ids;
      ghost var done: set<AccountId> := {};
      while remaining != {}
        invariant Valid() && accounts.Keys == old(accounts).Keys
        invariant remaining <= Elements(ids) && done == Elements(ids) - remaining
        invariant forall id <- accounts ::
                    accounts[id] == if id in remaining then old(accounts)[id] else Disabled(old(accounts), ids)[id]
        invariant Announces(old(events), events, SwitchedOff(old(accounts), done), ToggledOff)
        decreases remaining
      {
        var id :| id in remaining;
        ghost var before := events;
        DisableAccount(id, tier, onHold);
        SwitchedOffOneMore(old(accounts), done, id);
        AnnouncesOneMore(old(events), before, events, SwitchedOff(old(accounts), done), id,
                         id in old(accounts) && Switchable(old(accounts)[id]), ToggledOff);
        remaining, done := remaining - {id}, done + {id};
      }
      assert done == Elements(ids);
    }

    /** Disables all but the last `keep` enabled accounts. */
    method DisableCloudAccounts(keep: nat, tier: Tier, onHold: bool)
      requires Valid()
      modifies this
      ensures accounts.Keys == old(accounts).Keys && forall i :: 0 <= i < |listing| ==>
                accounts[listing[i]] == if IsSwitchedOff(listing, old(accounts), keep, i)
                                        then SwitchedTo(old(accounts)[listing[i]], false)
                                        else old(accounts)[listing[i]]
      ensures var ids := DropLast(Disablable(listing, old(accounts)), keep);
              && Valid() && accounts == Disabled(old(accounts), ids)
              && Announces(old(events), events, SwitchedOff(old(accounts), Elements(ids)), ToggledOff)
    {
      DisableEach(DropLast(Disablable(listing, accounts), keep), tier, onHold);
      DisablingExactly(listing, old(accounts), keep);
    }

    /** One try, after those of `front`; what it raises is dropped. */
    method EnableAccount(id: AccountId, tier: Tier, onHold: bool,
                         ghost start: Accounts, ghost before: seq<AccountEvent>, ghost front: seq<AccountId>)
      requires Valid()
      requires accounts == EnabledInOrder(start, front, tier, onHold)
      requires events == before + SwitchedOn(start, front, tier, onHold)
      modifies this
      ensures Valid()
      ensures accounts == EnabledInOrder(start, front + [id], tier, onHold)
      ensures events == before + SwitchedOn(start, front + [id], tier, onHold)
    {
      var _ := UpdateCloudAccountEnabled(id, true, tier, onHold);
      assert (front + [id])[..|front|] == front;
    }

    /** The loop over the accounts that can be enabled; it stops after `tries` of them. */
    method EnableEach(can: seq<AccountId>, tries: Option<nat>, tier: Tier, onHold: bool) returns (idx: nat)
      requires Valid()
      modifies this
      ensures Valid() && idx == if tries.Some? && tries.value < |can| then tries.value else |can|
      ensures accounts == EnabledInOrder(old(accounts), can[..idx], tier, onHold)
      ensures events == old(events) + SwitchedOn(old(accounts), can[..idx], tier, onHold)
    {
      idx := 0;
      while idx < |can|
        invariant 0 <= idx <= |can| && Valid()
        invariant tries.Some? ==> idx <= tries.value
        invariant accounts == EnabledInOrder(old(accounts), can[..idx], tier, onHold)
        invariant events == old(events) + SwitchedOn(old(accounts), can[..idx], tier, onHold)
      {
        if tries.Some? && idx >= tries.value {
          return;
        }
        EnableAccount(can[idx], tier, onHold, old(accounts), old(events), can[..idx]);
        idx := idx + 1;
        assert can[..idx - 1] + [can[idx - 1]] == can[..idx];
      }
    }

    /** Tries to enable what is disabled, in the order of the listing; unpaid tiers get a single try. */
    method EnableCloudAccounts(tier: Tier, onHold: bool)
      requires Valid()
      modifies this
      ensures accounts.Keys == old(accounts).Keys && forall i :: 0 <= i < |listing| ==>
                accounts[listing[i]] == if IsSwitchedOn(listing, old(accounts), tier, onHold, i)
                                        then SwitchedTo(old(accounts)[listing[i]], true)
                                        else old(accounts)[listing[i]]
      ensures events == old(events) + OnEvents(listing, old(accounts), tier, onHold, |listing|)
      ensures tier.paid && !onHold ==>
                || (forall id <- accounts :: !Off(accounts, id))
                || (tier.accountLimit.Some? && 0 < tier.accountLimit.value <= |Ready(accounts)|)
      ensures Valid() && accounts == EnabledInOrder(old(accounts), Tries(listing, old(accounts), tier), tier, onHold)
      ensures events == old(events) + SwitchedOn(old(accounts), Tries(listing, old(accounts), tier), tier, onHold)
    {
      var tries: Option<nat> := if tier.paid then None else Some(1);
      var n := EnableEach(CanBeEnabled(listing, accounts), tries, tier, onHold);
      TriesUpTo(listing, old(accounts), tier, n);
      EnablingExactly(listing, old(accounts), tier, onHold);
      if tier.paid && !onHold {
        EnabledOrLimitReached(listing, old(accounts), tier);
      }
    }

    method DeleteCloudAccount(id: AccountId, now: int)
      requires Valid()
      modifies this
      ensures Valid()
      ensures accounts == if id in old(accounts) then old(accounts)[id := Deletion(old(accounts)[id], now)]
          else old(accounts)
      ensures events == old(events) + if id in old(accounts) then [DeletedPublished(id)] else []
    {
      if id !in accounts {
        return;
      }
      accounts := accounts[id := Deletion(accounts[id], now)];
      events := events + [DeletedPublished(id)];
    }

    method DeleteEach(ids: seq<AccountId>, now: int)
      requires Valid()
      modifies this
      ensures Valid() && accounts == DeletedAll(old(accounts), ids, now)
      ensures Announces(old(events), events, Existing(old(accounts), Elements(ids)), DeletedAccount)
    {
      var remaining := set id | id in ids;
      ghost var done: set<AccountId> := {};
      while remaining != {}
        invariant Valid() && accounts.Keys == old(accounts).Keys
        invariant remaining <= Elements(ids) && done == Elements(ids) - remaining
        invariant forall id <- accounts ::
                    accounts[id] == if id in remaining then old(accounts)[id]
                        else DeletedAll(old(accounts), ids, now)[id]
        invariant Announces(old(events), events, Existing(old(accounts), done), DeletedAccount)
        decreases remaining
      {
        var id :| id in remaining;
        ghost var before := events;
        DeleteCloudAccount(id, now);
        ExistingOneMore(old(accounts), done, id);
        AnnouncesOneMore(old(events), before, events, Existing(old(accounts), done), id, id in old(accounts),
            DeletedAccount);
        remaining, done := remaining - {id}, done + {id};
      }
      assert done == Elements(ids);
    }

    /** The account side of a tier change: delete the surplus, or use the new slots. */
    method ProductTierChanged(newTier: Tier, oldTier: Tier, onHold: bool, now: int)
      requires Valid()
      modifies this
      ensures accounts.Keys == old(accounts).Keys && forall i :: 0 <= i < |listing| ==>
                accounts[listing[i]] == AfterTierChange(listing, old(accounts), newTier, oldTier, onHold, now, i)
      ensures Exceeds(newTier, oldTier) ==>
                events == old(events) + OnEvents(listing, old(accounts), newTier, onHold, |listing|)
      ensures !Exceeds(newTier, oldTier) && !Exceeds(oldTier, newTier) ==>
                accounts == old(accounts) && events == old(events)
      ensures Valid() && accounts == TierChanged(listing, old(accounts), newTier, oldTier, onHold, now)
      ensures if Lowered(newTier, oldTier) then
                var ids := DropLast(NonDeleted(listing, old(accounts)), newTier.Limit().value);
                Announces(old(events), events, Existing(old(accounts), Elements(ids)), DeletedAccount)
              else if newTier.Limit() != oldTier.Limit() then
                events == old(events) + SwitchedOn(old(accounts), Tries(listing, old(accounts), newTier), newTier,
                    onHold)
              else events == old(events)
    {
      var limit, oldLimit := newTier.Limit(), oldTier.Limit();
      if limit.Some? && (oldLimit.None? || limit.value < oldLimit.value) {
        var all := NonDeleted(listing, accounts);
        DeleteEach(DropLast(all, limit.value), now);
      } else if limit != oldLimit {
        EnableCloudAccounts(newTier, onHold);
      }
      LimitsCompared(newTier, oldTier);
      forall i | 0 <= i < |listing|
        ensures accounts[listing[i]] == AfterTierChange(listing, old(accounts), newTier, oldTier, onHold, now, i)
      {
        TierChangeExactly(listing, old(accounts), newTier, oldTier, onHold, now, i);
      }
    }
  }

  function Tries(listing: seq<AccountId>, accounts: Accounts, tier: Tier): seq<AccountId> {
    var can := CanBeEnabled(listing, accounts);
    if tier.paid || |can| <= 1 then can else can[..1]
  }

  lemma TriesUpTo(listing: seq<AccountId>, accounts: Accounts, tier: Tier, n: nat)
    requires var can := CanBeEnabled(listing, accounts); n == |can| || (n < |can| && n == 1 && !tier.paid)
    requires !tier.paid ==> n <= 1
    ensures Tries(listing, accounts, tier) == CanBeEnabled(listing, accounts)[..n]
  {
  }

  predicate Lowered(newTier: Tier, oldTier: Tier) {
    newTier.Limit().Some? && (oldTier.Limit().None? || newTier.Limit().value < oldTier.Limit().value)
  }

  function TierChanged(listing: seq<AccountId>, accounts: Accounts, newTier: Tier, oldTier: Tier, onHold: bool,
                       now: int): Accounts
  {
    if Lowered(newTier, oldTier) then DeletedAll(accounts,
        DropLast(NonDeleted(listing, accounts), newTier.Limit().value), now)
    else if newTier.Limit() != oldTier.Limit() then EnabledInOrder(accounts, Tries(listing, accounts, newTier),
        newTier, onHold)
    else accounts
  }

  // ----- the passes, place by place

  /** The places among the first `n` that a pass switches on. */
  function On(listing: seq<AccountId>, accounts: Accounts, tier: Tier, onHold: bool, n: nat): set<nat>
    requires n <= |listing|
  {
    set i: nat | i < n && IsSwitchedOn(listing, accounts, tier, onHold, i)
  }

  /** Exactly the accounts at the places `on` were switched on. */
  ghost predicate SwitchedAt(listing: seq<AccountId>, accounts: Accounts, on: set<nat>, after: Accounts) {
    && after.Keys == accounts.Keys
    && forall i: nat :: i < |listing| && listing[i] in accounts ==> PlaceAfter(accounts, listing[i], i in on, after)
  }

  predicate PlaceAfter(accounts: Accounts, id: AccountId, switched: bool, after: Accounts)
    requires id in accounts
  {
    id in after &&
    if switched then Off(accounts, id) && after[id] == SwitchedTo(accounts[id], true) else after[id] == accounts[id]
  }

  lemma {:induction false} SwitchedAtOneMore(listing: seq<AccountId>, accounts: Accounts, on: set<nat>, after: Accounts,
                                             n: nat)
    requires Lists(listing, accounts) && n < |listing| && n !in on && Off(accounts, listing[n])
    requires SwitchedAt(listing, accounts, on, after)
    ensures listing[n] in after && after[listing[n]] == accounts[listing[n]]
    ensures SwitchedAt(listing, accounts, on + {n}, after[listing[n] := SwitchedTo(accounts[listing[n]], true)])
  {
    assert PlaceAfter(accounts, listing[n], false, after);
    var after' := after[listing[n] := SwitchedTo(accounts[listing[n]], true)];
    forall i: nat | i < |listing| && listing[i] in accounts
      ensures PlaceAfter(accounts, listing[i], i in on + {n}, after')
    {
      assert PlaceAfter(accounts, listing[i], i in on, after);
    }
  }

  /** How many accounts are collected once `more` of them wanted a slot: the slots fill up to the limit. */
  function Filled(ready: nat, more: nat, limit: Option<nat>): nat {
    if limit == None || ready + more <= limit.value then ready + more
    else if ready <= limit.value then limit.value else ready
  }

  function ReadyBy(listing: seq<AccountId>, accounts: Accounts, tier: Tier, onHold: bool, n: nat): nat
    requires n <= |listing|
  {
    if onHold then |Ready(accounts)|
    else Filled(|Ready(accounts)|, |SlotsBefore(listing, accounts, n)|, tier.Limit())
  }

  lemma TriesOneMore(listing: seq<AccountId>, accounts: Accounts, tier: Tier, n: nat)
    requires n < |listing|
    ensures Tries(listing[..n + 1], accounts, tier)
         == Tries(listing[..n], accounts, tier)
            + if Off(accounts, listing[n]) && (tier.paid || Tries(listing[..n], accounts, tier) == []) then [listing[n]]
              else []
  {
    assert listing[..n + 1][..n] == listing[..n];
  }

  lemma {:induction false} NothingTried(listing: seq<AccountId>, accounts: Accounts, tier: Tier, n: nat)
    requires n <= |listing|
    ensures Tries(listing[..n], accounts, tier) == [] <==> forall j: nat :: j < n ==> !Off(accounts, listing[j])
  {
    if n > 0 {
      NothingTried(listing, accounts, tier, n - 1);
      TriesOneMore(listing, accounts, tier, n - 1);
    }
  }

  lemma SlotsOneMore(listing: seq<AccountId>, accounts: Accounts, n: nat)
    requires n < |listing|
    ensures |SlotsBefore(listing, accounts, n + 1)|
         == |SlotsBefore(listing, accounts, n)|
            + One(Off(accounts, listing[n]) && accounts[listing[n]].state.Configured?)
  {
    var slots := SlotsBefore(listing, accounts, n);
    assert SlotsBefore(listing, accounts, n + 1)
        == if Off(accounts, listing[n]) && accounts[listing[n]].state.Configured? then slots + {n} else slots;
  }

  /** A try at place `n` succeeds exactly when the place is one that is switched on, and takes its slot. */
  lemma {:induction false} TryExactly(listing: seq<AccountId>, accounts: Accounts, tier: Tier, onHold: bool, n: nat,
                                      before: Accounts)
    requires n < |listing| && Off(accounts, listing[n])
    requires tier.paid || forall j: nat :: j < n ==> !Off(accounts, listing[j])
    requires listing[n] in before && before[listing[n]] == accounts[listing[n]]
    requires |Ready(before)| == ReadyBy(listing, accounts, tier, onHold, n)
    ensures var r := EnabledUpdate(before, listing[n], true, tier, onHold);
            && (r.Ok? <==> IsSwitchedOn(listing, accounts, tier, onHold, n))
            && (r.Ok? ==> r.value == before[listing[n] := SwitchedTo(accounts[listing[n]], true)])
            && |Ready(OrUnchanged(r, before))| == ReadyBy(listing, accounts, tier, onHold, n + 1)
  {
    SlotsOneMore(listing, accounts, n);
    ReadyAfterChange(before, listing[n], SwitchedTo(accounts[listing[n]], true));
  }

  lemma EnabledOneMore(accounts: Accounts, ids: seq<AccountId>, id: AccountId, tier: Tier, onHold: bool)
    ensures var before := EnabledInOrder(accounts, ids, tier, onHold);
            var r := EnabledUpdate(before, id, true, tier, onHold);
            && EnabledInOrder(accounts, ids + [id], tier, onHold) == OrUnchanged(r, before)
            && SwitchedOn(accounts, ids + [id], tier, onHold)
               == SwitchedOn(accounts, ids, tier, onHold) + if r.Ok? then [ToggledPublished(id, true)] else []
  {
    assert (ids + [id])[..|ids|] == ids;
  }

  /** After the first `n` places: what was switched on by then, and what was published. */
  ghost predicate PassedTo(listing: seq<AccountId>, accounts: Accounts, tier: Tier, onHold: bool, n: nat,
                           tries: seq<AccountId>)
    requires n <= |listing|
  {
    && SwitchedAt(listing, accounts, On(listing, accounts, tier, onHold, n),
                  EnabledInOrder(accounts, tries, tier, onHold))
    && SwitchedOn(accounts, tries, tier, onHold) == OnEvents(listing, accounts, tier, onHold, n)
  }

  lemma {:induction false} PassOneMore(listing: seq<AccountId>, accounts: Accounts, tier: Tier, onHold: bool, n: nat,
                                       tries: seq<AccountId>)
    requires Lists(listing, accounts) && n < |listing| && Off(accounts, listing[n])
    requires tier.paid || forall j: nat :: j < n ==> !Off(accounts, listing[j])
    requires PassedTo(listing, accounts, tier, onHold, n, tries)
    requires |Ready(EnabledInOrder(accounts, tries, tier, onHold))| == ReadyBy(listing, accounts, tier, onHold, n)
    ensures PassedTo(listing, accounts, tier, onHold, n + 1, tries + [listing[n]])
    ensures |Ready(EnabledInOrder(accounts, tries + [listing[n]], tier, onHold))|
         == ReadyBy(listing, accounts, tier, onHold, n + 1)
  {
    var on := On(listing, accounts, tier, onHold, n);
    var before := EnabledInOrder(accounts, tries, tier, onHold);
    SwitchedAtOneMore(listing, accounts, on, before, n);
    TryExactly(listing, accounts, tier, onHold, n, before);
    EnabledOneMore(accounts, tries, listing[n], tier, onHold);
    OnOneMore(listing, accounts, tier, onHold, n);
  }

  lemma OnOneMore(listing: seq<AccountId>, accounts: Accounts, tier: Tier, onHold: bool, n: nat)
    requires n < |listing|
    ensures On(listing, accounts, tier, onHold, n + 1)
         == On(listing, accounts, tier, onHold, n)
            + if IsSwitchedOn(listing, accounts, tier, onHold, n) then {n} else {}
  {
  }

  lemma {:induction false} PassUpTo(listing: seq<AccountId>, accounts: Accounts, tier: Tier, onHold: bool, n: nat)
    requires Lists(listing, accounts) && n <= |listing|
    ensures var tries := Tries(listing[..n], accounts, tier);
            && PassedTo(listing, accounts, tier, onHold, n, tries)
            && (tier.paid || tries == [] ==>
                  |Ready(EnabledInOrder(accounts, tries, tier, onHold))|
                  == ReadyBy(listing, accounts, tier, onHold, n))
  {
    if n == 0 {
      assert SlotsBefore(listing, accounts, 0) == {} && On(listing, accounts, tier, onHold, 0) == {};
    } else {
      var m := n - 1;
      var tries := Tries(listing[..m], accounts, tier);
      PassUpTo(listing, accounts, tier, onHold, m);
      TriesOneMore(listing, accounts, tier, m);
      NothingTried(listing, accounts, tier, m);
      if Off(accounts, listing[m]) && (tier.paid || tries == []) {
        PassOneMore(listing, accounts, tier, onHold, m, tries);
      } else {
        assert tries + [] == tries;
        NothingAtPlace(listing, accounts, tier, onHold, m);
      }
    }
  }

  lemma {:induction false} NothingAtPlace(listing: seq<AccountId>, accounts: Accounts, tier: Tier, onHold: bool, n: nat)
    requires n < |listing|
    requires Off(accounts, listing[n]) ==> !tier.paid && exists j: nat :: j < n && Off(accounts, listing[j])
    ensures On(listing, accounts, tier, onHold, n + 1) == On(listing, accounts, tier, onHold, n)
    ensures OnEvents(listing, accounts, tier, onHold, n + 1) == OnEvents(listing, accounts, tier, onHold, n)
    ensures !Off(accounts, listing[n]) ==>
              ReadyBy(listing, accounts, tier, onHold, n + 1) == ReadyBy(listing, accounts, tier, onHold, n)
  {
    OnOneMore(listing, accounts, tier, onHold, n);
    SlotsOneMore(listing, accounts, n);
  }

  /** What an enable pass does to each account of the listing, and what it publishes. */
  lemma {:induction false} EnablingExactly(listing: seq<AccountId>, accounts: Accounts, tier: Tier, onHold: bool)
    requires Lists(listing, accounts)
    ensures var tries := Tries(listing, accounts, tier);
            var after := EnabledInOrder(accounts, tries, tier, onHold);
            && (forall i: nat :: i < |listing| ==>
                  after[listing[i]] == if IsSwitchedOn(listing, accounts, tier, onHold, i)
                                       then SwitchedTo(accounts[listing[i]], true) else accounts[listing[i]])
            && SwitchedOn(accounts, tries, tier, onHold) == OnEvents(listing, accounts, tier, onHold, |listing|)
  {
    var after := EnabledInOrder(accounts, Tries(listing, accounts, tier), tier, onHold);
    assert listing[..|listing|] == listing;
    PassUpTo(listing, accounts, tier, onHold, |listing|);
    forall i: nat | i < |listing|
      ensures after[listing[i]] == if IsSwitchedOn(listing, accounts, tier, onHold, i)
                                   then SwitchedTo(accounts[listing[i]], true) else accounts[listing[i]]
    {
      var on := On(listing, accounts, tier, onHold, |listing|);
      assert PlaceAfter(accounts, listing[i], i in on, after);
    }
  }

  /** On a paid tier without a hold every configured or degraded account ends up enabled, or the limit is reached. */
  lemma {:induction false} EnabledOrLimitReached(listing: seq<AccountId>, accounts: Accounts, tier: Tier)
    requires Lists(listing, accounts) && tier.paid
    ensures var after := EnabledInOrder(accounts, Tries(listing, accounts, tier), tier, false);
            || (forall id <- after :: !Off(after, id))
            || (tier.accountLimit.Some? && 0 < tier.accountLimit.value <= |Ready(after)|)
  {
    var after := EnabledInOrder(accounts, Tries(listing, accounts, tier), tier, false);
    assert listing[..|listing|] == listing;
    PassUpTo(listing, accounts, tier, false, |listing|);
    EnablingExactly(listing, accounts, tier, false);
    if id :| id in after && Off(after, id) {
      assert id in listing;
      var i: nat :| i < |listing| && listing[i] == id;
      LimitLeavesOff(listing, accounts, tier, i);
    }
  }

  lemma {:induction false} LimitLeavesOff(listing: seq<AccountId>, accounts: Accounts, tier: Tier, i: nat)
    requires i < |listing| && tier.paid && Off(accounts, listing[i])
    requires !IsSwitchedOn(listing, accounts, tier, false, i)
    ensures tier.accountLimit.Some?
    ensures 0 < tier.accountLimit.value <= ReadyBy(listing, accounts, tier, false, |listing|)
  {
    SubsetSize(SlotsBefore(listing, accounts, i), SlotsBefore(listing, accounts, |listing|));
  }

  function LaterWith(xs: seq<AccountId>, p: AccountId -> bool, i: nat): set<nat> {
    set j: nat | i < j < |xs| && p(xs[j])
  }

  lemma LaterWithOneMore(front: seq<AccountId>, last: AccountId, p: AccountId -> bool, i: nat)
    requires i < |front|
    ensures |LaterWith(front + [last], p, i)| == |LaterWith(front, p, i)| + One(p(last))
  {
    assert LaterWith(front + [last], p, i) == LaterWith(front, p, i) + if p(last) then {|front|} else {};
  }

  lemma DropLastOneMore<T>(xs: seq<T>, x: T, k: nat)
    requires 0 < k
    ensures DropLast(xs + [x], k) == if k == 1 then xs else DropLast(xs, k - 1)
  {
  }

  /** An element that passes the filter is dropped when at least `keep` later ones pass as well. */
  lemma {:induction false} DroppedExactly(xs: seq<AccountId>, p: AccountId -> bool, keep: nat, i: nat)
    requires Distinct(xs) && i < |xs| && 0 < keep
    ensures xs[i] in DropLast(Filter(xs, p), keep) <==> p(xs[i]) && keep <= |LaterWith(xs, p, i)|
  {
    var front, last := xs[..|xs| - 1], xs[|xs| - 1];
    var filtered := Filter(front, p);
    assert xs == front + [last];
    FilterElements(front, p);
    if p(last) {
      DropLastOneMore(filtered, last, keep);
    } else {
      assert filtered + [] == filtered;
    }
    if i == |front| {
      assert LaterWith(xs, p, i) == {} && last !in filtered;
    } else {
      LaterWithOneMore(front, last, p, i);
      if !p(last) {
        DroppedExactly(front, p, keep, i);
      } else if keep > 1 {
        DroppedExactly(front, p, keep - 1, i);
      }
    }
  }

  /** Disabling all but the last accounts, place by place. */
  lemma {:induction false} DisablingExactly(listing: seq<AccountId>, accounts: Accounts, keep: nat)
    requires Lists(listing, accounts)
    ensures var after := Disabled(accounts, DropLast(Disablable(listing, accounts), keep));
            forall i: nat :: i < |listing| ==>
              after[listing[i]] == if IsSwitchedOff(listing, accounts, keep, i)
                                   then SwitchedTo(accounts[listing[i]], false) else accounts[listing[i]]
  {
    var ids := DropLast(Disablable(listing, accounts), keep);
    forall i: nat | i < |listing|
      ensures Disabled(accounts, ids)[listing[i]] == if IsSwitchedOff(listing, accounts, keep, i)
                                                     then SwitchedTo(accounts[listing[i]], false)
                                                     else accounts[listing[i]]
    {
      if keep > 0 {
        DisabledPlace(listing, accounts, keep, i);
      }
    }
  }

  lemma {:induction false} DisabledPlace(listing: seq<AccountId>, accounts: Accounts, keep: nat, i: nat)
    requires Lists(listing, accounts) && i < |listing| && 0 < keep
    ensures listing[i] in DropLast(Disablable(listing, accounts), keep)
       <==> listing[i] in accounts && accounts[listing[i]].state.Access() != None && accounts[listing[i]].state.enabled
            && keep <= |EnabledAfter(listing, accounts, i)|
  {
    var p := id => id in accounts && accounts[id].state.Access() != None && accounts[id].state.enabled;
    DroppedExactly(listing, p, keep, i);
    assert LaterWith(listing, p, i) == EnabledAfter(listing, accounts, i);
    assert Disablable(listing, accounts) == Filter(listing, p);
  }

  /** Deleting the surplus, place by place. */
  lemma {:induction false} DeletingExactly(listing: seq<AccountId>, accounts: Accounts, newTier: Tier, oldTier: Tier,
                                           now: int)
    requires Lists(listing, accounts) && Lowered(newTier, oldTier)
    ensures var after := DeletedAll(accounts, DropLast(NonDeleted(listing, accounts), newTier.Limit().value), now);
            forall i: nat :: i < |listing| ==>
              after[listing[i]] == if IsSurplus(listing, accounts, newTier, oldTier, i)
                                   then Deletion(accounts[listing[i]], now) else accounts[listing[i]]
  {
    forall i: nat | i < |listing|
      ensures listing[i] in DropLast(NonDeleted(listing, accounts), newTier.Limit().value)
         <==> IsSurplus(listing, accounts, newTier, oldTier, i)
    {
      DeletedPlace(listing, accounts, newTier.Limit().value, i);
    }
  }

  lemma {:induction false} DeletedPlace(listing: seq<AccountId>, accounts: Accounts, keep: nat, i: nat)
    requires Lists(listing, accounts) && i < |listing| && 0 < keep
    ensures listing[i] in DropLast(NonDeleted(listing, accounts), keep)
       <==> listing[i] in accounts && !accounts[listing[i]].state.Deleted?
            && keep <= |PresentAfter(listing, accounts, i)|
  {
    var p := id => id in accounts && !accounts[id].state.Deleted?;
    DroppedExactly(listing, p, keep, i);
    assert LaterWith(listing, p, i) == PresentAfter(listing, accounts, i);
    assert NonDeleted(listing, accounts) == Filter(listing, p);
  }

  lemma LimitsCompared(newTier: Tier, oldTier: Tier)
    ensures Lowered(newTier, oldTier) <==> Exceeds(oldTier, newTier)
    ensures !Lowered(newTier, oldTier) && newTier.Limit() != oldTier.Limit() <==> Exceeds(newTier, oldTier)
    ensures !(Exceeds(newTier, oldTier) && Exceeds(oldTier, newTier))
  {
  }

  /** A tier change, place by place. */
  lemma {:induction false} TierChangeExactly(listing: seq<AccountId>, accounts: Accounts, newTier: Tier, oldTier: Tier,
                                             onHold: bool, now: int, i: nat)
    requires Lists(listing, accounts) && i < |listing|
    ensures TierChanged(listing, accounts, newTier, oldTier, onHold, now)[listing[i]]
         == AfterTierChange(listing, accounts, newTier, oldTier, onHold, now, i)
  {
    LimitsCompared(newTier, oldTier);
    if Lowered(newTier, oldTier) {
      DeletingExactly(listing, accounts, newTier, oldTier, now);
    } else if newTier.Limit() != oldTier.Limit() {
      EnablingExactly(listing, accounts, newTier, onHold);
    }
  }

  // ----- the limits

  lemma ElementsOfShortSeq<T>(xs: seq<T>, s: set<T>)
    requires forall x <- s :: x in xs
    ensures |s| <= |xs|
    decreases |xs|
  {
    if xs != [] {
      var last := xs[|xs| - 1];
      var front := xs[..|xs| - 1];
      assert xs == front + [last];
      ElementsOfShortSeq(front, s - {last});
      if last in s {
        assert |s| == |s - {last}| + 1;
      } else {
        assert s - {last} == s;
      }
    }
  }

  /** Whatever the order of the tasks, disabling with keep >= 1 leaves at most `keep` configured or degraded accounts
      enabled, all of them among the last `keep` enabled ones of the listing; accounts only ever lose their flag. */
  lemma DisablingKeepsTheLast(listing: seq<AccountId>, accounts: Accounts, keep: nat)
    requires Lists(listing, accounts) && 1 <= keep
    ensures var enabled := Disablable(listing, accounts);
            var after := Disabled(accounts, DropLast(enabled, keep));
            && (forall id <- StillEnabled(after) :: id in TakeLast(enabled, keep) && after[id] == accounts[id])
            && |StillEnabled(after)| <= keep
  {
    var enabled := Disablable(listing, accounts);
    var after := Disabled(accounts, DropLast(enabled, keep));
    forall id <- StillEnabled(after) ensures id in TakeLast(enabled, keep) && after[id] == accounts[id] {
      StillEnabledIsTaken(listing, accounts, DropLast(enabled, keep), id);
      DroppedOrTaken(enabled, keep, id);
    }
    ElementsOfShortSeq(TakeLast(enabled, keep), StillEnabled(after));
  }

  lemma StillEnabledIsTaken(listing: seq<AccountId>, accounts: Accounts, ids: seq<AccountId>, id: AccountId)
    requires Lists(listing, accounts) && id in StillEnabled(Disabled(accounts, ids))
    ensures id in Disablable(listing, accounts) && id !in ids && Disabled(accounts, ids)[id] == accounts[id]
  {
    FilterElements(listing, id => id in accounts && accounts[id].state.Access() != None && accounts[id].state.enabled);
  }

  function StillEnabled(accounts: Accounts): set<AccountId> {
    set id | id in accounts && Switchable(accounts[id]) && accounts[id].state.enabled
  }

  lemma DroppedOrTaken(xs: seq<AccountId>, k: nat, x: AccountId)
    requires x in xs && 1 <= k
    ensures x in DropLast(xs, k) || x in TakeLast(xs, k)
  {
    if k < |xs| {
      assert xs == DropLast(xs, k) + TakeLast(xs, k);
    }
  }

  /** Keeping none disables none: the slice up to -0 is empty. */
  lemma KeepingNoneDisablesNone(listing: seq<AccountId>, accounts: Accounts)
    ensures Disabled(accounts, DropLast(Disablable(listing, accounts), 0)) == accounts
  {
  }

  lemma {:induction false} FilterTwice(xs: seq<AccountId>, p: AccountId -> bool, q: AccountId -> bool,
                                       r: AccountId -> bool)
    requires forall x <- xs :: r(x) <==> p(x) && q(x)
    ensures Filter(xs, r) == Filter(Filter(xs, p), q)
  {
    if xs != [] {
      var front, last := xs[..|xs| - 1], xs[|xs| - 1];
      FilterTwice(front, p, q, r);
      if p(last) {
        assert (Filter(front, p) + [last])[..|Filter(front, p)|] == Filter(front, p);
      } else {
        assert Filter(xs, p) == Filter(front, p);
      }
    }
  }

  lemma FilterAfterDeletion(listing: seq<AccountId>, accounts: Accounts, ids: seq<AccountId>, now: int)
    requires Lists(listing, accounts)
    ensures NonDeleted(listing, DeletedAll(accounts, ids, now)) ==
        Filter(NonDeleted(listing, accounts), id => id !in ids)
  {
    var after := DeletedAll(accounts, ids, now);
    FilterTwice(listing, id => id in accounts && !accounts[id].state.Deleted?, id => id !in ids,
                id => id in after && !after[id].state.Deleted?);
  }

  lemma {:induction false} FilterOutPrefix(xs: seq<AccountId>, n: nat, k: nat)
    requires Distinct(xs) && n <= k <= |xs|
    ensures Filter(xs[..k], id => id !in xs[..n]) == xs[n..k]
    decreases k
  {
    if k > n {
      FilterOutPrefix(xs, n, k - 1);
      assert xs[..k][..k - 1] == xs[..k - 1] && xs[..k][k - 1] == xs[k - 1];
      assert xs[k - 1] !in xs[..n];
      assert xs[n..k] == xs[n..k - 1] + [xs[k - 1]];
    } else {
      NothingLeft(xs[..n], xs[..n]);
    }
  }

  lemma {:induction false} NothingLeft(xs: seq<AccountId>, ys: seq<AccountId>)
    requires forall x <- xs :: x in ys
    ensures Filter(xs, id => id !in ys) == []
  {
    if xs != [] {
      NothingLeft(xs[..|xs| - 1], ys);
    }
  }

  lemma {:induction false} FilterKeepsDistinct(xs: seq<AccountId>, p: AccountId -> bool)
    requires Distinct(xs)
    ensures Distinct(Filter(xs, p))
  {
    if xs != [] {
      FilterKeepsDistinct(xs[..|xs| - 1], p);
      FilterElements(xs[..|xs| - 1], p);
    }
  }

  /** A lowered limit leaves exactly the last `limit` accounts of the listing that were not deleted. */
  lemma DowngradeLeavesTheLimit(listing: seq<AccountId>, accounts: Accounts, newTier: Tier, oldTier: Tier,
                                onHold: bool, now: int)
    requires Lists(listing, accounts) && Lowered(newTier, oldTier)
    ensures var all := NonDeleted(listing, accounts);
            var after := TierChanged(listing, accounts, newTier, oldTier, onHold, now);
            && NonDeleted(listing, after) == TakeLast(all, newTier.Limit().value)
            && |NonDeleted(listing, after)| == if |all| < newTier.Limit().value then |all| else newTier.Limit().value
  {
    DeletingKeepsTheLast(listing, accounts, newTier.Limit().value, now);
  }

  lemma {:induction false} DeletingKeepsTheLast(listing: seq<AccountId>, accounts: Accounts, keep: nat, now: int)
    requires Lists(listing, accounts) && 0 < keep
    ensures var all := NonDeleted(listing, accounts);
            NonDeleted(listing, DeletedAll(accounts, DropLast(all, keep), now)) == TakeLast(all, keep)
  {
    var all := NonDeleted(listing, accounts);
    var ids := DropLast(all, keep);
    FilterKeepsDistinct(listing, id => id in accounts && !accounts[id].state.Deleted?);
    FilterAfterDeletion(listing, accounts, ids, now);
    var n := |ids|;
    assert ids == all[..n] && all[..|all|] == all;
    FilterOutPrefix(all, n, |all|);
  }

  /** Trying to enable accounts never raises the number of collected accounts above the limit, or above what it was. */
  lemma {:induction false} EnablingStaysWithinTheLimit(accounts: Accounts, ids: seq<AccountId>, tier: Tier,
                                                       onHold: bool)
    requires tier.Limit().Some?
    ensures var after := EnabledInOrder(accounts, ids, tier, onHold);
            |Ready(after)| <= |Ready(accounts)| || |Ready(after)| <= tier.Limit().value
  {
    if ids != [] {
      var before := EnabledInOrder(accounts, ids[..|ids| - 1], tier, onHold);
      var id := ids[|ids| - 1];
      EnablingStaysWithinTheLimit(accounts, ids[..|ids| - 1], tier, onHold);
      var r := EnabledUpdate(before, id, true, tier, onHold);
      if r.Ok? {
        assert Ready(r.value) <= Ready(before) + {id};
        ElementsOfShortSet(Ready(r.value), Ready(before), id);
      }
    }
  }

  lemma ElementsOfShortSet<T>(s: set<T>, t: set<T>, x: T)
    requires s <= t + {x}
    ensures |s| <= |t| + 1
  {
    SubsetSize(s - {x}, t);
    if x in s {
      assert |s| == |s - {x}| + 1;
    } else {
      assert s - {x} == s;
    }
  }

  /** Only an account that is tried can change, and of it only the enabled flag; without a limit and without a hold on
      the payment every configured or degraded account that is tried gets enabled, and with a hold none does. */
  lemma {:induction false} EnablingTouchesOnlyTheFlag(accounts: Accounts, ids: seq<AccountId>, tier: Tier,
                                                      onHold: bool, id: AccountId)
    requires id in accounts
    ensures var before, after := accounts[id], EnabledInOrder(accounts, ids, tier, onHold)[id];
            && (after == before || (id in ids && Some(after) == EnabledSet(before, true)))
            && (tier.Limit() == None && !onHold && id in ids && Switchable(before) ==>
                Some(after) == EnabledSet(before, true))
            && (onHold ==> after == before)
  {
    if ids != [] {
      var front, last := ids[..|ids| - 1], ids[|ids| - 1];
      EnablingTouchesOnlyTheFlag(accounts, front, tier, onHold, id);
      assert id in ids <==> id in front || id == last;
    }
  }

  /** On an unpaid tier a pass newly enables at most one account. */
  lemma UnpaidEnablesAtMostOne(listing: seq<AccountId>, accounts: Accounts, tier: Tier, onHold: bool)
    requires !tier.paid
    ensures |Changed(accounts, EnabledInOrder(accounts, Tries(listing, accounts, tier), tier, onHold))| <= 1
  {
    var tries := Tries(listing, accounts, tier);
    var after := EnabledInOrder(accounts, tries, tier, onHold);
    forall id <- Changed(accounts, after) ensures id in tries {
      EnablingTouchesOnlyTheFlag(accounts, tries, tier, onHold, id);
    }
    ElementsOfShortSeq(tries, Changed(accounts, after));
  }

  function Changed(accounts: Accounts, after: Accounts): set<AccountId> {
    set id | id in accounts && id in after && after[id] != accounts[id]
  }

  function One(b: bool): nat { if b then 1 else 0 }

  lemma ReadyAfterChange(accounts: Accounts, id: AccountId, a: Account)
    ensures |Ready(accounts[id := a])|
         == |Ready(accounts)| - One(id in accounts && accounts[id].ReadyForCollection()) + One(a.ReadyForCollection())
  {
    var rest := Ready(accounts) - {id};
    assert Ready(accounts[id := a]) == if a.ReadyForCollection() then rest + {id} else rest;
    assert id in Ready(accounts) <==> id in accounts && accounts[id].ReadyForCollection();
    SizeWithout(Ready(accounts), id);
  }

  lemma SizeWithout<T>(s: set<T>, x: T)
    ensures |s - {x}| == |s| - One(x in s)
  {
    if x !in s {
      assert s - {x} == s;
    }
  }

  /** The limit is checked when an account is switched on, not when a degraded one recovers: undegrading raises the
      number of collected accounts exactly when the account was degraded and enabled. */
  lemma UndegradingCountsExactly(accounts: Accounts, id: AccountId, now: int)
    requires id in accounts
    ensures var after := accounts[id := Undegrade(accounts[id], now)];
            |Ready(after)| == |Ready(accounts)| + if accounts[id].state.Degraded? &&
                accounts[id].state.enabled then 1 else 0
  {
    ReadyAfterChange(accounts, id, Undegrade(accounts[id], now));
  }

  /** So a limit of one can be exceeded: degrade the collected account, switch on another one, and let the first
      recover. */
  lemma RecoveryExceedsTheLimit(a: Account, b: Account, tier: Tier, error: string)
    requires a.state.Configured? && a.state.enabled && b.state.Configured? && !b.state.enabled
    requires tier == Tier(false, Some(1))
    ensures var start: Accounts := map[1 := a, 2 := b];
            var degraded := start[1 := Degrade(a, error, 1)];
            var switched := OrUnchanged(EnabledUpdate(degraded, 2, true, tier, false), degraded);
            |Ready(start)| == 1 && |Ready(switched)| == 1 && |Ready(switched[1 := Undegrade(switched[1], 2)])| == 2
  {
    var start: Accounts := map[1 := a, 2 := b];
    var degraded := start[1 := Degrade(a, error, 1)];
    assert Ready(start) == {1};
    assert Ready(degraded) == {};
    var switched := OrUnchanged(EnabledUpdate(degraded, 2, true, tier, false), degraded);
    assert Ready(switched) == {2};
    UndegradingCountsExactly(switched, 1, 2);
  }
}
