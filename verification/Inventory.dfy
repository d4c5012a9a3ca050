/**
  Usage per resource kind, accumulated over accounts and regions, and the merge of values by the rank of their keys.
 */
module Inventory {

  datatype Kind = Kind(name: string)
  datatype Region = Region(id: string)
  datatype AccountId = AccountId(id: string)
  datatype CloudId = CloudId(id: string)

  datatype AccountSummary = AccountSummary(
    accountId: AccountId, cloudId: CloudId, count: map<Kind, int>, regions: map<Region, map<Kind, int>>)
  {
    function ForRegions(wanted: seq<Region>): AccountSummary {
      this.(regions := map r | r in regions && r in wanted :: regions[r])
    }

    function ForKinds(wanted: seq<Kind>): AccountSummary {
      this.(count := map k | k in count && k in wanted :: count[k],
            regions := map r | r in regions :: map k | k in regions[r] && k in wanted :: regions[r][k])
    }

    /** The kinds counted per region, possibly with zero, and the regions that count one of them. */
    function Kinds(): set<Kind> { set r, k | r in regions && k in regions[r] :: k }

    function RegionsOf(k: Kind): set<Region> { set r | r in regions && k in regions[r] }

    /** The counts of one kind, region by region. */
    function Column(k: Kind): map<Region, int> { map r | r in regions && k in regions[r] :: regions[r][k] }

    function Cell(k: Kind, r: Region): int { if r in regions && k in regions[r] then regions[r][k] else 0 }

    function Count(k: Kind): int { if k in count then count[k] else 0 }
  }

  datatype KindUsage = KindUsage(accounts: nat, regions: nat, resources: int)

  // ----- the filters; an empty one selects everything

  function Selected(summary: seq<AccountSummary>, cloudIds: seq<CloudId>, accountIds: seq<AccountId>,
                    regionIds: seq<Region>, kinds: seq<Kind>): seq<AccountSummary> {
    if summary == [] then []
    else
      var last := summary[|summary| - 1];
      var byRegion := if regionIds == [] then last else last.ForRegions(regionIds);
      var byKind := if kinds == [] then byRegion else byRegion.ForKinds(kinds);
      var front := Selected(summary[..|summary| - 1], cloudIds, accountIds, regionIds, kinds);
      if (cloudIds == [] || last.cloudId in cloudIds) &&
          (accountIds == [] || last.accountId in accountIds) then front + [byKind]
      else front
  }

  // ----- the definitions the loops are measured against

  function AccountTotal(accounts: seq<AccountSummary>, k: Kind): int {
    if accounts == [] then 0 else AccountTotal(accounts[..|accounts| - 1], k) + accounts[|accounts| - 1].Count(k)
  }

  function CellTotal(accounts: seq<AccountSummary>, k: Kind, r: Region): int {
    if accounts == [] then 0 else CellTotal(accounts[..|accounts| - 1], k, r) + accounts[|accounts| - 1].Cell(k, r)
  }

  function CountedKinds(accounts: seq<AccountSummary>): set<Kind> {
    if accounts == [] then {} else CountedKinds(accounts[..|accounts| - 1]) + accounts[|accounts| - 1].count.Keys
  }

  function RegionKinds(accounts: seq<AccountSummary>): set<Kind> {
    if accounts == [] then {} else RegionKinds(accounts[..|accounts| - 1]) + accounts[|accounts| - 1].Kinds()
  }

  /** The distinct regions, and the distinct accounts, that count a kind per region. */
  function RegionsWith(accounts: seq<AccountSummary>, k: Kind): set<Region> {
    if accounts == [] then {} else RegionsWith(accounts[..|accounts| - 1], k) + accounts[|accounts| - 1].RegionsOf(k)
  }

  function AccountsWith(accounts: seq<AccountSummary>, k: Kind): set<AccountId> {
    if accounts == [] then {}
    else
      var last := accounts[|accounts| - 1];
      AccountsWith(accounts[..|accounts| - 1], k) + if k in last.Kinds() then {last.accountId} else {}
  }

  // ----- the loops

  datatype Usage = Usage(
    accountUsage: map<Kind, int>,
    regionUsage: map<Kind, map<Region, int>>,
    accountRegionUsage: map<Kind, set<AccountId>>)

  /** Each accumulator holds what its definition says about `accounts`. */
  ghost predicate CountsAgree(u: Usage, accounts: seq<AccountSummary>) {
    && u.accountUsage.Keys == CountedKinds(accounts)
    && forall k <- u.accountUsage :: u.accountUsage[k] == AccountTotal(accounts, k)
  }

  ghost predicate KindAgrees(row: map<Region, int>, ids: set<AccountId>, accounts: seq<AccountSummary>, k: Kind) {
    && row.Keys == RegionsWith(accounts, k)
    && ids == AccountsWith(accounts, k)
    && forall r <- row :: row[r] == CellTotal(accounts, k, r)
  }

  ghost predicate RegionsAgree(u: Usage, accounts: seq<AccountSummary>) {
    && u.regionUsage.Keys == u.accountRegionUsage.Keys == RegionKinds(accounts)
    && forall k :: KindAgrees(Row(u, k), AccountRow(u, k), accounts, k)
  }

  function Get<K>(m: map<K, int>, k: K): int { if k in m then m[k] else 0 }

  function Row(u: Usage, k: Kind): map<Region, int> { if k in u.regionUsage then u.regionUsage[k] else map[] }

  function AccountRow(u: Usage,
                      k: Kind): set<AccountId> { if k in u.accountRegionUsage then u.accountRegionUsage[k] else {} }

  /** `a` with one more cell: the state of the inner loop as an account summary. */
  function WithCell(a: AccountSummary, r: Region, k: Kind, count: int): AccountSummary
    requires r in a.regions
  {
    a.(regions := a.regions[r := a.regions[r][k := count]])
  }

  lemma KindsOfAppend(front: seq<AccountSummary>, a: AccountSummary)
    ensures CountedKinds(front + [a]) == CountedKinds(front) + a.count.Keys
    ensures RegionKinds(front + [a]) == RegionKinds(front) + a.Kinds()
  {
    assert (front + [a])[..|front|] == front;
  }

  lemma KindOfAppend(front: seq<AccountSummary>, a: AccountSummary, k: Kind)
    ensures RegionsWith(front + [a], k) == RegionsWith(front, k) + a.RegionsOf(k)
    ensures AccountsWith(front + [a], k) == AccountsWith(front, k) + if k in a.Kinds() then {a.accountId} else {}
    ensures forall r :: CellTotal(front + [a], k, r) == CellTotal(front, k, r) + a.Cell(k, r)
  {
    assert (front + [a])[..|front|] == front;
  }

  lemma CellSets(a: AccountSummary, r: Region, k: Kind, count: int, k': Kind)
    requires r in a.regions
    ensures WithCell(a, r, k, count).Kinds() == a.Kinds() + {k}
    ensures WithCell(a, r, k, count).RegionsOf(k') == a.RegionsOf(k') + if k' == k then {r} else {}
  {
    var b := WithCell(a, r, k, count);
    assert r in b.regions && k in b.regions[r];
    forall k' | k' in a.Kinds() ensures k' in b.Kinds() {
      var r' :| r' in a.regions && k' in a.regions[r'];
      assert r' in b.regions && k' in b.regions[r'];
    }
  }

  lemma {:induction false} NothingToTotal(accounts: seq<AccountSummary>, k: Kind, r: Region)
    requires r !in RegionsWith(accounts, k)
    ensures CellTotal(accounts, k, r) == 0
  {
    if accounts != [] {
      assert r !in accounts[|accounts| - 1].RegionsOf(k);
      NothingToTotal(accounts[..|accounts| - 1], k, r);
    }
  }

  lemma CellKeepsOtherKind(row: map<Region, int>, ids: set<AccountId>, front: seq<AccountSummary>, a: AccountSummary,
                           r: Region, k: Kind, count: int, k': Kind)
    requires r in a.regions && k != k' && KindAgrees(row, ids, front + [a], k')
    ensures KindAgrees(row, ids, front + [WithCell(a, r, k, count)], k')
  {
    KindOfAppend(front, a, k');
    KindOfAppend(front, WithCell(a, r, k, count), k');
    CellSets(a, r, k, count, k');
  }

  lemma CellKeepsKind(row: map<Region, int>, ids: set<AccountId>, front: seq<AccountSummary>, a: AccountSummary,
                      r: Region, k: Kind, count: int)
    requires r in a.regions && k !in a.regions[r] && KindAgrees(row, ids, front + [a], k)
    ensures KindAgrees(row[r := Get(row, r) + count], ids + {a.accountId}, front + [WithCell(a, r, k, count)], k)
  {
    var b := WithCell(a, r, k, count);
    KindOfAppend(front, a, k);
    KindOfAppend(front, b, k);
    CellSets(a, r, k, count, k);
    if r !in row {
      NothingToTotal(front + [a], k, r);
    }
    assert forall r' :: b.Cell(k, r') == a.Cell(k, r') + if r' == r then count else 0;
  }

  function AddedCell(u: Usage, a: AccountId, r: Region, k: Kind, count: int): Usage {
    Usage(u.accountUsage,
          u.regionUsage[k := Row(u, k)[r := Get(Row(u, k), r) + count]],
          u.accountRegionUsage[k := AccountRow(u, k) + {a}])
  }

  lemma RowsAfterCell(u: Usage, a: AccountId, r: Region, k: Kind, count: int, k': Kind)
    ensures Row(AddedCell(u, a, r, k, count), k') == if k' == k then Row(u, k)[r := Get(Row(u, k), r) + count]
        else Row(u, k')
    ensures AccountRow(AddedCell(u, a, r, k, count), k') == if k' == k then AccountRow(u, k) + {a}
        else AccountRow(u, k')
  {
  }

  lemma KindAfterCell(u: Usage, front: seq<AccountSummary>, a: AccountSummary, r: Region, k: Kind, count: int, k': Kind)
    requires r in a.regions && k !in a.regions[r]
    requires KindAgrees(Row(u, k'), AccountRow(u, k'), front + [a], k')
    ensures var u' := AddedCell(u, a.accountId, r, k, count);
            KindAgrees(Row(u', k'), AccountRow(u', k'), front + [WithCell(a, r, k, count)], k')
  {
    RowsAfterCell(u, a.accountId, r, k, count, k');
    if k' == k {
      CellKeepsKind(Row(u, k), AccountRow(u, k), front, a, r, k, count);
    } else {
      CellKeepsOtherKind(Row(u, k'), AccountRow(u, k'), front, a, r, k, count, k');
    }
  }

  lemma CellKeepsAgreement(u: Usage, front: seq<AccountSummary>, a: AccountSummary, r: Region, k: Kind, count: int)
    requires r in a.regions && k !in a.regions[r] && RegionsAgree(u, front + [a])
    ensures RegionsAgree(AddedCell(u, a.accountId, r, k, count), front + [WithCell(a, r, k, count)])
  {
    var u', b := AddedCell(u, a.accountId, r, k, count), WithCell(a, r, k, count);
    forall k' ensures KindAgrees(Row(u', k'), AccountRow(u', k'), front + [b], k') {
      KindAfterCell(u, front, a, r, k, count, k');
    }
    assert RegionKinds(front + [b]) == RegionKinds(front + [a]) + {k} by {
      KindsOfAppend(front, a);
      KindsOfAppend(front, b);
      CellSets(a, r, k, count, k);
    }
  }

  /** Accounts that count the same cells agree with the same accumulators. */
  lemma SameCellsSameKind(row: map<Region, int>, ids: set<AccountId>, front: seq<AccountSummary>, a: AccountSummary,
                          b: AccountSummary, k: Kind)
    requires a.accountId == b.accountId && KindAgrees(row, ids, front + [a], k)
    requires a.RegionsOf(k) == b.RegionsOf(k) && forall r :: a.Cell(k, r) == b.Cell(k, r)
    ensures KindAgrees(row, ids, front + [b], k) && (k in a.Kinds() <==> k in b.Kinds())
  {
    KindsByRegions(a, k);
    KindsByRegions(b, k);
    KindOfAppend(front, a, k);
    KindOfAppend(front, b, k);
  }

  lemma EmptyRegionKeepsAgreement(u: Usage, front: seq<AccountSummary>, a: AccountSummary, r: Region)
    requires r !in a.regions && RegionsAgree(u, front + [a])
    ensures RegionsAgree(u, front + [a.(regions := a.regions[r := map[]])])
  {
    var b := a.(regions := a.regions[r := map[]]);
    forall k ensures KindAgrees(Row(u, k), AccountRow(u, k), front + [b], k) && (k in a.Kinds() <==> k in b.Kinds()) {
      assert a.RegionsOf(k) == b.RegionsOf(k);
      SameCellsSameKind(Row(u, k), AccountRow(u, k), front, a, b, k);
    }
    assert a.Kinds() == b.Kinds();
    KindsOfAppend(front, a);
    KindsOfAppend(front, b);
  }

  lemma KindsByRegions(a: AccountSummary, k: Kind)
    ensures k in a.Kinds() <==> a.RegionsOf(k) != {}
  {
    if k in a.Kinds() {
      var r :| r in a.regions && k in a.regions[r];
      assert r in a.RegionsOf(k);
    }
    if a.RegionsOf(k) != {} {
      var r :| r in a.RegionsOf(k);
      assert r in a.regions && k in a.regions[r];
    }
  }

  method AddCell(u: Usage, accountId: AccountId, r: Region, k: Kind, count: int, ghost front: seq<AccountSummary>,
                 ghost account: AccountSummary)
    returns (u': Usage)
    requires RegionsAgree(u, front + [account])
    requires r in account.regions && k !in account.regions[r] && accountId == account.accountId
    ensures RegionsAgree(u', front + [WithCell(account, r, k, count)]) && u'.accountUsage == u.accountUsage
  {
    u' := u.(accountRegionUsage := u.accountRegionUsage[k := AccountRow(u, k) + {accountId}]);
    u' := u'.(regionUsage := u'.regionUsage[k := Row(u, k)[r := Get(Row(u, k), r) + count]]);
    assert u' == AddedCell(u, accountId, r, k, count);
    CellKeepsAgreement(u, front, account, r, k, count);
  }

  /** The two loops over the regions of one account. */
  method AddRegions(u: Usage, ghost front: seq<AccountSummary>, account: AccountSummary) returns (u': Usage)
    requires RegionsAgree(u, front)
    ensures RegionsAgree(u', front + [account]) && u'.accountUsage == u.accountUsage
  {
    u' := u;
    ghost var done := account.(regions := map[]);
    NothingYet(u, front, done);
    var remaining := account.regions.Keys;
    while remaining != {}
      invariant remaining <= account.regions.Keys
      invariant done == account.(regions := map r | r in account.regions && r !in remaining :: account.regions[r])
      invariant RegionsAgree(u', front + [done]) && u'.accountUsage == u.accountUsage
      decreases remaining
    {
      var r :| r in remaining;
      u' := AddRegion(u', account.accountId, front, done, r, account.regions[r]);
      done := done.(regions := done.regions[r := account.regions[r]]);
      remaining := remaining - {r};
      assert done.regions == map r | r in account.regions && r !in remaining :: account.regions[r];
    }
    assert done.regions == account.regions;
  }

  /** The account of which the inner loop has done region `r` but for the kinds that remain. */
  ghost function Partial(a: AccountSummary, r: Region, kinds: map<Kind, int>, remaining: set<Kind>): AccountSummary {
    a.(regions := a.regions[r := map k | k in kinds && k !in remaining :: kinds[k]])
  }

  lemma PartialStep(a: AccountSummary, r: Region, kinds: map<Kind, int>, remaining: set<Kind>, k: Kind)
    requires k in remaining && remaining <= kinds.Keys
    ensures var p := Partial(a, r, kinds, remaining);
            r in p.regions && k !in p.regions[r] && WithCell(p, r, k, kinds[k]) == Partial(a, r, kinds, remaining - {k})
  {
    assert Partial(a, r, kinds, remaining - {k}).regions[r] ==
        Partial(a, r, kinds, remaining).regions[r][k := kinds[k]];
  }

  lemma PartialEnds(a: AccountSummary, r: Region, kinds: map<Kind, int>)
    ensures Partial(a, r, kinds, kinds.Keys) == a.(regions := a.regions[r := map[]])
    ensures Partial(a, r, kinds, {}) == a.(regions := a.regions[r := kinds])
  {
    assert Partial(a, r, kinds, kinds.Keys).regions[r] == map[];
    assert Partial(a, r, kinds, {}).regions[r] == kinds;
  }

  method AddRegion(u: Usage, accountId: AccountId, ghost front: seq<AccountSummary>, ghost account: AccountSummary,
                   r: Region, kinds: map<Kind, int>)
    returns (u': Usage)
    requires RegionsAgree(u, front + [account]) && r !in account.regions && accountId == account.accountId
    ensures RegionsAgree(u', front + [account.(regions := account.regions[r := kinds])]) &&
        u'.accountUsage == u.accountUsage
  {
    u' := u;
    EmptyRegionKeepsAgreement(u, front, account, r);
    PartialEnds(account, r, kinds);
    var remaining := kinds.Keys;
    while remaining != {}
      invariant remaining <= kinds.Keys && u'.accountUsage == u.accountUsage
      invariant RegionsAgree(u', front + [Partial(account, r, kinds, remaining)])
      decreases remaining
    {
      var k :| k in remaining;
      PartialStep(account, r, kinds, remaining, k);
      u' := AddCell(u', accountId, r, k, kinds[k], front, Partial(account, r, kinds, remaining));
      remaining := remaining - {k};
    }
  }

  lemma NothingYet(u: Usage, front: seq<AccountSummary>, a: AccountSummary)
    requires RegionsAgree(u, front) && a.regions == map[]
    ensures RegionsAgree(u, front + [a])
  {
    KindsOfAppend(front, a);
    forall k ensures KindAgrees(Row(u, k), AccountRow(u, k), front + [a], k) {
      KindOfAppend(front, a, k);
    }
  }

  method AddCounts(usage: map<Kind, int>, count: map<Kind, int>) returns (usage': map<Kind, int>)
    ensures usage'.Keys == usage.Keys + count.Keys
    ensures forall k <- usage' :: usage'[k] == Get(usage, k) + Get(count, k)
  {
    usage' := usage;
    var remaining := count.Keys;
    while remaining != {}
      invariant remaining <= count.Keys
      invariant usage'.Keys == usage.Keys + (count.Keys - remaining)
      invariant forall k <- usage' :: usage'[k] == Get(usage, k) + if k in remaining then 0 else Get(count, k)
      decreases remaining
    {
      var k :| k in remaining;
      usage' := usage'[k := Get(usage', k) + count[k]];
      remaining := remaining - {k};
    }
  }

  lemma {:induction false} UncountedIsZero(accounts: seq<AccountSummary>, k: Kind)
    requires k !in CountedKinds(accounts)
    ensures AccountTotal(accounts, k) == 0
  {
    if accounts != [] {
      UncountedIsZero(accounts[..|accounts| - 1], k);
    }
  }

  method Accumulate(accounts: seq<AccountSummary>) returns (u: Usage)
    ensures CountsAgree(u, accounts) && RegionsAgree(u, accounts)
  {
    u := Usage(map[], map[], map[]);
    for i := 0 to |accounts|
      invariant CountsAgree(u, accounts[..i]) && RegionsAgree(u, accounts[..i])
    {
      var account := accounts[i];
      ghost var before := u.accountUsage;
      assert accounts[..i + 1] == accounts[..i] + [account] && accounts[..i + 1][..i] == accounts[..i];
      var counts := AddCounts(u.accountUsage, account.count);
      u := AddRegions(u, accounts[..i], account);
      u := u.(accountUsage := counts);
      CountsAfterAccount(before, counts, accounts[..i], account);
      SameRows(u.(accountUsage := before), u, accounts[..i + 1]);
    }
    assert accounts[..|accounts|] == accounts;
  }

  lemma CountsAfterAccount(before: map<Kind, int>, after: map<Kind, int>, front: seq<AccountSummary>, a: AccountSummary)
    requires CountsAgree(Usage(before, map[], map[]), front)
    requires after.Keys == before.Keys + a.count.Keys
    requires forall k <- after :: after[k] == Get(before, k) + Get(a.count, k)
    ensures CountsAgree(Usage(after, map[], map[]), front + [a])
  {
    KindsOfAppend(front, a);
    assert (front + [a])[..|front|] == front;
    forall k <- after ensures after[k] == AccountTotal(front + [a], k) {
      if k !in before {
        UncountedIsZero(front, k);
      }
    }
  }

  lemma SameRows(u: Usage, u': Usage, accounts: seq<AccountSummary>)
    requires RegionsAgree(u, accounts) && u'.regionUsage == u.regionUsage &&
        u'.accountRegionUsage == u.accountRegionUsage
    ensures RegionsAgree(u', accounts)
  {
    forall k ensures KindAgrees(Row(u', k), AccountRow(u', k), accounts, k) {
      assert KindAgrees(Row(u, k), AccountRow(u, k), accounts, k);
    }
  }

  // ----- sums over regions

  ghost function Sum(m: map<Region, int>): int {
    if m == map[] then 0
    else
      var r :| r in m;
      m[r] + Sum(m - {r})
  }

  /** The sum does not depend on where it starts. */
  lemma {:induction false} SumWithout(m: map<Region, int>, r: Region)
    requires r in m
    ensures Sum(m) == m[r] + Sum(m - {r})
    decreases |m|
  {
    var x :| x in m && Sum(m) == m[x] + Sum(m - {x});
    if x != r {
      SumWithout(m - {x}, r);
      SumWithout(m - {r}, x);
      assert m - {x} - {r} == m - {r} - {x};
    }
  }

  function Merge(m: map<Region, int>, n: map<Region, int>): map<Region, int> {
    map r | r in m.Keys + n.Keys :: Get(m, r) + Get(n, r)
  }

  lemma MergeWithout(m: map<Region, int>, n: map<Region, int>, r: Region)
    requires r in n
    ensures r in m ==> Merge(m, n) - {r} == Merge(m, n - {r}) - {r}
    ensures r !in m ==> Merge(m, n) - {r} == Merge(m, n - {r})
  {
  }

  lemma {:induction false} SumOfMerge(m: map<Region, int>, n: map<Region, int>)
    ensures Sum(Merge(m, n)) == Sum(m) + Sum(n)
    decreases |n|
  {
    if n == map[] {
      assert Merge(m, n) == m;
    } else {
      var r :| r in n;
      SumOfMerge(m, n - {r});
      SumWithout(n, r);
      SumWithout(Merge(m, n), r);
      MergeWithout(m, n, r);
      if r in m {
        SumWithout(Merge(m, n - {r}), r);
      }
    }
  }

  /** The resources of a kind, account by account. */
  ghost function RegionTotal(accounts: seq<AccountSummary>, k: Kind): int {
    if accounts == [] then 0 else RegionTotal(accounts[..|accounts| - 1], k) + Sum(accounts[|accounts| - 1].Column(k))
  }

  /** Summing an accumulated row over its regions is summing over all accounts and their regions. */
  lemma {:induction false} RowSumIsRegionTotal(row: map<Region, int>, accounts: seq<AccountSummary>, k: Kind)
    requires row.Keys == RegionsWith(accounts, k)
    requires forall r <- row :: row[r] == CellTotal(accounts, k, r)
    ensures Sum(row) == RegionTotal(accounts, k)
  {
    if accounts != [] {
      var front, last := accounts[..|accounts| - 1], accounts[|accounts| - 1];
      var row' := map r | r in RegionsWith(front, k) :: CellTotal(front, k, r);
      RowSumIsRegionTotal(row', front, k);
      RowIsMerge(row, row', front, last, k);
      SumOfMerge(row', last.Column(k));
    }
  }

  lemma RowIsMerge(row: map<Region, int>, row': map<Region, int>, front: seq<AccountSummary>, last: AccountSummary,
                   k: Kind)
    requires row.Keys == RegionsWith(front, k) + last.RegionsOf(k) && row'.Keys == RegionsWith(front, k)
    requires forall r <- row :: row[r] == CellTotal(front, k, r) + last.Cell(k, r)
    requires forall r <- row' :: row'[r] == CellTotal(front, k, r)
    ensures row == Merge(row', last.Column(k))
  {
    assert last.Column(k).Keys == last.RegionsOf(k);
    forall r <- row ensures row[r] == Merge(row', last.Column(k))[r] {
      if r !in row' {
        NothingToTotal(front, k, r);
      }
    }
  }

  method SumValues(m: map<Region, int>) returns (s: int)
    ensures s == Sum(m)
  {
    s := 0;
    var remaining := m;
    while remaining != map[]
      invariant s + Sum(remaining) == Sum(m)
      decreases |remaining|
    {
      var r :| r in remaining;
      SumWithout(remaining, r);
      s := s + remaining[r];
      remaining := remaining - {r};
    }
  }

  // ----- the result

  /** The usage the loops give per kind. */
  ghost function UsageOf(accounts: seq<AccountSummary>, byRegion: bool, k: Kind): KindUsage {
    if byRegion then KindUsage(|AccountsWith(accounts, k)|, |RegionsWith(accounts, k)|, RegionTotal(accounts, k))
    else KindUsage(if k in CountedKinds(accounts) then 1 else 0, |RegionsWith(accounts, k)|, AccountTotal(accounts, k))
  }

  // ----- what is asked for, said of the summary itself

  predicate Wanted(a: AccountSummary, cloudIds: seq<CloudId>, accountIds: seq<AccountId>) {
    (cloudIds == [] || a.cloudId in cloudIds) && (accountIds == [] || a.accountId in accountIds)
  }

  /** The counts of one kind in the regions asked for. */
  function WantedCells(a: AccountSummary, regionIds: seq<Region>, k: Kind): map<Region, int> {
    map r | r in a.regions && (regionIds == [] || r in regionIds) && k in a.regions[r] :: a.regions[r][k]
  }

  /** The accounts asked for that count the kind in a region asked for, and these regions. */
  function IdsWith(summary: seq<AccountSummary>, cloudIds: seq<CloudId>, accountIds: seq<AccountId>,
                   regionIds: seq<Region>, k: Kind): set<AccountId> {
    set a | a in summary && Wanted(a, cloudIds, accountIds) && WantedCells(a, regionIds, k) != map[] :: a.accountId
  }

  function WantedRegions(summary: seq<AccountSummary>, cloudIds: seq<CloudId>, accountIds: seq<AccountId>,
                         regionIds: seq<Region>, k: Kind): set<Region> {
    set a, r | a in summary && Wanted(a, cloudIds, accountIds) && r in WantedCells(a, regionIds, k) :: r
  }

  /** The resources of the kind: what the accounts asked for count as a whole, or in the regions asked for. */
  ghost function Resources(summary: seq<AccountSummary>, cloudIds: seq<CloudId>, accountIds: seq<AccountId>,
                           regionIds: seq<Region>, k: Kind): int {
    if summary == [] then 0
    else
      var last := summary[|summary| - 1];
      Resources(summary[..|summary| - 1], cloudIds, accountIds, regionIds, k)
      + if !Wanted(last, cloudIds, accountIds) then 0
        else if regionIds == [] then last.Count(k)
        else Sum(WantedCells(last, regionIds, k))
  }

  predicate CountedAsked(summary: seq<AccountSummary>, cloudIds: seq<CloudId>, accountIds: seq<AccountId>, k: Kind) {
    exists a <- summary :: Wanted(a, cloudIds, accountIds) && k in a.count
  }

  /** The selected account counts the kinds asked for in the regions asked for, and nothing else. */
  ghost predicate Narrows(b: AccountSummary, a: AccountSummary, regionIds: seq<Region>, asked: bool, k: Kind) {
    && b.accountId == a.accountId
    && b.Column(k) == (if asked then WantedCells(a, regionIds, k) else map[])
    && b.RegionsOf(k) == b.Column(k).Keys && (k in b.Kinds() <==> b.Column(k) != map[])
    && (k in b.count <==> asked && k in a.count) && b.Count(k) == (if asked then a.Count(k) else 0)
  }

  lemma {:induction false} NarrowsByColumn(b: AccountSummary, a: AccountSummary, regionIds: seq<Region>, asked: bool,
                                           k: Kind)
    requires b.accountId == a.accountId && (k in b.count <==> asked && k in a.count)
    requires b.Count(k) == if asked then a.Count(k) else 0
    requires b.Column(k) == if asked then WantedCells(a, regionIds, k) else map[]
    ensures Narrows(b, a, regionIds, asked, k)
  {
    KindsByRegions(b, k);
    assert b.RegionsOf(k) == b.Column(k).Keys;
    assert b.Column(k) == map[] <==> b.Column(k).Keys == {};
  }

  lemma {:induction false} SelectedOne(a: AccountSummary, regionIds: seq<Region>, kinds: seq<Kind>, k: Kind)
    ensures var byRegion := if regionIds == [] then a else a.ForRegions(regionIds);
            var byKind := if kinds == [] then byRegion else byRegion.ForKinds(kinds);
            Narrows(byKind, a, regionIds, kinds == [] || k in kinds, k)
  {
    var byRegion := if regionIds == [] then a else a.ForRegions(regionIds);
    var byKind := if kinds == [] then byRegion else byRegion.ForKinds(kinds);
    assert byRegion.Column(k) == WantedCells(a, regionIds, k);
    assert byKind.Column(k) == if kinds == [] || k in kinds then byRegion.Column(k) else map[];
    NarrowsByColumn(byKind, a, regionIds, kinds == [] || k in kinds, k);
  }

  /** The selection has of a kind asked for what the summary has of it among what is asked for, and nothing of others.
      */
  ghost predicate Selects(accounts: seq<AccountSummary>, summary: seq<AccountSummary>, cloudIds: seq<CloudId>,
                          accountIds: seq<AccountId>, regionIds: seq<Region>, asked: bool, k: Kind)
  {
    && SelectsSets(accounts, asked, k, IdsWith(summary, cloudIds, accountIds, regionIds, k),
                   WantedRegions(summary, cloudIds, accountIds, regionIds, k),
                   CountedAsked(summary, cloudIds, accountIds, k))
    && SelectsTotal(accounts, summary, cloudIds, accountIds, regionIds, asked, k)
  }

  ghost predicate SelectsSets(accounts: seq<AccountSummary>, asked: bool, k: Kind, ids: set<AccountId>,
                              regions: set<Region>, counted: bool)
  {
    && AccountsWith(accounts, k) == (if asked then ids else {})
    && RegionsWith(accounts, k) == (if asked then regions else {})
    && (k in RegionKinds(accounts) <==> asked && regions != {})
    && (k in CountedKinds(accounts) <==> asked && counted)
  }

  ghost predicate SelectsTotal(accounts: seq<AccountSummary>, summary: seq<AccountSummary>, cloudIds: seq<CloudId>,
                               accountIds: seq<AccountId>, regionIds: seq<Region>, asked: bool, k: Kind)
  {
    && (if regionIds == [] then AccountTotal(accounts, k) else RegionTotal(accounts, k))
       == if asked then Resources(summary, cloudIds, accountIds, regionIds, k) else 0
  }

  lemma {:induction false} AskedOneMore(front: seq<AccountSummary>, a: AccountSummary, cloudIds: seq<CloudId>,
                                        accountIds: seq<AccountId>, regionIds: seq<Region>, k: Kind)
    ensures var wanted, all := Wanted(a, cloudIds, accountIds), front + [a];
            && IdsWith(all, cloudIds, accountIds, regionIds, k)
               == IdsWith(front, cloudIds, accountIds, regionIds, k)
                  + (if wanted && WantedCells(a, regionIds, k) != map[] then {a.accountId} else {})
            && WantedRegions(all, cloudIds, accountIds, regionIds, k)
               == WantedRegions(front, cloudIds, accountIds, regionIds, k)
                  + (if wanted then WantedCells(a, regionIds, k).Keys else {})
            && (CountedAsked(all, cloudIds, accountIds, k)
                <==> CountedAsked(front, cloudIds, accountIds, k) || (wanted && k in a.count))
  {
    assert a in front + [a];
    assert forall b :: b in front + [a] <==> b in front || b == a;
  }

  lemma {:induction false} TotalOneMore(accounts: seq<AccountSummary>, b: AccountSummary, front: seq<AccountSummary>,
                                        a: AccountSummary, cloudIds: seq<CloudId>, accountIds: seq<AccountId>,
                                        regionIds: seq<Region>, asked: bool, k: Kind)
    requires SelectsTotal(accounts, front, cloudIds, accountIds, regionIds, asked, k)
    requires Wanted(a, cloudIds, accountIds) ==> Narrows(b, a, regionIds, asked, k)
    ensures SelectsTotal(if Wanted(a, cloudIds, accountIds) then accounts + [b] else accounts, front + [a], cloudIds,
                         accountIds, regionIds, asked, k)
  {
    assert (front + [a])[..|front|] == front;
    if Wanted(a, cloudIds, accountIds) {
      AppendAccount(accounts, b, k);
      assert Sum(map[]) == 0;
    }
  }

  lemma {:induction false} SetsOneMore(accounts: seq<AccountSummary>, b: AccountSummary, a: AccountSummary,
                                       regionIds: seq<Region>, asked: bool, k: Kind, ids: set<AccountId>,
                                       regions: set<Region>, counted: bool)
    requires SelectsSets(accounts, asked, k, ids, regions, counted) && Narrows(b, a, regionIds, asked, k)
    ensures var cells := WantedCells(a, regionIds, k);
            SelectsSets(accounts + [b], asked, k, ids + (if cells != map[] then {a.accountId} else {}),
                        regions + cells.Keys, counted || k in a.count)
  {
    var cells := WantedCells(a, regionIds, k);
    KindOfAppend(accounts, b, k);
    KindsOfAppend(accounts, b);
    assert cells == map[] <==> cells.Keys == {};
    assert regions + cells.Keys == {} <==> regions == {} && cells.Keys == {};
  }

  lemma {:induction false} SelectsOneMore(accounts: seq<AccountSummary>, b: AccountSummary, front: seq<AccountSummary>,
                                          a: AccountSummary, cloudIds: seq<CloudId>, accountIds: seq<AccountId>,
                                          regionIds: seq<Region>, asked: bool, k: Kind)
    requires Selects(accounts, front, cloudIds, accountIds, regionIds, asked, k)
    requires Wanted(a, cloudIds, accountIds) ==> Narrows(b, a, regionIds, asked, k)
    ensures Selects(if Wanted(a, cloudIds, accountIds) then accounts + [b] else accounts, front + [a], cloudIds,
                    accountIds, regionIds, asked, k)
  {
    AskedOneMore(front, a, cloudIds, accountIds, regionIds, k);
    TotalOneMore(accounts, b, front, a, cloudIds, accountIds, regionIds, asked, k);
    if Wanted(a, cloudIds, accountIds) {
      SetsOneMore(accounts, b, a, regionIds, asked, k, IdsWith(front, cloudIds, accountIds, regionIds, k),
                  WantedRegions(front, cloudIds, accountIds, regionIds, k),
                  CountedAsked(front, cloudIds, accountIds, k));
    }
  }

  /** Each filter selects what it asks for: accounts by cloud and by id, cells by region and by kind. */
  lemma {:induction false} SelectedExactly(summary: seq<AccountSummary>, cloudIds: seq<CloudId>,
                                           accountIds: seq<AccountId>, regionIds: seq<Region>, kinds: seq<Kind>,
                                               k: Kind)
    ensures Selects(Selected(summary, cloudIds, accountIds, regionIds, kinds), summary, cloudIds, accountIds, regionIds,
                    kinds == [] || k in kinds, k)
  {
    if summary != [] {
      var front, last := summary[..|summary| - 1], summary[|summary| - 1];
      SelectedExactly(front, cloudIds, accountIds, regionIds, kinds, k);
      var byRegion := if regionIds == [] then last else last.ForRegions(regionIds);
      var byKind := if kinds == [] then byRegion else byRegion.ForKinds(kinds);
      SelectedOne(last, regionIds, kinds, k);
      SelectsOneMore(Selected(front, cloudIds, accountIds, regionIds, kinds), byKind, front, last, cloudIds, accountIds,
                     regionIds, kinds == [] || k in kinds, k);
      assert front + [last] == summary;
    }
  }

  /** Whether a kind is reported: it is asked for, and an account asked for counts it in a region asked for, or as a
      whole when no regions are. */
  predicate IsReported(summary: seq<AccountSummary>, cloudIds: seq<CloudId>, accountIds: seq<AccountId>,
                       regionIds: seq<Region>, kinds: seq<Kind>, k: Kind) {
    && (kinds == [] || k in kinds)
    && (WantedRegions(summary, cloudIds, accountIds, regionIds, k) != {}
        || (regionIds == [] && CountedAsked(summary, cloudIds, accountIds, k)))
  }

  /** What is reported of it; without a selection of regions the account counter is one for every kind that is counted
      at all. */
  ghost function AskedUsage(summary: seq<AccountSummary>, cloudIds: seq<CloudId>, accountIds: seq<AccountId>,
                            regionIds: seq<Region>, k: Kind): KindUsage {
    KindUsage(if regionIds != [] then |IdsWith(summary, cloudIds, accountIds, regionIds, k)|
              else if CountedAsked(summary, cloudIds, accountIds, k) then 1 else 0,
              |WantedRegions(summary, cloudIds, accountIds, regionIds, k)|,
              Resources(summary, cloudIds, accountIds, regionIds, k))
  }

  lemma {:induction false} SelectionIsAsked(summary: seq<AccountSummary>, cloudIds: seq<CloudId>,
                                            accountIds: seq<AccountId>, regionIds: seq<Region>, kinds: seq<Kind>,
                                            k: Kind)
    ensures var accounts := Selected(summary, cloudIds, accountIds, regionIds, kinds);
            var reported := k in RegionKinds(accounts) || (regionIds == [] && k in CountedKinds(accounts));
            && (reported <==> IsReported(summary, cloudIds, accountIds, regionIds, kinds, k))
            && (reported ==>
                  UsageOf(accounts, regionIds != [], k) == AskedUsage(summary, cloudIds, accountIds, regionIds, k))
  {
    SelectedExactly(summary, cloudIds, accountIds, regionIds, kinds, k);
  }

  /** `descendant_summary`: per kind asked for, the distinct accounts, distinct regions and resources of what is asked.
      */
  method DescendantSummary(summary: seq<AccountSummary>, cloudIds: seq<CloudId>, accountIds: seq<AccountId>,
                           regionIds: seq<Region>, kinds: seq<Kind>) returns (usage: map<Kind, KindUsage>)
    ensures forall k :: k in usage <==> IsReported(summary, cloudIds, accountIds, regionIds, kinds, k)
    ensures forall k <- usage :: usage[k] == AskedUsage(summary, cloudIds, accountIds, regionIds, k)
  {
    usage := UsageOfSelection(Selected(summary, cloudIds, accountIds, regionIds, kinds), regionIds != []);
    forall k
      ensures k in usage <==> IsReported(summary, cloudIds, accountIds, regionIds, kinds, k)
      ensures k in usage ==> usage[k] == AskedUsage(summary, cloudIds, accountIds, regionIds, k)
    {
      SelectionIsAsked(summary, cloudIds, accountIds, regionIds, kinds, k);
    }
  }

  /** The loops over what was selected. */
  method UsageOfSelection(accounts: seq<AccountSummary>, byRegion: bool) returns (usage: map<Kind, KindUsage>)
    ensures usage.Keys == if byRegion then RegionKinds(accounts) else RegionKinds(accounts) + CountedKinds(accounts)
    ensures forall k <- usage :: usage[k] == UsageOf(accounts, byRegion, k)
  {
    var u := Accumulate(accounts);
    if byRegion {
      usage := RegionUsage(u);
      forall k <- usage ensures usage[k] == UsageOf(accounts, true, k) {
        RegionalUsageMeans(u, accounts, k);
      }
    } else {
      usage := AccountUsage(u);
      forall k <- usage ensures usage[k] == UsageOf(accounts, false, k) {
        CountedUsageMeans(u, accounts, k);
      }
    }
  }

  lemma RowsMean(u: Usage, accounts: seq<AccountSummary>, k: Kind)
    requires RegionsAgree(u, accounts)
    ensures Row(u, k).Keys == RegionsWith(accounts, k) && AccountRow(u, k) == AccountsWith(accounts, k)
    ensures Sum(Row(u, k)) == RegionTotal(accounts, k)
  {
    assert KindAgrees(Row(u, k), AccountRow(u, k), accounts, k);
    RowSumIsRegionTotal(Row(u, k), accounts, k);
  }

  /** What the loops without a selection of regions make of the accumulators. */
  function CountedUsage(u: Usage, k: Kind): KindUsage {
    KindUsage(if k in u.accountUsage then 1 else 0, |Row(u, k).Keys|, Get(u.accountUsage, k))
  }

  lemma CountedUsageMeans(u: Usage, accounts: seq<AccountSummary>, k: Kind)
    requires RegionsAgree(u, accounts) && CountsAgree(u, accounts)
    ensures CountedUsage(u, k) == UsageOf(accounts, false, k)
  {
    RowsMean(u, accounts, k);
    if k !in u.accountUsage {
      UncountedIsZero(accounts, k);
    }
  }

  /** What the loop over selected regions makes of the accumulators. */
  ghost function RegionalUsage(u: Usage, k: Kind): KindUsage {
    KindUsage(|AccountRow(u, k)|, |Row(u, k).Keys|, Sum(Row(u, k)))
  }

  lemma RegionalUsageMeans(u: Usage, accounts: seq<AccountSummary>, k: Kind)
    requires RegionsAgree(u, accounts)
    ensures RegionalUsage(u, k) == UsageOf(accounts, true, k)
  {
    RowsMean(u, accounts, k);
  }

  method RegionUsage(u: Usage) returns (usage: map<Kind, KindUsage>)
    ensures usage.Keys == u.regionUsage.Keys
    ensures forall k <- usage :: usage[k] == RegionalUsage(u, k)
  {
    usage := map[];
    var remaining := u.regionUsage.Keys;
    while remaining != {}
      invariant remaining <= u.regionUsage.Keys && usage.Keys == u.regionUsage.Keys - remaining
      invariant forall k <- usage :: usage[k] == RegionalUsage(u, k)
      decreases remaining
    {
      var k :| k in remaining;
      var resources := SumValues(Row(u, k));
      usage := usage[k := KindUsage(|AccountRow(u, k)|, |Row(u, k).Keys|, resources)];
      remaining := remaining - {k};
    }
  }

  method CountUsage(u: Usage) returns (usage: map<Kind, KindUsage>)
    ensures usage.Keys == u.accountUsage.Keys
    ensures forall k <- usage :: usage[k] == CountedUsage(u, k)
  {
    usage := map[];
    var remaining := u.accountUsage.Keys;
    while remaining != {}
      invariant remaining <= u.accountUsage.Keys && usage.Keys == u.accountUsage.Keys - remaining
      invariant forall k <- usage :: usage[k] == CountedUsage(u, k)
      decreases remaining
    {
      var k :| k in remaining;
      var kd := KindUsage(0, 0, 0);
      kd := kd.(accounts := kd.accounts + 1);
      kd := kd.(regions := |Row(u, k).Keys|, resources := kd.resources + u.accountUsage[k]);
      usage := usage[k := kd];
      remaining := remaining - {k};
    }
  }

  method AccountUsage(u: Usage) returns (usage: map<Kind, KindUsage>)
    ensures forall k :: k in usage <==> k in u.regionUsage || k in u.accountUsage
    ensures forall k <- usage :: usage[k] == CountedUsage(u, k)
  {
    usage := CountUsage(u);
    var remaining := u.regionUsage.Keys;
    while remaining != {}
      invariant forall k <- remaining :: k in u.regionUsage
      invariant forall k :: k in usage <==> k in u.accountUsage || (k in u.regionUsage && k !in remaining)
      invariant forall k <- usage :: usage[k] == CountedUsage(u, k)
      decreases remaining
    {
      var k :| k in remaining;
      var kd := if k in usage then usage[k] else KindUsage(0, 0, 0);
      kd := kd.(regions := |Row(u, k).Keys|);
      usage := usage[k := kd];
      remaining := remaining - {k};
    }
  }

  lemma KindFilterOfOne(a: AccountSummary, kinds: seq<Kind>, k: Kind)
    ensures var b := a.ForKinds(kinds);
            if k in kinds then
              b.RegionsOf(k) == a.RegionsOf(k) && b.Column(k) == a.Column(k) && b.Count(k) == a.Count(k)
              && (k in b.Kinds() <==> k in a.Kinds()) && (k in b.count <==> k in a.count)
            else k !in b.Kinds() && k !in b.count
  {
    KindsByRegions(a, k);
    KindsByRegions(a.ForKinds(kinds), k);
    if k in kinds {
      assert a.ForKinds(kinds).RegionsOf(k) == a.RegionsOf(k);
      assert a.ForKinds(kinds).Column(k) == a.Column(k);
    } else {
      assert a.ForKinds(kinds).RegionsOf(k) == {};
    }
  }

  /** `some` has kept the kind `k` of `all`, or dropped it. */
  ghost predicate Projects(some: seq<AccountSummary>, all: seq<AccountSummary>, kept: bool, k: Kind) {
    if kept then
      && RegionsWith(some, k) == RegionsWith(all, k) && AccountsWith(some, k) == AccountsWith(all, k)
      && RegionTotal(some, k) == RegionTotal(all, k) && AccountTotal(some, k) == AccountTotal(all, k)
      && (k in RegionKinds(some) <==> k in RegionKinds(all)) && (k in CountedKinds(some) <==> k in CountedKinds(all))
    else k !in RegionKinds(some) && k !in CountedKinds(some)
  }

  lemma ProjectOneMore(some: seq<AccountSummary>, all: seq<AccountSummary>, a: AccountSummary, kinds: seq<Kind>,
                       k: Kind)
    requires Projects(some, all, k in kinds, k)
    ensures Projects(some + [a.ForKinds(kinds)], all + [a], k in kinds, k)
  {
    KindFilterOfOne(a, kinds, k);
    AppendAccount(some, a.ForKinds(kinds), k);
    AppendAccount(all, a, k);
  }

  /** Selecting kinds is a projection: for every wanted kind the selection agrees with the one that takes all kinds, and
      so does its usage; the other kinds are gone. */
  lemma {:induction false} KindFilterIsAProjection(summary: seq<AccountSummary>, cloudIds: seq<CloudId>,
                                                   accountIds: seq<AccountId>,
                                                   regionIds: seq<Region>, kinds: seq<Kind>, k: Kind)
    requires kinds != []
    ensures Projects(Selected(summary, cloudIds, accountIds, regionIds, kinds),
        Selected(summary, cloudIds, accountIds, regionIds, []), k in kinds, k)
  {
    if summary != [] {
      var front, last := summary[..|summary| - 1], summary[|summary| - 1];
      KindFilterIsAProjection(front, cloudIds, accountIds, regionIds, kinds, k);
      if (cloudIds == [] || last.cloudId in cloudIds) && (accountIds == [] || last.accountId in accountIds) {
        ProjectOneMore(Selected(front, cloudIds, accountIds, regionIds, kinds),
            Selected(front, cloudIds, accountIds, regionIds, []),
                       if regionIds == [] then last else last.ForRegions(regionIds), kinds, k);
      }
    }
  }

  lemma AppendAccount(front: seq<AccountSummary>, a: AccountSummary, k: Kind)
    ensures RegionsWith(front + [a], k) == RegionsWith(front, k) + a.RegionsOf(k)
    ensures AccountsWith(front + [a], k) == AccountsWith(front, k) + if k in a.Kinds() then {a.accountId} else {}
    ensures RegionTotal(front + [a], k) == RegionTotal(front, k) + Sum(a.Column(k))
    ensures AccountTotal(front + [a], k) == AccountTotal(front, k) + a.Count(k)
    ensures RegionKinds(front + [a]) == RegionKinds(front) + a.Kinds()
    ensures CountedKinds(front + [a]) == CountedKinds(front) + a.count.Keys
  {
    assert (front + [a])[..|front|] == front;
  }

  /** The accounts that count a kind at all. */
  function CountingAccounts(accounts: seq<AccountSummary>, k: Kind): set<AccountId> {
    if accounts == [] then {}
    else
      var last := accounts[|accounts| - 1];
      CountingAccounts(accounts[..|accounts| - 1], k) + if k in last.count then {last.accountId} else {}
  }

  lemma {:induction false} CountedBySomebody(accounts: seq<AccountSummary>, k: Kind)
    ensures k in CountedKinds(accounts) <==> CountingAccounts(accounts, k) != {}
  {
    if accounts != [] {
      CountedBySomebody(accounts[..|accounts| - 1], k);
    }
  }

  /** Without a selection of regions the number of accounts is right exactly for kinds that at most one account has. */
  lemma UnfilteredAccountsExactly(accounts: seq<AccountSummary>, k: Kind)
    ensures UsageOf(accounts, false, k).accounts == |CountingAccounts(accounts, k)| <==>
        |CountingAccounts(accounts, k)| <= 1
  {
    CountedBySomebody(accounts, k);
  }

  /** Two accounts with a resource of a kind each are reported as one. */
  lemma TwoAccountsReportedAsOne(a: AccountId, b: AccountId, cloud: CloudId, k: Kind)
    requires a != b
    ensures var accounts := [AccountSummary(a, cloud, map[k := 1], map[]),
        AccountSummary(b, cloud, map[k := 1], map[])];
            && CountingAccounts(accounts, k) == {a, b}
            && UsageOf(accounts, false, k) == KindUsage(1, 0, 2)
  {
    var x, y := AccountSummary(a, cloud, map[k := 1], map[]), AccountSummary(b, cloud, map[k := 1], map[]);
    assert [x, y][..1] == [x] && [x][..0] == [];
    assert CountingAccounts([x], k) == {a} && CountedKinds([x]) == {k} && AccountTotal([x], k) == 1;
    assert RegionsWith([x], k) == {} && x.RegionsOf(k) == {} && y.RegionsOf(k) == {};
  }

  // ----- merging by rank

  /** A key of the merged dict: its rank and its values. */
  datatype Ranked<V> = Ranked(rank: int, values: seq<V>)

  ghost predicate Descending<V>(entries: seq<Ranked<V>>) {
    forall i, j :: 0 <= i < j < |entries| ==> entries[i].rank >= entries[j].rank
  }

  ghost predicate Occurs<V>(entries: seq<Ranked<V>>, v: V) {
    exists i :: 0 <= i < |entries| && v in entries[i].values
  }

  /** The highest rank of a key that has the value. */
  ghost predicate BestRank<V>(entries: seq<Ranked<V>>, v: V, rank: int) {
    && (exists i :: 0 <= i < |entries| && v in entries[i].values && entries[i].rank == rank)
    && (forall i :: 0 <= i < |entries| && v in entries[i].values ==> entries[i].rank <= rank)
  }

  /** What the loops hold after the first `i` keys and `j` values of the next one. */
  ghost predicate Merged<V>(entries: seq<Ranked<V>>, i: nat, j: nat, out: seq<V>, ranks: seq<int>) {
    && i <= |entries| && (if i < |entries| then j <= |entries[i].values| else j == 0)
    && |ranks| == |out|
    && (forall x, y :: 0 <= x < y < |out| ==> out[x] != out[y] && ranks[x] >= ranks[y])
    && (forall x :: 0 <= x < |out| ==>
        BestRank(entries, out[x], ranks[x]) && (i < |entries| ==> ranks[x] >= entries[i].rank))
    && (forall k, v :: 0 <= k < i && v in entries[k].values ==> v in out)
    && (forall k :: 0 <= k < j ==> entries[i].values[k] in out)
  }

  lemma MergeOneMore<V>(entries: seq<Ranked<V>>, i: nat, j: nat, out: seq<V>, ranks: seq<int>)
    requires Descending(entries) && i < |entries| && j < |entries[i].values| && Merged(entries, i, j, out, ranks)
    ensures var v := entries[i].values[j];
            if v in out then Merged(entries, i, j + 1, out, ranks)
            else Merged(entries, i, j + 1, out + [v], ranks + [entries[i].rank])
  {
    var v := entries[i].values[j];
    if v !in out {
      assert BestRank(entries, v, entries[i].rank);
    }
  }

  lemma NextKey<V>(entries: seq<Ranked<V>>, i: nat, out: seq<V>, ranks: seq<int>)
    requires Descending(entries) && i < |entries| && Merged(entries, i, |entries[i].values|, out, ranks)
    ensures Merged(entries, i + 1, 0, out, ranks)
  {
  }

  /** `dict_values_by` on the entries sorted by descending rank: every value once, those of higher keys first. */
  method DictValuesBy<V(==)>(entries: seq<Ranked<V>>) returns (out: seq<V>, ghost ranks: seq<int>)
    requires Descending(entries)
    ensures |ranks| == |out|
    ensures forall x, y :: 0 <= x < y < |out| ==> out[x] != out[y]
    ensures forall v :: v in out <==> Occurs(entries, v)
    ensures forall x :: 0 <= x < |out| ==> BestRank(entries, out[x], ranks[x])
    ensures forall x, y :: 0 <= x < y < |out| ==> ranks[x] >= ranks[y]
  {
    out, ranks := [], [];
    var visited: set<V> := {};
    for i := 0 to |entries|
      invariant Merged(entries, i, 0, out, ranks)
      invariant forall v :: v in visited <==> v in out
    {
      for j := 0 to |entries[i].values|
        invariant Merged(entries, i, j, out, ranks)
        invariant forall v :: v in visited <==> v in out
      {
        var v := entries[i].values[j];
        MergeOneMore(entries, i, j, out, ranks);
        if v !in visited {
          visited := visited + {v};
          out, ranks := out + [v], ranks + [entries[i].rank];
        }
      }
      NextKey(entries, i, out, ranks);
    }
    forall v | v in out ensures Occurs(entries, v) {
      var x :| 0 <= x < |out| && out[x] == v;
      assert BestRank(entries, out[x], ranks[x]);
    }
  }

  /** Any prefix of the merge, as the top-three selections take it, leaves out no value that outranks one it holds. */
  method Top<V(==)>(entries: seq<Ranked<V>>, n: nat) returns (top: seq<V>)
    requires Descending(entries)
    ensures |top| <= n && (|top| < n ==> forall v :: Occurs(entries, v) ==> v in top)
    ensures forall v <- top :: Occurs(entries, v)
    ensures forall v, w, r, s ::
        v in top && Occurs(entries, w) && w !in top && BestRank(entries, v, r) && BestRank(entries, w, s) ==> r >= s
  {
    var all, ranks := DictValuesBy(entries);
    top := if |all| <= n then all else all[..n];
    forall v, w, r, s | v in top && Occurs(entries, w) && w !in top && BestRank(entries, v, r) &&
        BestRank(entries, w, s)
      ensures r >= s
    {
      var x :| 0 <= x < |top| && top[x] == v;
      var y :| 0 <= y < |all| && all[y] == w;
      assert all[x] == v && x < y;
      assert BestRank(entries, all[x], ranks[x]) && BestRank(entries, all[y], ranks[y]);
    }
  }
}
