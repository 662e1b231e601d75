/** What each pool of runners supplies: counters that saturate at the width of a `u32`. */
module PoolSupply {
  import opened RunnerModel
  import opened Lists

  datatype Supply = Supply(
    poolKey: string,
    registeredRunners: U32,
    dispatchableRunners: U32,
    runningTasks: U32,
    capacityRemaining: U32,
    maxConcurrency: U32,
    pendingProvisions: U32,
    staleRunners: U32)

  /** The pool that a runner belongs to: its pool label decides, whatever else there is; without it
      the lane label, without both the first role, and without any of them it is the default one. */
  predicate InPool(r: Registration, pool: string) {
    && ("pool" in r.labels ==> r.labels["pool"] == pool)
    && ("pool" !in r.labels && "lane" in r.labels ==> r.labels["lane"] == pool)
    && ("pool" !in r.labels && "lane" !in r.labels && |r.roles| > 0 ==> r.roles[0] == pool)
    && ("pool" !in r.labels && "lane" !in r.labels && |r.roles| == 0 ==> pool == "default")
  }

  /** The key is the one pool of the runner. */
  lemma PoolKeyIsThePool(r: Registration, pool: string)
    ensures InPool(r, pool) <==> pool == RunnerPoolKey(r)
  {
  }

  function RunnerPoolKey(registration: Registration): string {
    if "pool" in registration.labels then registration.labels["pool"]
    else if "lane" in registration.labels then registration.labels["lane"]
    else if registration.roles != [] then registration.roles[0]
    else "default"
  }

  function SaturatingAdd(a: U32, b: U32): U32 {
    if a + b > U32_MAX then U32_MAX else a + b
  }

  // ---------------------------------------------------------------------------------------------
  // The declarative summary
  // ---------------------------------------------------------------------------------------------

  datatype Counter = Enrolled | Dispatchable | Running | Capacity | Concurrency | Stale

  function Read(supply: Supply, counter: Counter): U32 {
    match counter
    case Enrolled => supply.registeredRunners
    case Dispatchable => supply.dispatchableRunners
    case Running => supply.runningTasks
    case Capacity => supply.capacityRemaining
    case Concurrency => supply.maxConcurrency
    case Stale => supply.staleRunners
  }

  /** What one runner adds to a counter of its pool. */
  function Amount(record: Record, now: int, counter: Counter): U32 {
    match counter
    case Enrolled => 1
    case Dispatchable =>
      if now - record.lastSeen <= record.registration.leaseTtlSeconds * SECOND && record.capacityRemaining > 0 then 1
      else 0
    case Running => record.runningTasks
    case Capacity => record.capacityRemaining
    case Concurrency => record.registration.maxConcurrency
    case Stale => if now - record.lastSeen > record.registration.leaseTtlSeconds * SECOND then 1 else 0
  }

  /** The runners among `ids` that belong to a pool. */
  function Members(runners: Runners, ids: set<string>, pool: string): set<string> {
    set id | id in ids && id in runners && InPool(runners[id].registration, pool)
  }

  /** The unbounded sum of a counter over a set of runners. */
  ghost function Total(runners: Runners, ids: set<string>, now: int, counter: Counter): nat
    requires ids <= runners.Keys
  {
    if ids == {} then 0
    else
      var id :| id in ids;
      Amount(runners[id], now, counter) + Total(runners, ids - {id}, now, counter)
  }

  lemma {:induction false} TotalStep(runners: Runners, ids: set<string>, now: int, counter: Counter, id: string)
    requires ids <= runners.Keys && id in ids
    ensures Total(runners, ids, now, counter) ==
      Amount(runners[id], now, counter) + Total(runners, ids - {id}, now, counter)
    decreases |ids|
  {
    var first :| first in ids && Total(runners, ids, now, counter) ==
      Amount(runners[first], now, counter) + Total(runners, ids - {first}, now, counter);
    if first != id {
      TotalStep(runners, ids - {first}, now, counter, id);
      TotalStep(runners, ids - {id}, now, counter, first);
      assert ids - {first} - {id} == ids - {id} - {first};
    }
  }

  function Capped(n: nat): U32 {
    if n > 4_294_967_295 then 4_294_967_295 else n
  }

  /** The supply of a pool: each counter is the sum over the pool's members, cut off at the maximum. */
  ghost predicate Supplies(runners: Runners, ids: set<string>, now: int, pool: string, supply: Supply) {
    && supply.poolKey == pool
    && supply.pendingProvisions == 0
    && forall counter ::
      Read(supply, counter) == Capped(Total(runners, Members(runners, ids, pool), now, counter))
  }

  ghost predicate Summarizes(runners: Runners, ids: set<string>, now: int, pools: map<string, Supply>) {
    && (forall pool :: pool in pools <==> Members(runners, ids, pool) != {})
    && (forall pool :: pool in pools ==> Supplies(runners, ids, now, pool, pools[pool]))
  }

  /** One supply for each pool in use, in the order of the pool keys. */
  ghost predicate IsSummary(runners: Runners, now: int, supplies: seq<Supply>) {
    && IsSorted(PoolKeys(supplies))
    && (forall pool :: pool in PoolKeys(supplies) <==> Members(runners, runners.Keys, pool) != {})
    && (forall i :: 0 <= i < |supplies| ==>
          Supplies(runners, runners.Keys, now, supplies[i].poolKey, supplies[i]))
  }

  function PoolKeys(supplies: seq<Supply>): seq<string> {
    seq(|supplies|, i requires 0 <= i < |supplies| => supplies[i].poolKey)
  }

  // ---------------------------------------------------------------------------------------------
  // The aggregation loop
  // ---------------------------------------------------------------------------------------------

  function EmptySupply(pool: string): Supply {
    Supply(pool, 0, 0, 0, 0, 0, 0, 0)
  }

  function WithRunner(supply: Supply, status: Status): Supply {
    supply.(
      registeredRunners := SaturatingAdd(supply.registeredRunners, 1),
      dispatchableRunners :=
        if status.dispatchable then SaturatingAdd(supply.dispatchableRunners, 1) else supply.dispatchableRunners,
      staleRunners :=
        if status.stale then SaturatingAdd(supply.staleRunners, 1) else supply.staleRunners,
      runningTasks := SaturatingAdd(supply.runningTasks, status.runningTasks),
      capacityRemaining := SaturatingAdd(supply.capacityRemaining, status.capacityRemaining),
      maxConcurrency := SaturatingAdd(supply.maxConcurrency, status.registration.maxConcurrency))
  }

  lemma MembersStep(runners: Runners, ids: set<string>, id: string, pool: string)
    requires id in runners && id !in ids
    ensures Members(runners, ids + {id}, pool) ==
      if InPool(runners[id].registration, pool) then Members(runners, ids, pool) + {id}
      else Members(runners, ids, pool)
  {
  }

  lemma AddedRunner(runners: Runners, ids: set<string>, now: int, id: string, supply: Supply)
    requires ids <= runners.Keys && id in runners && id !in ids
    requires Supplies(runners, ids, now, RunnerPoolKey(runners[id].registration), supply)
    ensures Supplies(runners, ids + {id}, now, RunnerPoolKey(runners[id].registration),
                     WithRunner(supply, StatusOf(runners[id], now)))
  {
    var pool := RunnerPoolKey(runners[id].registration);
    var next := WithRunner(supply, StatusOf(runners[id], now));
    var before, after := Members(runners, ids, pool), Members(runners, ids + {id}, pool);
    PoolKeyIsThePool(runners[id].registration, pool);
    MembersStep(runners, ids, id, pool);
    forall counter ensures Read(next, counter) == Capped(Total(runners, after, now, counter)) {
      TotalStep(runners, after, now, counter, id);
      assert after - {id} == before;
      AddedAmount(supply, runners[id], now, counter, Total(runners, before, now, counter));
    }
  }

  lemma AddedAmount(supply: Supply, record: Record, now: int, counter: Counter, total: nat)
    requires Read(supply, counter) == Capped(total)
    ensures Read(WithRunner(supply, StatusOf(record, now)), counter) == Capped(Amount(record, now, counter) + total)
  {
  }

  lemma NoRunners(runners: Runners, ids: set<string>, now: int, pool: string)
    requires Members(runners, ids, pool) == {}
    ensures Supplies(runners, ids, now, pool, EmptySupply(pool))
  {
  }

  lemma AggregateStep(runners: Runners, ids: set<string>, now: int, id: string,
                      pools: map<string, Supply>, supply: Supply)
    requires ids <= runners.Keys && id in runners && id !in ids
    requires Summarizes(runners, ids, now, pools)
    requires Supplies(runners, ids + {id}, now, RunnerPoolKey(runners[id].registration), supply)
    ensures Summarizes(runners, ids + {id}, now, pools[RunnerPoolKey(runners[id].registration) := supply])
  {
    var key := RunnerPoolKey(runners[id].registration);
    var next := pools[key := supply];
    forall pool ensures pool in next <==> Members(runners, ids + {id}, pool) != {}
                ensures pool in next ==> Supplies(runners, ids + {id}, now, pool, next[pool]) {
      PoolKeyIsThePool(runners[id].registration, pool);
      MembersStep(runners, ids, id, pool);
      assert pool == key ==> id in Members(runners, ids + {id}, pool);
      assert pool in pools ==> Supplies(runners, ids, now, pool, pools[pool]);
    }
  }

  /** Whatever the order in which the runners come, the pools are the declarative summary. */
  method Aggregate(runners: Runners, order: seq<string>, now: int) returns (pools: map<string, Supply>)
    requires AreDistinct(order) && (forall id :: id in order <==> id in runners)
    ensures Summarizes(runners, runners.Keys, now, pools)
  {
    pools := map[];
    ghost var ids: set<string> := {};
    for i := 0 to |order|
      invariant ids == set id | id in order[..i]
      invariant Summarizes(runners, ids, now, pools)
    {
      var id := order[i];
      assert id in runners;
      assert order[..i + 1] == order[..i] + [id];
      var record := runners[id];
      var key := RunnerPoolKey(record.registration);
      var entry := if key in pools then pools[key] else EmptySupply(key);
      if key !in pools {
        NoRunners(runners, ids, now, key);
      }
      AddedRunner(runners, ids, now, id, entry);
      entry := WithRunner(entry, StatusOf(record, now));
      AggregateStep(runners, ids, now, id, pools, entry);
      pools := pools[key := entry];
      ids := ids + {id};
    }
    assert order[..|order|] == order;
    assert ids == runners.Keys;
  }

  method RunnerPoolSupplies(runners: Runners, now: int) returns (supplies: seq<Supply>)
    ensures IsSummary(runners, now, supplies)
  {
    var order := SortedKeys(runners.Keys);
    SortedIsDistinct(order);
    var pools := Aggregate(runners, order, now);
    var keys := SortedKeys(pools.Keys);
    supplies := seq(|keys|, i requires 0 <= i < |keys| && keys[i] in pools => pools[keys[i]]);
    forall i | 0 <= i < |keys| ensures Supplies(runners, runners.Keys, now, keys[i], supplies[i]) {
      assert keys[i] in pools;
    }
    assert PoolKeys(supplies) == keys;
  }

  // ---------------------------------------------------------------------------------------------
  // Sorted keys
  // ---------------------------------------------------------------------------------------------

  predicate Before(a: string, b: string) {
    if b == "" then false
    else if a == "" then true
    else a[0] < b[0] || (a[0] == b[0] && Before(a[1..], b[1..]))
  }

  /** The order is that of the first difference; a text comes after its beginnings. */
  lemma {:induction false} BeforeIsLexicographic(a: string, b: string)
    ensures Before(a, b) <==> exists k :: IsFirstDifference(a, b, k)
  {
    if b != "" && a != "" && a[0] == b[0] {
      BeforeIsLexicographic(a[1..], b[1..]);
      forall k ensures IsFirstDifference(a[1..], b[1..], k) <==> k >= 0 && IsFirstDifference(a, b, k + 1) {
        DifferenceStep(a, b, k);
      }
      assert !IsFirstDifference(a, b, 0);
      if k :| IsFirstDifference(a, b, k) {
        assert IsFirstDifference(a[1..], b[1..], k - 1);
      }
    } else {
      assert Before(a, b) ==> IsFirstDifference(a, b, 0);
    }
  }

  lemma DifferenceStep(a: string, b: string, k: int)
    requires a != "" && b != "" && a[0] == b[0]
    ensures IsFirstDifference(a[1..], b[1..], k) <==> k >= 0 && IsFirstDifference(a, b, k + 1)
  {
    if 0 <= k < |a| && k + 1 <= |b| {
      assert a[..k + 1] == [a[0]] + a[1..][..k];
      assert b[..k + 1] == [b[0]] + b[1..][..k];
      assert a[..k + 1] == b[..k + 1] <==> a[1..][..k] == b[1..][..k] by {
        assert a[..k + 1][1..] == a[1..][..k] && b[..k + 1][1..] == b[1..][..k];
      }
    }
  }

  predicate IsFirstDifference(a: string, b: string, k: int) {
    && 0 <= k <= |a| && k < |b|
    && a[..k] == b[..k]
    && (k < |a| ==> a[k] < b[k])
  }

  lemma {:induction false} BeforeIsStrict(a: string)
    ensures !Before(a, a)
  {
    if a != "" {
      BeforeIsStrict(a[1..]);
    }
  }

  lemma {:induction false} BeforeIsTransitive(a: string, b: string, c: string)
    requires Before(a, b) && Before(b, c)
    ensures Before(a, c)
  {
    if a != "" && a[0] == b[0] && b[0] == c[0] {
      BeforeIsTransitive(a[1..], b[1..], c[1..]);
    }
  }

  lemma {:induction false} BeforeIsTotal(a: string, b: string)
    ensures a == b || Before(a, b) || Before(b, a)
  {
    if a != "" && b != "" && a[0] == b[0] {
      BeforeIsTotal(a[1..], b[1..]);
      assert a == [a[0]] + a[1..];
      assert b == [b[0]] + b[1..];
    }
  }

  predicate IsSorted(keys: seq<string>) {
    forall i, j :: 0 <= i < j < |keys| ==> Before(keys[i], keys[j])
  }

  lemma SortedIsDistinct(keys: seq<string>)
    requires IsSorted(keys)
    ensures AreDistinct(keys)
  {
    forall i, j | 0 <= i < j < |keys| ensures keys[i] != keys[j] {
      BeforeIsStrict(keys[i]);
    }
  }

  function Inserted(keys: seq<string>, key: string): seq<string> {
    if keys == [] || Before(key, keys[0]) then [key] + keys else [keys[0]] + Inserted(keys[1..], key)
  }

  lemma {:induction false} InsertedIsSorted(keys: seq<string>, key: string)
    requires IsSorted(keys) && key !in keys
    ensures IsSorted(Inserted(keys, key))
    ensures forall k :: k in Inserted(keys, key) <==> k in keys || k == key
  {
    if keys != [] {
      BeforeIsTotal(keys[0], key);
      if Before(key, keys[0]) {
        forall i | 1 <= i < |keys| ensures Before(key, keys[i]) {
          BeforeIsTransitive(key, keys[0], keys[i]);
        }
      } else {
        InsertedIsSorted(keys[1..], key);
        var rest := Inserted(keys[1..], key);
        forall i | 0 <= i < |rest| ensures Before(keys[0], rest[i]) {
          assert rest[i] in rest;
        }
        assert keys == [keys[0]] + keys[1..];
      }
    }
  }

  method SortedKeys(keys: set<string>) returns (sorted: seq<string>)
    ensures IsSorted(sorted)
    ensures forall key :: key in sorted <==> key in keys
  {
    sorted := [];
    var left := keys;
    while left != {}
      invariant left <= keys && IsSorted(sorted)
      invariant forall key :: key in sorted <==> key in keys - left
      decreases |left|
    {
      var key :| key in left;
      InsertedIsSorted(sorted, key);
      sorted := Inserted(sorted, key);
      left := left - {key};
    }
  }

  // ---------------------------------------------------------------------------------------------
  // What a summary says about the whole registry
  // ---------------------------------------------------------------------------------------------

  predicate IsCount(counter: Counter) {
    counter.Enrolled? || counter.Dispatchable? || counter.Stale?
  }

  /** The runners that a counter of runners counts. */
  ghost function Counted(runners: Runners, ids: set<string>, now: int, counter: Counter): set<string>
    requires ids <= runners.Keys
  {
    set id | id in ids && Amount(runners[id], now, counter) == 1
  }

  lemma CountedStep(runners: Runners, ids: set<string>, now: int, counter: Counter, id: string)
    requires ids <= runners.Keys && id in ids && IsCount(counter)
    ensures |Counted(runners, ids, now, counter)| ==
      Amount(runners[id], now, counter) + |Counted(runners, ids - {id}, now, counter)|
  {
    var rest := Counted(runners, ids - {id}, now, counter);
    if Amount(runners[id], now, counter) == 1 {
      assert Counted(runners, ids, now, counter) == rest + {id};
    } else {
      assert Counted(runners, ids, now, counter) == rest;
    }
  }

  /** The three counters of runners are the sizes of sets of runners. */
  lemma {:induction false} TotalIsCount(runners: Runners, ids: set<string>, now: int, counter: Counter)
    requires ids <= runners.Keys && IsCount(counter)
    ensures Total(runners, ids, now, counter) == |Counted(runners, ids, now, counter)|
    decreases |ids|
  {
    if ids != {} {
      var id :| id in ids;
      TotalStep(runners, ids, now, counter, id);
      CountedStep(runners, ids, now, counter, id);
      TotalIsCount(runners, ids - {id}, now, counter);
    }
  }

  lemma {:induction false} DispatchableOrStale(runners: Runners, ids: set<string>, now: int)
    requires ids <= runners.Keys
    ensures Total(runners, ids, now, Dispatchable) + Total(runners, ids, now, Stale)
      <= Total(runners, ids, now, Enrolled) == |ids|
    decreases |ids|
  {
    if ids != {} {
      var id :| id in ids;
      TotalStep(runners, ids, now, Dispatchable, id);
      TotalStep(runners, ids, now, Stale, id);
      TotalStep(runners, ids, now, Enrolled, id);
      DispatchableOrStale(runners, ids - {id}, now);
    }
  }

  /** Within one pool, dispatchable and stale runners do not exceed the registered ones, unless the
      pool is too large for its counters. */
  lemma DispatchableAndStale(runners: Runners, now: int, pool: string, supply: Supply)
    requires Supplies(runners, runners.Keys, now, pool, supply)
    ensures var members := Members(runners, runners.Keys, pool);
      var dispatchable, stale := Total(runners, members, now, Dispatchable), Total(runners, members, now, Stale);
      supply.dispatchableRunners + supply.staleRunners <= supply.registeredRunners <==>
        |members| <= U32_MAX || dispatchable + stale <= U32_MAX || dispatchable == 0 || stale == 0
  {
    var members := Members(runners, runners.Keys, pool);
    DispatchableOrStale(runners, members, now);
    assert Read(supply, Dispatchable) == supply.dispatchableRunners;
    assert Read(supply, Stale) == supply.staleRunners;
    assert Read(supply, Enrolled) == supply.registeredRunners;
  }

  function RegisteredSum(supplies: seq<Supply>): nat {
    if supplies == [] then 0
    else RegisteredSum(supplies[..|supplies| - 1]) + supplies[|supplies| - 1].registeredRunners
  }

  /** The runners of any of these pools. */
  function MembersOfAny(runners: Runners, pools: seq<string>): set<string> {
    set id | id in runners && exists i :: 0 <= i < |pools| && InPool(runners[id].registration, pools[i])
  }

  predicate Fit(runners: Runners, pools: seq<string>) {
    forall i :: 0 <= i < |pools| ==> |Members(runners, runners.Keys, pools[i])| <= U32_MAX
  }

  lemma {:induction false} RegisteredAddUp(runners: Runners, now: int, supplies: seq<Supply>)
    requires AreDistinct(PoolKeys(supplies))
    requires forall i :: 0 <= i < |supplies| ==> Supplies(runners, runners.Keys, now, supplies[i].poolKey, supplies[i])
    ensures RegisteredSum(supplies) <= |MembersOfAny(runners, PoolKeys(supplies))|
    ensures RegisteredSum(supplies) == |MembersOfAny(runners, PoolKeys(supplies))| <==> Fit(runners, PoolKeys(supplies))
  {
    var pools := PoolKeys(supplies);
    if supplies == [] {
      assert MembersOfAny(runners, pools) == {};
    } else {
      var n := |supplies| - 1;
      var last := Members(runners, runners.Keys, pools[n]);
      assert PoolKeys(supplies[..n]) == pools[..n];
      RegisteredAddUp(runners, now, supplies[..n]);
      MembersOfLast(runners, pools);
      DispatchableOrStale(runners, last, now);
      assert Read(supplies[n], Enrolled) == Capped(|last|);
      assert Fit(runners, pools) <==> Fit(runners, pools[..n]) && |last| <= U32_MAX;
    }
  }

  lemma MembersOfLast(runners: Runners, pools: seq<string>)
    requires pools != [] && AreDistinct(pools)
    ensures var n := |pools| - 1;
      |MembersOfAny(runners, pools)| == |MembersOfAny(runners, pools[..n])| + |Members(runners, runners.Keys, pools[n])|
  {
    var n := |pools| - 1;
    var rest, last := MembersOfAny(runners, pools[..n]), Members(runners, runners.Keys, pools[n]);
    forall id | id in runners && id in last ensures id !in rest {
      forall i | 0 <= i < n ensures !InPool(runners[id].registration, pools[i]) {
        PoolKeyIsThePool(runners[id].registration, pools[i]);
        PoolKeyIsThePool(runners[id].registration, pools[n]);
      }
    }
    assert MembersOfAny(runners, pools) == rest + last;
  }

  /** Every runner is counted in exactly one pool: the registered counts add up to the number of
      runners exactly when no pool is too large for its counter. */
  lemma EveryRunnerIsCountedOnce(runners: Runners, now: int, supplies: seq<Supply>)
    requires IsSummary(runners, now, supplies)
    ensures RegisteredSum(supplies) <= |runners|
    ensures RegisteredSum(supplies) == |runners| <==> Fit(runners, PoolKeys(supplies))
  {
    SortedIsDistinct(PoolKeys(supplies));
    RegisteredAddUp(runners, now, supplies);
    forall id | id in runners ensures id in MembersOfAny(runners, PoolKeys(supplies)) {
      var pool := RunnerPoolKey(runners[id].registration);
      PoolKeyIsThePool(runners[id].registration, pool);
      assert id in Members(runners, runners.Keys, pool);
      assert pool in PoolKeys(supplies);
    }
    assert MembersOfAny(runners, PoolKeys(supplies)) == runners.Keys;
  }

  /** There is only one summary: the result does not depend on how the runners were visited. */
  lemma SummaryIsUnique(runners: Runners, now: int, a: seq<Supply>, b: seq<Supply>)
    requires IsSummary(runners, now, a) && IsSummary(runners, now, b)
    ensures a == b
  {
    SortedIsUnique(PoolKeys(a), PoolKeys(b));
    forall i | 0 <= i < |a| ensures a[i] == b[i] {
      assert PoolKeys(a)[i] == PoolKeys(b)[i];
      SupplyIsUnique(runners, now, a[i].poolKey, a[i], b[i]);
    }
  }

  lemma SupplyIsUnique(runners: Runners, now: int, pool: string, a: Supply, b: Supply)
    requires Supplies(runners, runners.Keys, now, pool, a) && Supplies(runners, runners.Keys, now, pool, b)
    ensures a == b
  {
    assert forall counter :: Read(a, counter) == Read(b, counter);
    assert Read(a, Enrolled) == Read(b, Enrolled) && Read(a, Dispatchable) == Read(b, Dispatchable);
    assert Read(a, Running) == Read(b, Running) && Read(a, Capacity) == Read(b, Capacity);
    assert Read(a, Concurrency) == Read(b, Concurrency) && Read(a, Stale) == Read(b, Stale);
  }

  lemma {:induction false} SortedIsUnique(a: seq<string>, b: seq<string>)
    requires IsSorted(a) && IsSorted(b) && forall key :: key in a <==> key in b
    ensures a == b
  {
    HasKey(a);
    HasKey(b);
    if a != [] && b != [] {
      FirstIsLeast(a, b);
      forall key ensures key in a[1..] <==> key in b[1..] {
        RestKeys(a, key);
        RestKeys(b, key);
      }
      SortedIsUnique(a[1..], b[1..]);
      assert a == [a[0]] + a[1..];
      assert b == [b[0]] + b[1..];
    }
  }

  lemma HasKey(keys: seq<string>)
    ensures keys != [] ==> exists key :: key in keys
  {
    if keys != [] {
      assert keys[0] in keys;
    }
  }

  lemma FirstIsLeast(a: seq<string>, b: seq<string>)
    requires IsSorted(a) && IsSorted(b) && a != [] && b != [] && forall key :: key in a <==> key in b
    ensures a[0] == b[0]
  {
    if a[0] != b[0] {
      assert a[0] in b && b[0] in a;
      var i :| 0 < i < |b| && b[i] == a[0];
      var j :| 0 < j < |a| && a[j] == b[0];
      BeforeIsTransitive(a[0], b[0], a[0]);
      BeforeIsStrict(a[0]);
    }
  }

  lemma RestKeys(keys: seq<string>, key: string)
    requires IsSorted(keys) && keys != []
    ensures key in keys[1..] <==> key in keys && key != keys[0]
  {
    SortedIsDistinct(keys);
    assert keys == [keys[0]] + keys[1..];
  }
}
