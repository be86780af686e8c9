// Tables of counters that are bounded by evicting the lowest counter: the blocked domains of
// internal/filter/filter.go, the queried domains of internal/metrics/metrics.go, and the
// clients of internal/clientstats/clientstats.go, which are evicted by age.
module Counters {
  // What was counted and evicted, in order; with a count may go an amount that is added up.
  datatype Tally =
    | Nothing
    | Counted(past: Tally, key: string, amount: int := 0)
    | Evicted(past: Tally, key: string)

  function Of(counts: map<string, nat>, key: string): nat {
    if key in counts then counts[key] else 0
  }

  function Counts(t: Tally): map<string, nat> {
    match t
    case Nothing => map[]
    case Counted(past, key, _) => Counts(past)[key := Of(Counts(past), key) + 1]
    case Evicted(past, key) => Counts(past) - {key}
  }

  // How often a key was counted since it was last evicted.
  function Since(t: Tally, key: string): nat {
    match t
    case Nothing => 0
    case Counted(past, k, _) => Since(past, key) + if k == key then 1 else 0
    case Evicted(past, k) => if k == key then 0 else Since(past, key)
  }

  // What was added up for a key since it was last evicted.
  function AmountSince(t: Tally, key: string): int {
    match t
    case Nothing => 0
    case Counted(past, k, amount) => AmountSince(past, key) + if k == key then amount else 0
    case Evicted(past, k) => if k == key then 0 else AmountSince(past, key)
  }

  function Times(t: Tally, key: string): nat {
    match t
    case Nothing => 0
    case Counted(past, k, _) => Times(past, key) + if k == key then 1 else 0
    case Evicted(past, _) => Times(past, key)
  }

  predicate WasEvicted(t: Tally, key: string) {
    t != Nothing && ((t.Evicted? && t.key == key) || WasEvicted(t.past, key))
  }

  function Length(t: Tally): nat {
    match t
    case Nothing => 0
    case Counted(past, _, _) => Length(past) + 1
    case Evicted(past, _) => Length(past)
  }

  // The keys counted, in order.
  function Keys(t: Tally): seq<string> {
    match t
    case Nothing => []
    case Counted(past, key, _) => Keys(past) + [key]
    case Evicted(past, _) => Keys(past)
  }

  lemma {:induction false} TallyCountsItsKeys(t: Tally, key: string)
    ensures Length(t) == |Keys(t)| && Times(t, key) == multiset(Keys(t))[key]
  {
    if t != Nothing {
      TallyCountsItsKeys(t.past, key);
    }
  }

  // What was counted for keys at the time they were evicted.
  function Lost(t: Tally): nat {
    match t
    case Nothing => 0
    case Counted(past, _, _) => Lost(past)
    case Evicted(past, key) => Lost(past) + Of(Counts(past), key)
  }

  // A counter says how often its key was counted since its last eviction; that is never more
  // than the true count, and is the true count if the key was never evicted.
  lemma {:induction false} CountersAreTrueSinceEviction(t: Tally, key: string)
    ensures Of(Counts(t), key) == Since(t, key) && (key in Counts(t) <==> Since(t, key) > 0)
    ensures Since(t, key) <= Times(t, key)
    ensures !WasEvicted(t, key) ==> Since(t, key) == Times(t, key)
  {
    if t != Nothing {
      CountersAreTrueSinceEviction(t.past, key);
    }
  }

  // ---------- Sums ----------

  lemma Smaller(m: map<string, nat>, k: string)
    requires k in m
    ensures |m - {k}| == |m| - 1
  {
    assert (m - {k}).Keys == m.Keys - {k};
  }

  ghost function Sum(m: map<string, nat>): nat
    decreases |m|
  {
    if m == map[] then 0
    else
      var k :| k in m;
      Smaller(m, k);
      m[k] + Sum(m - {k})
  }

  // The order in which a sum is taken does not matter.
  lemma {:induction false} SumTakesOut(m: map<string, nat>, key: string)
    requires key in m
    ensures Sum(m) == m[key] + Sum(m - {key})
    decreases |m|
  {
    var k :| k in m && Sum(m) == m[k] + Sum(m - {k});
    if k != key {
      Smaller(m, k);
      Smaller(m, key);
      SumTakesOut(m - {k}, key);
      SumTakesOut(m - {key}, k);
      assert m - {k} - {key} == m - {key} - {k};
    }
  }

  lemma SumCounts(m: map<string, nat>, key: string)
    ensures Sum(m[key := Of(m, key) + 1]) == Sum(m) + 1
  {
    var more := m[key := Of(m, key) + 1];
    SumTakesOut(more, key);
    assert more - {key} == m - {key};
    if key in m {
      SumTakesOut(m, key);
    } else {
      assert m - {key} == m;
    }
  }

  lemma SumEvicts(m: map<string, nat>, key: string)
    ensures Sum(m - {key}) + Of(m, key) == Sum(m)
  {
    if key in m {
      SumTakesOut(m, key);
    } else {
      assert m - {key} == m;
    }
  }

  // What is stored and what was evicted add up to what was counted.
  lemma {:induction false} StoredPlusEvictedIsCounted(t: Tally)
    ensures Sum(Counts(t)) + Lost(t) == Length(t)
  {
    match t
    case Nothing =>
    case Counted(past, key, _) =>
      StoredPlusEvictedIsCounted(past);
      SumCounts(Counts(past), key);
    case Evicted(past, key) =>
      StoredPlusEvictedIsCounted(past);
      SumEvicts(Counts(past), key);
  }

  // ---------- Sizes ----------

  ghost predicate IsLowest(counts: map<string, nat>, key: string) {
    key in counts && forall k :: k in counts ==> counts[key] <= counts[k]
  }

  lemma CountsOneMore(t: Tally, counts: map<string, nat>, key: string, amount: int := 0)
    requires counts == Counts(t)
    ensures var after := Counted(t, key, amount);
      && counts[key := Of(counts, key) + 1] == Counts(after)
      && |Counts(after)| == (if key in counts then |counts| else |counts| + 1)
      && (key != "" && "" !in counts ==> "" !in Counts(after))
  {
    assert Counts(Counted(t, key, amount)).Keys == counts.Keys + {key};
  }

  lemma CountsWithout(t: Tally, counts: map<string, nat>, key: string)
    requires counts == Counts(t)
    ensures counts - {key} == Counts(Evicted(t, key))
    ensures |Counts(Evicted(t, key))| == if key in counts then |counts| - 1 else |counts|
    ensures "" !in counts ==> "" !in Counts(Evicted(t, key))
  {
    if key in counts {
      Smaller(counts, key);
    } else {
      assert counts - {key} == counts;
    }
  }

  // The lowest of the counters looked at so far, by a pass that has some left to look at.
  ghost predicate LowestSoFar(counts: map<string, nat>, todo: set<string>, first: bool, key: string, count: nat) {
    if first then key == "" && counts.Keys <= todo
    else key in counts && counts[key] == count && forall k :: k in counts && k !in todo ==> count <= counts[k]
  }

  lemma LowestOfOneMore(counts: map<string, nat>, todo: set<string>, first: bool, lowest: string, count: nat,
                        key: string)
    requires LowestSoFar(counts, todo, first, lowest, count) && key in counts
    ensures if first || counts[key] < count then LowestSoFar(counts, todo - {key}, false, key, counts[key])
            else LowestSoFar(counts, todo - {key}, first, lowest, count)
  {
  }
}
