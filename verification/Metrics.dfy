// The query log and the domain counters of internal/metrics/metrics.go.
module Metrics {
  import opened Arithmetic
  import opened Counters

  datatype QueryLog = QueryLog(
    timestamp: int,
    clientIP: string,
    domain: string,
    queryType: string,
    rcode: string,
    latency: int,
    cached: bool,
    protocol: string)

  datatype DomainCounter = DomainCounter(count: nat, totalLatNs: int)

  datatype DomainStat = DomainStat(domain: string, count: nat, avgLatency: real)

  // ---------- The ring ----------

  // The place of the i-th of the entries in the ring, oldest first.
  function Place(size: nat, idx: nat, len: nat, i: nat): int {
    if idx + i < len then idx - len + i + size else idx - len + i
  }

  // The ring holds the end of the log.
  ghost predicate Holds(ring: seq<QueryLog>, idx: nat, len: nat, log: seq<QueryLog>) {
    && idx < |ring| && len == Min(|log|, |ring|) && (len < |ring| ==> idx == len)
    && forall i :: 0 <= i < len ==> ring[Place(|ring|, idx, len, i)] == log[|log| - len + i]
  }

  lemma QuotientIsOne(x: int, size: nat)
    requires size <= x < 2 * size
    ensures x / size == 1
  {
  }

  lemma SubtractOnce(x: int, size: nat)
    requires size <= x < 2 * size
    ensures x % size == x - size
  {
    assert x == size + (x - size);
    QuotientIsOne(x, size);
  }

  lemma Wraps(x: int, size: nat)
    requires 0 <= x < 2 * size
    ensures x % size == if x < size then x else x - size
  {
    if x >= size {
      SubtractOnce(x, size);
    }
  }

  lemma Appends(ring: seq<QueryLog>, idx: nat, len: nat, log: seq<QueryLog>, entry: QueryLog)
    requires Holds(ring, idx, len, log)
    ensures Holds(ring[idx := entry], if idx + 1 < |ring| then idx + 1 else 0, Min(len + 1, |ring|), log + [entry])
  {
    var ring2, log2 := ring[idx := entry], log + [entry];
    var idx2, len2 := if idx + 1 < |ring| then idx + 1 else 0, Min(len + 1, |ring|);
    forall i | 0 <= i < len2
      ensures ring2[Place(|ring|, idx2, len2, i)] == log2[|log2| - len2 + i]
    {
      if i < len2 - 1 {
        var was := if len2 == len then i + 1 else i;
        assert ring[Place(|ring|, idx, len, was)] == log[|log| - len + was];
      }
    }
  }

  // Where the code looks for the i-th entry, it finds it.
  lemma Reads(ring: seq<QueryLog>, idx: nat, len: nat, log: seq<QueryLog>, i: nat)
    requires Holds(ring, idx, len, log) && i < len
    ensures 0 <= (idx - len + i + |ring|) % |ring| < |ring|
    ensures ring[(idx - len + i + |ring|) % |ring|] == log[|log| - len + i]
  {
    Wraps(idx - len + i + |ring|, |ring|);
    assert ring[Place(|ring|, idx, len, i)] == log[|log| - len + i];
  }

  lemma SameElements(a: seq<QueryLog>, b: seq<QueryLog>)
    requires |a| == |b| && forall i :: 0 <= i < |a| ==> a[i] == b[i]
    ensures a == b
  {
  }

  // ---------- The counters ----------

  function CountsOf(counters: map<string, DomainCounter>): map<string, nat> {
    map k | k in counters :: counters[k].count
  }

  lemma SameKeys(counters: map<string, DomainCounter>)
    ensures |CountsOf(counters)| == |counters| && CountsOf(counters).Keys == counters.Keys
  {
    assert CountsOf(counters).Keys == counters.Keys;
  }

  // The counters after a query: the tally goes on, and the size stays within the limit as
  // long as no empty domain was recorded.
  ghost predicate Keeps(max: nat, counters: map<string, DomainCounter>, tally: Tally) {
    && CountsOf(counters) == Counts(tally)
    && (forall k :: k in counters ==> counters[k].totalLatNs == AmountSince(tally, k))
    && (Times(tally, "") == 0 ==> |counters| <= max)
  }

  lemma EvictKeeps(max: nat, counters: map<string, DomainCounter>, tally: Tally, lowest: string)
    requires Keeps(max, counters, tally) && lowest in counters
    ensures Keeps(max, counters - {lowest}, Evicted(tally, lowest))
    ensures |counters - {lowest}| == |counters| - 1
  {
    assert CountsOf(counters - {lowest}) == CountsOf(counters) - {lowest};
    SameKeys(counters);
    SameKeys(counters - {lowest});
    CountsWithout(tally, Counts(tally), lowest);
  }

  lemma CountsOfWith(counters: map<string, DomainCounter>, domain: string, c: DomainCounter)
    ensures CountsOf(counters[domain := c]) == CountsOf(counters)[domain := c.count]
  {
  }

  function Plus(c: DomainCounter, latency: int): DomainCounter {
    DomainCounter(c.count + 1, c.totalLatNs + latency)
  }

  // Of a key that was not counted since its eviction nothing was added up.
  lemma {:induction false} NothingSinceEviction(tally: Tally, key: string)
    ensures Since(tally, key) == 0 ==> AmountSince(tally, key) == 0
  {
    if tally != Nothing {
      NothingSinceEviction(tally.past, key);
    }
  }

  lemma CountKeeps(max: nat, counters: map<string, DomainCounter>, tally: Tally, domain: string, latency: int,
                   c: DomainCounter)
    requires Keeps(max, counters, tally)
    requires c == Plus(if domain in counters then counters[domain] else DomainCounter(0, 0), latency)
    requires domain in counters || |counters| < max || Times(tally, "") > 0 || domain == ""
    ensures Keeps(max, counters[domain := c], Counted(tally, domain, latency))
  {
    CountsOfWith(counters, domain, c);
    SameKeys(counters);
    SameKeys(counters[domain := c]);
    CountsOneMore(tally, Counts(tally), domain, latency);
    CountersAreTrueSinceEviction(tally, domain);
    NothingSinceEviction(tally, domain);
  }

  // ---------- Top domains ----------

  function StatOf(domain: string, c: DomainCounter): DomainStat {
    DomainStat(domain, c.count, if c.count > 0 then c.totalLatNs as real / c.count as real / 1_000_000.0 else 0.0)
  }

  // Every counter once.
  ghost predicate Enumerates(stats: seq<DomainStat>, counters: map<string, DomainCounter>) {
    && (forall i :: 0 <= i < |stats| ==>
          stats[i].domain in counters && stats[i] == StatOf(stats[i].domain, counters[stats[i].domain]))
    && (forall i, j :: 0 <= i < j < |stats| ==> stats[i].domain != stats[j].domain)
    && forall k :: k in counters ==> exists i :: 0 <= i < |stats| && stats[i].domain == k
  }

  // The first n are in descending order, and the rest count no more than any of them.
  ghost predicate TopFirst(stats: seq<DomainStat>, n: nat) {
    n <= |stats| && forall i, j :: 0 <= i < j < |stats| && i < n ==> stats[i].count >= stats[j].count
  }

  // The highest counters, each once: none that is left out counts more than any of them.
  ghost predicate IsTop(result: seq<DomainStat>, counters: map<string, DomainCounter>) {
    && (forall i :: 0 <= i < |result| ==>
          result[i].domain in counters && result[i] == StatOf(result[i].domain, counters[result[i].domain]))
    && (forall i, j :: 0 <= i < j < |result| ==>
          result[i].domain != result[j].domain && result[i].count >= result[j].count)
    && forall k, i :: k in counters && 0 <= i < |result| && counters[k].count > result[i].count ==>
         exists j :: 0 <= j < |result| && result[j].domain == k
  }

  lemma TopOfEnumeration(stats: seq<DomainStat>, n: nat, counters: map<string, DomainCounter>)
    requires Enumerates(stats, counters) && TopFirst(stats, n)
    ensures IsTop(stats[..n], counters)
  {
    var result := stats[..n];
    forall k, i | k in counters && 0 <= i < n && counters[k].count > result[i].count
      ensures exists j :: 0 <= j < n && result[j].domain == k
    {
      var j :| 0 <= j < |stats| && stats[j].domain == k;
      assert j < n ==> result[j].domain == k;
    }
  }

  lemma TwoCopies(s: seq<DomainStat>, i: nat, j: nat)
    requires i < j < |s| && s[i] == s[j]
    ensures multiset(s)[s[i]] >= 2
  {
    assert s == s[..j] + s[j..];
    assert s[i] in s[..j] && s[j] in s[j..];
  }

  lemma {:induction false} OneCopy(s: seq<DomainStat>, x: DomainStat)
    requires forall i, j :: 0 <= i < j < |s| ==> s[i].domain != s[j].domain
    ensures multiset(s)[x] <= 1
  {
    if s != [] {
      var init, last := s[..|s| - 1], s[|s| - 1];
      OneCopy(init, x);
      assert s == init + [last];
    }
  }

  lemma PermutedEnumeration(all: seq<DomainStat>, stats: seq<DomainStat>, counters: map<string, DomainCounter>)
    requires Enumerates(all, counters) && multiset(stats) == multiset(all)
    ensures Enumerates(stats, counters)
  {
    forall i | 0 <= i < |stats|
      ensures stats[i].domain in counters && stats[i] == StatOf(stats[i].domain, counters[stats[i].domain])
    {
      assert stats[i] in multiset(stats) && stats[i] in all;
    }
    forall i, j | 0 <= i < j < |stats|
      ensures stats[i].domain != stats[j].domain
    {
      if stats[i].domain == stats[j].domain {
        TwoCopies(stats, i, j);
        OneCopy(all, stats[i]);
      }
    }
    forall k | k in counters
      ensures exists i :: 0 <= i < |stats| && stats[i].domain == k
    {
      var i :| 0 <= i < |all| && all[i].domain == k;
      assert all[i] in multiset(all) && all[i] in stats;
    }
  }

  lemma {:induction false} DomainsOf(stats: seq<DomainStat>)
    requires forall i, j :: 0 <= i < j < |stats| ==> stats[i].domain != stats[j].domain
    ensures |set i | 0 <= i < |stats| :: stats[i].domain| == |stats|
  {
    if stats != [] {
      var init, last := stats[..|stats| - 1], stats[|stats| - 1];
      DomainsOf(init);
      assert (set i | 0 <= i < |stats| :: stats[i].domain)
          == (set i | 0 <= i < |init| :: init[i].domain) + {last.domain};
    }
  }

  lemma EnumerationSize(stats: seq<DomainStat>, counters: map<string, DomainCounter>)
    requires Enumerates(stats, counters)
    ensures |stats| == |counters|
  {
    DomainsOf(stats);
    assert (set i | 0 <= i < |stats| :: stats[i].domain) == counters.Keys;
  }

  // Swapping in a maximum of the rest keeps what came before.
  lemma SwapExtendsTop(stats: seq<DomainStat>, n: nat, best: nat)
    requires TopFirst(stats, n) && n <= best < |stats|
    requires forall j :: n <= j < |stats| ==> stats[j].count <= stats[best].count
    ensures TopFirst(stats[n := stats[best]][best := stats[n]], n + 1)
    ensures multiset(stats[n := stats[best]][best := stats[n]]) == multiset(stats)
  {
  }

  // ---------- What recording does to the counters ----------

  datatype Table = Table(counters: map<string, DomainCounter>, tally: Tally)

  function Without(t: Table, domain: string): Table {
    Table(t.counters - {domain}, Evicted(t.tally, domain))
  }

  function With(t: Table, domain: string, latency: int): Table {
    var c := if domain in t.counters then t.counters[domain] else DomainCounter(0, 0);
    Table(t.counters[domain := Plus(c, latency)], Counted(t.tally, domain, latency))
  }

  // A domain with the lowest count goes, or, when the one picked is the empty domain, none.
  ghost predicate EvictsLowest(before: Table, after: Table) {
    exists k :: IsLowest(CountsOf(before.counters), k) && after == if k == "" then before else Without(before, k)
  }

  // A domain is recorded: a new one makes room first when the table is full.
  ghost predicate Recorded(max: nat, before: Table, after: Table, domain: string, latency: int) {
    if domain !in before.counters && |before.counters| >= max then
      exists room :: EvictsLowest(before, room) && after == With(room, domain, latency)
    else after == With(before, domain, latency)
  }

  lemma EmptyWasRecorded(tally: Tally, counters: map<string, DomainCounter>)
    requires CountsOf(counters) == Counts(tally)
    ensures "" in counters ==> Times(tally, "") > 0
  {
    SameKeys(counters);
    CountersAreTrueSinceEviction(tally, "");
  }

  // A domain is counted and its latency added, or counted for the first time.  Another domain goes
  // only if this one is new and the table is full, and then one that is counted least.
  lemma RecordingTouchesTwoDomains(max: nat, before: Table, after: Table, domain: string, latency: int, other: string)
    requires Recorded(max, before, after, domain, latency) && other != domain
    ensures domain in after.counters
    ensures var was, c := before.counters, after.counters[domain];
      if domain in was then c.count == was[domain].count + 1 && c.totalLatNs == was[domain].totalLatNs + latency
      else c.count == 1 && c.totalLatNs == latency
    ensures other in after.counters ==> other in before.counters && after.counters[other] == before.counters[other]
    ensures other in before.counters && other !in after.counters ==>
      && domain !in before.counters && |before.counters| >= max
      && forall k :: k in before.counters ==> before.counters[other].count <= before.counters[k].count
  {
    if other in before.counters && other !in after.counters {
      var counts := CountsOf(before.counters);
      assert IsLowest(counts, other);
      assert forall k :: k in before.counters ==> counts[k] == before.counters[k].count;
    }
  }

  // What is kept of a domain since it was last evicted: how often it was queried, and the sum of
  // the latencies.
  lemma KeptSinceEviction(max: nat, counters: map<string, DomainCounter>, tally: Tally, domain: string)
    requires Keeps(max, counters, tally) && domain in counters
    ensures counters[domain].count == Since(tally, domain) > 0
    ensures counters[domain].totalLatNs == AmountSince(tally, domain)
  {
    CountersAreTrueSinceEviction(tally, domain);
    assert Of(CountsOf(counters), domain) == counters[domain].count;
  }

  lemma Quotient(x: real, n: real)
    requires n > 0.0
    ensures x / n * n == x
  {
  }

  // The average is the mean of the latencies, in milliseconds.
  lemma AverageIsTheMean(domain: string, c: DomainCounter)
    ensures StatOf(domain, c).domain == domain && StatOf(domain, c).count == c.count
    ensures c.count > 0 ==> StatOf(domain, c).avgLatency * 1_000_000.0 * c.count as real == c.totalLatNs as real
    ensures c.count == 0 ==> StatOf(domain, c).avgLatency == 0.0
  {
    if c.count > 0 {
      var mean := c.totalLatNs as real / c.count as real;
      Quotient(c.totalLatNs as real, c.count as real);
      assert StatOf(domain, c).avgLatency == mean / 1_000_000.0;
      assert StatOf(domain, c).avgLatency * 1_000_000.0 == mean;
    }
  }

  // The domains of the queries, in order.
  function Domains(log: seq<QueryLog>): seq<string> {
    seq(|log|, i requires 0 <= i < |log| => log[i].domain)
  }

  // The log and the counters are under two locks: a query in the log that is not yet counted
  // is pending, and queries may be counted in another order than they were logged.
  ghost predicate Tied(log: seq<QueryLog>, tally: Tally, pending: multiset<string>) {
    multiset(Domains(log)) == multiset(Keys(tally)) + pending
  }

  lemma LoggingKeepsTied(log: seq<QueryLog>, tally: Tally, pending: multiset<string>, entry: QueryLog)
    requires Tied(log, tally, pending)
    ensures Tied(log + [entry], tally, pending + multiset{entry.domain})
  {
    assert Domains(log + [entry]) == Domains(log) + [entry.domain];
  }

  lemma CountingKeepsTied(log: seq<QueryLog>, before: Tally, after: Tally, pending: multiset<string>, domain: string)
    requires Tied(log, before, pending) && domain in pending && Keys(after) == Keys(before) + [domain]
    ensures Tied(log, after, pending - multiset{domain})
  {
  }

  // A stored count is no more than the number of queries for the domain, and is that number if
  // the domain was never evicted and none is pending; stored and evicted counts and what is
  // pending add up to the number of queries.
  lemma CountersCountTheLog(log: seq<QueryLog>, tally: Tally, pending: multiset<string>, domain: string)
    requires Tied(log, tally, pending)
    ensures Of(Counts(tally), domain) + pending[domain] <= multiset(Domains(log))[domain]
    ensures !WasEvicted(tally, domain) ==>
              Of(Counts(tally), domain) + pending[domain] == multiset(Domains(log))[domain]
    ensures Sum(Counts(tally)) + Lost(tally) + |pending| == |log|
  {
    TallyCountsItsKeys(tally, domain);
    CountersAreTrueSinceEviction(tally, domain);
    StoredPlusEvictedIsCounted(tally);
    assert |multiset(Domains(log))| == |log|;
  }

  // ---------- The object ----------

  class Metrics {
    const queryLogMax: nat
    const queryLog: array<QueryLog>
    var queryLogIdx: nat
    var queryLogLen: nat
    const domainCountsMax: nat
    var domainCounts: map<string, DomainCounter>
    // Everything ever recorded.
    ghost var log: seq<QueryLog>
    ghost var tally: Tally
    ghost var pending: multiset<string>

    ghost predicate RingValid()
      reads this, queryLog
    {
      queryLog.Length == queryLogMax && queryLogMax >= 1 && Holds(queryLog[..], queryLogIdx, queryLogLen, log)
    }

    ghost predicate Valid()
      reads this, queryLog
    {
      && RingValid() && domainCountsMax >= 1
      && Keeps(domainCountsMax, domainCounts, tally)
      && Tied(log, tally, pending)
    }

    ghost function Counters(): Table
      reads this
    {
      Table(domainCounts, tally)
    }

    constructor (queryLogMax: nat, domainCountsMax: nat, blank: QueryLog)
      requires queryLogMax >= 1 && domainCountsMax >= 1
      ensures Valid() && fresh(queryLog) && log == [] && tally == Nothing
      ensures this.queryLogMax == queryLogMax && this.domainCountsMax == domainCountsMax
    {
      this.queryLogMax, this.domainCountsMax := queryLogMax, domainCountsMax;
      queryLog := new QueryLog[queryLogMax](_ => blank);
      queryLogIdx, queryLogLen, log := 0, 0, [];
      domainCounts, tally, pending := map[], Nothing, multiset{};
    }

    method AddToRing(entry: QueryLog)
      requires RingValid()
      modifies this`queryLogIdx, this`queryLogLen, this`log, queryLog
      ensures RingValid() && log == old(log) + [entry]
    {
      Appends(queryLog[..], queryLogIdx, queryLogLen, log, entry);
      Wraps(queryLogIdx + 1, queryLogMax);
      ghost var was := queryLog[..];
      queryLog[queryLogIdx] := entry;
      assert queryLog[..] == was[queryLogIdx := entry];
      queryLogIdx := (queryLogIdx + 1) % queryLogMax;
      if queryLogLen < queryLogMax {
        queryLogLen := queryLogLen + 1;
      }
      log := log + [entry];
    }

    method FindLowest() returns (lowestKey: string)
      requires |domainCounts| > 0
      ensures IsLowest(CountsOf(domainCounts), lowestKey) && lowestKey in domainCounts
    {
      ghost var counts := CountsOf(domainCounts);
      SameKeys(domainCounts);
      var lowestCount, first := 0, true;
      lowestKey := "";
      var todo := domainCounts.Keys;
      while todo != {}
        invariant todo <= domainCounts.Keys && LowestSoFar(counts, todo, first, lowestKey, lowestCount)
      {
        ghost var left := todo;
        var key :| key in todo;
        todo := todo - {key};
        LowestOfOneMore(counts, left, first, lowestKey, lowestCount, key);
        if first || domainCounts[key].count < lowestCount {
          lowestKey, lowestCount, first := key, domainCounts[key].count, false;
        }
      }
      assert first ==> |counts.Keys| == 0;
    }

    method EvictLowestDomain()
      requires Keeps(domainCountsMax, domainCounts, tally) && |domainCounts| > 0
      modifies this`domainCounts, this`tally
      ensures Keeps(domainCountsMax, domainCounts, tally) && domainCounts.Keys <= old(domainCounts).Keys
      ensures EvictsLowest(old(Counters()), Counters()) && Keys(tally) == Keys(old(tally))
      ensures |domainCounts| == if tally == old(tally) then |old(domainCounts)| else |old(domainCounts)| - 1
    {
      var lowestKey := FindLowest();
      if lowestKey != "" {
        EvictKeeps(domainCountsMax, domainCounts, tally, lowestKey);
        domainCounts := domainCounts - {lowestKey};
        tally := Evicted(tally, lowestKey);
      }
    }

    method AddToCounter(domain: string, latency: int)
      requires Keeps(domainCountsMax, domainCounts, tally)
      requires domain in domainCounts || |domainCounts| < domainCountsMax || Times(tally, "") > 0 || domain == ""
      modifies this`domainCounts, this`tally
      ensures Keeps(domainCountsMax, domainCounts, tally)
      ensures Counters() == With(old(Counters()), domain, latency)
    {
      var dc := DomainCounter(0, 0);
      if domain in domainCounts {
        dc := domainCounts[domain];
      }
      dc := DomainCounter(dc.count + 1, dc.totalLatNs + latency);
      CountKeeps(domainCountsMax, domainCounts, tally, domain, latency, dc);
      domainCounts := domainCounts[domain := dc];
      tally := Counted(tally, domain, latency);
    }

    method CountDomain(domain: string, latency: int)
      requires domainCountsMax >= 1 && Keeps(domainCountsMax, domainCounts, tally)
      modifies this`domainCounts, this`tally
      ensures Keeps(domainCountsMax, domainCounts, tally) && Keys(tally) == Keys(old(tally)) + [domain]
      ensures Recorded(domainCountsMax, old(Counters()), Counters(), domain, latency)
    {
      if domain !in domainCounts && |domainCounts| >= domainCountsMax {
        EvictLowestDomain();
      }
      EmptyWasRecorded(tally, domainCounts);
      AddToCounter(domain, latency);
    }

    // What happens under the lock of the log.
    method LogQuery(entry: QueryLog)
      requires Valid()
      modifies this`queryLogIdx, this`queryLogLen, this`log, this`pending, queryLog
      ensures Valid() && log == old(log) + [entry] && pending == old(pending) + multiset{entry.domain}
    {
      LoggingKeepsTied(log, tally, pending, entry);
      AddToRing(entry);
      pending := pending + multiset{entry.domain};
    }

    // What happens under the lock of the counters.
    method CountQuery(domain: string, latency: int)
      requires Valid() && domain in pending
      modifies this`domainCounts, this`tally, this`pending
      ensures Valid() && pending == old(pending) - multiset{domain}
      ensures Recorded(domainCountsMax, old(Counters()), Counters(), domain, latency)
    {
      CountDomain(domain, latency);
      CountingKeepsTied(log, old(tally), tally, pending, domain);
      pending := pending - multiset{domain};
    }

    method RecordQueryDetail(entry: QueryLog)
      requires Valid()
      modifies this, queryLog
      ensures Valid() && log == old(log) + [entry] && pending == old(pending)
      ensures Recorded(domainCountsMax, old(Counters()), Counters(), entry.domain, entry.latency)
    {
      LogQuery(entry);
      CountQuery(entry.domain, entry.latency);
    }

    // ---------- Reading the log ----------

    // The last queries, newest first.
    method GetRecentQueries(limit: int) returns (result: seq<QueryLog>)
      requires RingValid()
      ensures |result| == if 0 < limit <= Min(|log|, queryLogMax) then limit else Min(|log|, queryLogMax)
      ensures forall i :: 0 <= i < |result| ==> result[i] == log[|log| - 1 - i]
    {
      var n := limit;
      if n <= 0 || n > queryLogLen {
        n := queryLogLen;
      }
      result := [];
      for i := 0 to n
        invariant |result| == i
        invariant forall j :: 0 <= j < i ==> result[j] == log[|log| - 1 - j]
      {
        Reads(queryLog[..], queryLogIdx, queryLogLen, log, queryLogLen - 1 - i);
        var idx := (queryLogIdx - 1 - i + queryLogMax) % queryLogMax;
        result := result + [queryLog[idx]];
      }
    }

    // All queries still in the ring, oldest first.
    method GetAllQueryLogs() returns (result: seq<QueryLog>)
      requires RingValid()
      ensures result == log[|log| - Min(|log|, queryLogMax)..]
    {
      result := [];
      for i := 0 to queryLogLen
        invariant |result| == i
        invariant forall j :: 0 <= j < i ==> result[j] == log[|log| - queryLogLen + j]
      {
        Reads(queryLog[..], queryLogIdx, queryLogLen, log, i);
        var idx := (queryLogIdx - queryLogLen + i + queryLogMax) % queryLogMax;
        result := result + [queryLog[idx]];
      }
      SameElements(result, log[|log| - queryLogLen..]);
    }

    method Collect() returns (stats: array<DomainStat>)
      ensures fresh(stats) && Enumerates(stats[..], domainCounts)
    {
      var found: seq<DomainStat> := [];
      var todo := domainCounts.Keys;
      while todo != {}
        invariant todo <= domainCounts.Keys
        invariant forall i :: 0 <= i < |found| ==>
          && found[i].domain in domainCounts && found[i].domain !in todo
          && found[i] == StatOf(found[i].domain, domainCounts[found[i].domain])
        invariant forall i, j :: 0 <= i < j < |found| ==> found[i].domain != found[j].domain
        invariant forall k :: k in domainCounts && k !in todo ==> exists i :: 0 <= i < |found| && found[i].domain == k
      {
        var domain :| domain in todo;
        todo := todo - {domain};
        ghost var was := found;
        found := found + [StatOf(domain, domainCounts[domain])];
        assert forall i :: 0 <= i < |was| ==> found[i] == was[i];
        assert found[|was|].domain == domain;
      }
      stats := new DomainStat[|found|](i requires 0 <= i < |found| => found[i]);
      assert stats[..] == found;
    }

    // A selection sort that stops at the limit.
    method SelectTop(stats: array<DomainStat>, limit: int)
      requires limit >= 0
      modifies stats
      ensures multiset(stats[..]) == multiset(old(stats[..]))
      ensures TopFirst(stats[..], Min(limit, stats.Length))
    {
      var i := 0;
      while i < stats.Length && i < limit
        invariant 0 <= i <= Min(limit, stats.Length)
        invariant TopFirst(stats[..], i) && multiset(stats[..]) == multiset(old(stats[..]))
      {
        var maxIdx := i;
        for j := i + 1 to stats.Length
          invariant i <= maxIdx < stats.Length
          invariant forall k :: i <= k < j ==> stats[k].count <= stats[maxIdx].count
        {
          if stats[j].count > stats[maxIdx].count {
            maxIdx := j;
          }
        }
        SwapExtendsTop(stats[..], i, maxIdx);
        ghost var was := stats[..];
        stats[i], stats[maxIdx] := stats[maxIdx], stats[i];
        assert stats[..] == was[i := was[maxIdx]][maxIdx := was[i]];
        i := i + 1;
      }
    }

    // The counters, the highest first as far as the limit goes.
    method GetTopDomains(limit: int) returns (result: seq<DomainStat>)
      requires Valid() && limit >= 0
      ensures |result| == Min(limit, |domainCounts|)
      ensures IsTop(result, domainCounts)
    {
      var stats := Collect();
      ghost var all := stats[..];
      SelectTop(stats, limit);
      var n := limit;
      if n > stats.Length {
        n := stats.Length;
      }
      PermutedEnumeration(all, stats[..], domainCounts);
      EnumerationSize(stats[..], domainCounts);
      TopOfEnumeration(stats[..], n, domainCounts);
      result := stats[..n];
    }
  }
}
