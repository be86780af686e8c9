// Per-client statistics: internal/clientstats/clientstats.go.  The table of clients is bounded
// by evicting the one seen longest ago.
module ClientStats {
  import opened Options
  import opened Counters
  import opened Dns

  const MAX_DOMAINS: nat := 100

  datatype ClientInfo = ClientInfo(
    ip: string,
    totalQueries: nat,
    blockedCount: nat,
    firstSeen: int,
    lastSeen: int,
    topDomains: map<string, nat>,
    totalLatency: int,
    queryCount: nat)

  // A recorded query, with the two clock readings it took and the client it evicted.
  datatype Visit = Visit(
    ip: string,
    domain: string,
    blocked: bool,
    latency: int,
    first: int,
    now: int,
    gone: Option<string>)

  datatype History = NoVisit | Visited(past: History, v: Visit)

  // ---------- What recording does ----------

  function NewClient(ip: string, now: int): ClientInfo {
    ClientInfo(ip, 0, 0, now, 0, map[], 0, 0)
  }

  function CountDomain(domains: map<string, nat>, domain: string): map<string, nat> {
    if |domains| < MAX_DOMAINS || domain in domains then domains[domain := Of(domains, domain) + 1] else domains
  }

  function Updated(c: ClientInfo, v: Visit): ClientInfo {
    c.(totalQueries := c.totalQueries + 1,
       lastSeen := v.now,
       totalLatency := c.totalLatency + v.latency,
       queryCount := c.queryCount + 1,
       blockedCount := if v.blocked then c.blockedCount + 1 else c.blockedCount,
       topDomains := CountDomain(c.topDomains, v.domain))
  }

  function Without(clients: map<string, ClientInfo>, gone: Option<string>): map<string, ClientInfo> {
    if gone.Some? then clients - {gone.value} else clients
  }

  function Clients(h: History): map<string, ClientInfo> {
    match h
    case NoVisit => map[]
    case Visited(past, v) =>
      var c := if v.ip in Clients(past) then Clients(past)[v.ip] else NewClient(v.ip, v.first);
      Without(Clients(past), v.gone)[v.ip := Updated(c, v)]
  }

  ghost predicate IsOldest(clients: map<string, ClientInfo>, ip: string) {
    ip in clients && forall other :: other in clients ==> clients[ip].lastSeen <= clients[other].lastSeen
  }

  // A new client, when the table is full, takes the place of an oldest one, unless the one
  // picked has the empty string for its address.
  ghost predicate MayEvict(max: nat, clients: map<string, ClientInfo>, v: Visit) {
    if v.ip !in clients && |clients| >= max then
      exists oldest :: IsOldest(clients, oldest) && v.gone == if oldest == "" then None else Some(oldest)
    else v.gone == None
  }

  function Clock(h: History): int
    requires h.Visited?
  {
    h.v.now
  }

  ghost predicate Legal(max: nat, h: History) {
    h.Visited? ==>
      && Legal(max, h.past)
      && (h.past.Visited? ==> Clock(h.past) <= h.v.first) && h.v.first <= h.v.now
      && MayEvict(max, Clients(h.past), h.v)
  }

  // ---------- Which clients are tracked ----------

  function Seen(h: History): set<string> {
    match h
    case NoVisit => {}
    case Visited(past, v) => Seen(past) + {v.ip}
  }

  function LastSeen(h: History, ip: string): int {
    match h
    case NoVisit => 0
    case Visited(past, v) => if v.ip == ip then v.now else LastSeen(past, ip)
  }

  lemma {:induction false} TrackedWereSeen(max: nat, h: History, ip: string)
    requires Legal(max, h) && ip in Clients(h)
    ensures ip in Seen(h) && Clients(h)[ip].lastSeen == LastSeen(h, ip)
  {
    if h.v.ip != ip {
      TrackedWereSeen(max, h.past, ip);
    }
  }

  lemma {:induction false} SeenByNow(max: nat, h: History, ip: string)
    requires Legal(max, h) && ip in Seen(h)
    ensures LastSeen(h, ip) <= Clock(h)
  {
    if h.v.ip != ip {
      SeenByNow(max, h.past, ip);
    }
  }

  // No client that is not tracked was seen after one that is.
  lemma {:induction false} TrackedAreMostRecent(max: nat, h: History, ip: string, other: string)
    requires Legal(max, h) && ip in Clients(h) && other in Seen(h) && other !in Clients(h)
    ensures LastSeen(h, other) <= LastSeen(h, ip)
  {
    if h.v.ip == ip {
      SeenByNow(max, h, other);
    } else {
      TrackedWereSeen(max, h.past, ip);
      if other in Clients(h.past) {
        TrackedWereSeen(max, h.past, other);
        assert IsOldest(Clients(h.past), other);
      } else {
        TrackedAreMostRecent(max, h.past, ip, other);
      }
    }
  }

  ghost predicate NoEmptyAddress(h: History) {
    h.Visited? ==> NoEmptyAddress(h.past) && h.v.ip != ""
  }

  lemma SizeAfterVisit(clients: map<string, ClientInfo>, gone: Option<string>, ip: string, c: ClientInfo)
    requires gone.Some? ==> gone.value in clients && gone.value != ip
    ensures |Without(clients, gone)[ip := c]|
         == |clients| + (if ip in clients then 0 else 1) - if gone.Some? then 1 else 0
  {
    assert Without(clients, gone)[ip := c].Keys == Without(clients, gone).Keys + {ip};
    if gone.Some? {
      assert (clients - {gone.value}).Keys == clients.Keys - {gone.value};
    }
  }

  // What a visit finds when it breaks the limit: a full table, in which it is new, and in which
  // no client has been seen less recently than the one with the empty address.
  ghost predicate LimitIsInDanger(max: nat, clients: map<string, ClientInfo>, ip: string) {
    ip !in clients && |clients| == max && IsOldest(clients, "")
  }

  ghost predicate BreaksLimit(max: nat, h: History, v: Visit) {
    MayEvict(max, Clients(h), v) && |Clients(Visited(h, v))| > max
  }

  // A visit can break the limit, in some order of walking the table, exactly then.
  lemma LimitBreaksExactly(max: nat, h: History, v: Visit)
    requires Legal(max, h) && |Clients(h)| <= max
    ensures (exists gone :: BreaksLimit(max, h, v.(gone := gone)))
       <==> LimitIsInDanger(max, Clients(h), v.ip)
  {
    var clients := Clients(h);
    var c := if v.ip in clients then clients[v.ip] else NewClient(v.ip, v.first);
    if LimitIsInDanger(max, clients, v.ip) {
      assert MayEvict(max, clients, v.(gone := None));
      SizeAfterVisit(clients, None, v.ip, Updated(c, v.(gone := None)));
      assert BreaksLimit(max, h, v.(gone := None));
    }
    forall gone | BreaksLimit(max, h, v.(gone := gone))
      ensures LimitIsInDanger(max, clients, v.ip)
    {
      SizeAfterVisit(clients, gone, v.ip, Updated(c, v.(gone := gone)));
    }
  }

  // The empty address, and then ever new ones.
  function Address(n: nat): string {
    if n <= 1 then "" else Decimal(n)
  }

  lemma AddressesDiffer(m: nat, n: nat)
    requires 1 <= m < n
    ensures Address(m) != Address(n)
  {
    if Address(m) == Address(n) {
      DecimalIsInjective(m, n);
    }
  }

  function Flood(n: nat): History {
    if n == 0 then NoVisit else Visited(Flood(n - 1), Visit(Address(n), "", false, 0, n, n, None))
  }

  lemma FloodStep(n: nat)
    requires n > 0 && Address(n) !in Clients(Flood(n - 1))
    ensures Clients(Flood(n)).Keys == Clients(Flood(n - 1)).Keys + {Address(n)}
    ensures forall ip :: ip in Clients(Flood(n - 1)) ==> Clients(Flood(n))[ip] == Clients(Flood(n - 1))[ip]
    ensures Clients(Flood(n))[Address(n)].lastSeen == n
    ensures |Clients(Flood(n))| == |Clients(Flood(n - 1))| + 1
  {
    var v := Flood(n).v;
    SizeAfterVisit(Clients(Flood(n - 1)), None, v.ip, Updated(NewClient(v.ip, v.first), v));
  }

  // The clients of a flood are the addresses so far, each seen in its turn.
  lemma {:induction false} FloodAddresses(n: nat)
    ensures forall ip :: ip in Clients(Flood(n)) ==> exists i: nat :: 1 <= i <= n && ip == Address(i)
    ensures forall ip :: ip in Clients(Flood(n)) ==> Clients(Flood(n))[ip].lastSeen >= 1
    ensures n > 0 ==> "" in Clients(Flood(n)) && Clients(Flood(n))[""].lastSeen == 1
    ensures |Clients(Flood(n))| == n
  {
    if n > 0 {
      FloodAddresses(n - 1);
      forall i | 1 <= i < n
        ensures Address(i) != Address(n)
      {
        AddressesDiffer(i, n);
      }
      FloodStep(n);
    }
  }

  lemma NewInFlood(n: nat)
    requires n > 0
    ensures Address(n) !in Clients(Flood(n - 1))
  {
    FloodAddresses(n - 1);
    forall i | 1 <= i < n
      ensures Address(i) != Address(n)
    {
      AddressesDiffer(i, n);
    }
  }

  lemma FloodKeepsOldest(n: nat)
    requires n > 0
    ensures IsOldest(Clients(Flood(n)), "") && |Clients(Flood(n))| == n
  {
    FloodAddresses(n);
  }

  lemma FloodStepIsLegal(max: nat, n: nat)
    requires max >= 1 && n > 0 && Legal(max, Flood(n - 1))
    ensures Legal(max, Flood(n))
  {
    NewInFlood(n);
    if n > 1 {
      FloodKeepsOldest(n - 1);
    }
    assert MayEvict(max, Clients(Flood(n - 1)), Flood(n).v);
  }

  lemma {:induction false} FloodIsLegal(max: nat, n: nat)
    requires max >= 1
    ensures Legal(max, Flood(n))
  {
    if n > 0 {
      FloodIsLegal(max, n - 1);
      FloodStepIsLegal(max, n);
    }
  }

  // Once the table is full its size is no longer limited by anything: it reaches every size,
  // while the empty address stays the oldest.
  lemma EmptyAddressLiftsTheLimit(max: nat, n: nat)
    requires max >= 1 && n > 0
    ensures Legal(max, Flood(n)) && |Clients(Flood(n))| == n && IsOldest(Clients(Flood(n)), "")
  {
    FloodIsLegal(max, n);
    FloodKeepsOldest(n);
  }

  lemma {:induction false} EmptyIsNotTracked(h: History)
    requires NoEmptyAddress(h)
    ensures "" !in Clients(h)
  {
    if h.Visited? {
      EmptyIsNotTracked(h.past);
    }
  }

  // Without the empty address the limit holds, and nothing is forgotten before it is reached.
  lemma {:induction false} TrackedAreAsManyAsAllowed(max: nat, h: History)
    requires Legal(max, h) && NoEmptyAddress(h) && max >= 1
    ensures |Clients(h)| <= max
    ensures |Clients(h)| < max ==> Clients(h).Keys == Seen(h)
  {
    if h.Visited? {
      TrackedAreAsManyAsAllowed(max, h.past);
      EmptyIsNotTracked(h.past);
      var c := if h.v.ip in Clients(h.past) then Clients(h.past)[h.v.ip] else NewClient(h.v.ip, h.v.first);
      SizeAfterVisit(Clients(h.past), h.v.gone, h.v.ip, Updated(c, h.v));
      if |Clients(h)| < max {
        assert h.v.gone == None;
        assert Clients(h).Keys == Clients(h.past).Keys + {h.v.ip};
      }
    }
  }

  // ---------- The most recently seen clients ----------

  ghost predicate TimeMovesOn(h: History) {
    h.Visited? ==> TimeMovesOn(h.past) && (h.past.Visited? ==> Clock(h.past) < h.v.now)
  }

  lemma {:induction false} TimesDiffer(max: nat, h: History, ip: string, other: string)
    requires Legal(max, h) && TimeMovesOn(h) && ip in Seen(h) && other in Seen(h) && ip != other
    ensures LastSeen(h, ip) != LastSeen(h, other)
  {
    if h.v.ip == ip {
      SeenByNow(max, h.past, other);
    } else if h.v.ip == other {
      SeenByNow(max, h.past, ip);
    } else {
      TimesDiffer(max, h.past, ip, other);
    }
  }

  // So many clients, each seen after every client that is not among them.
  ghost predicate MostRecent(h: History, max: nat, ips: set<string>) {
    && ips <= Seen(h)
    && |ips| == (if |Seen(h)| < max then |Seen(h)| else max)
    && forall ip, other :: ip in ips && other in Seen(h) && other !in ips ==> LastSeen(h, other) < LastSeen(h, ip)
  }

  lemma {:induction false} SizeOfSubset(a: set<string>, b: set<string>)
    requires a <= b
    ensures |a| <= |b|
  {
    if x :| x in a {
      SizeOfSubset(a - {x}, b - {x});
    }
  }

  lemma SubsetOfSameSize(a: set<string>, b: set<string>)
    requires a <= b && |a| == |b|
    ensures a == b
  {
    if x :| x in b && x !in a {
      SizeOfSubset(a, b - {x});
    }
  }

  lemma LaterThanOthers(h: History, max: nat, ips: set<string>, ip: string, other: string)
    requires MostRecent(h, max, ips) && ip in ips && other in Seen(h) && other !in ips
    ensures LastSeen(h, other) < LastSeen(h, ip)
  {
  }

  lemma MostRecentIsUnique(h: History, max: nat, a: set<string>, b: set<string>)
    requires MostRecent(h, max, a) && MostRecent(h, max, b)
    ensures a == b
  {
    if x :| x in a && x !in b {
      if y :| y in b && y !in a {
        LaterThanOthers(h, max, a, x, y);
        LaterThanOthers(h, max, b, y, x);
        assert false;
      } else {
        SubsetOfSameSize(b, a);
      }
    } else {
      SubsetOfSameSize(a, b);
    }
  }

  // The tracked clients are exactly the most recently seen ones, as many as allowed.
  lemma TracksExactlyTheMostRecent(max: nat, h: History, ips: set<string>)
    requires Legal(max, h) && NoEmptyAddress(h) && TimeMovesOn(h) && max >= 1
    ensures MostRecent(h, max, ips) <==> ips == Clients(h).Keys
  {
    var tracked := Clients(h).Keys;
    forall ip | ip in tracked
      ensures ip in Seen(h)
    {
      TrackedWereSeen(max, h, ip);
    }
    forall ip, other | ip in tracked && other in Seen(h) && other !in tracked
      ensures LastSeen(h, other) < LastSeen(h, ip)
    {
      TrackedAreMostRecent(max, h, ip, other);
      TimesDiffer(max, h, ip, other);
    }
    TrackedAreAsManyAsAllowed(max, h);
    SizeOfSubset(tracked, Seen(h));
    assert MostRecent(h, max, tracked);
    if MostRecent(h, max, ips) {
      MostRecentIsUnique(h, max, ips, tracked);
    }
  }

  // ---------- What is counted for a client ----------

  // The client's visits since it was last admitted that satisfy a condition.
  function CountSince(h: History, ip: string, which: Visit -> bool): nat {
    match h
    case NoVisit => 0
    case Visited(past, v) =>
      if v.ip == ip then
        (if ip in Clients(past) then CountSince(past, ip, which) else 0) + if which(v) then 1 else 0
      else CountSince(past, ip, which)
  }

  function Any(): Visit -> bool {
    (v: Visit) => true
  }

  function Blocked(): Visit -> bool {
    (v: Visit) => v.blocked
  }

  function For(domain: string): Visit -> bool {
    (v: Visit) => v.domain == domain
  }

  lemma {:induction false} NoMoreThanAll(h: History, ip: string, which: Visit -> bool)
    ensures CountSince(h, ip, which) <= CountSince(h, ip, Any())
  {
    if h.Visited? {
      NoMoreThanAll(h.past, ip, which);
    }
  }

  // Totals count the visits since admission; blocked queries are among them.
  lemma {:induction false} TotalsAreTrueSinceAdmission(h: History, ip: string)
    requires ip in Clients(h)
    ensures Clients(h)[ip].totalQueries == Clients(h)[ip].queryCount == CountSince(h, ip, Any())
    ensures Clients(h)[ip].blockedCount == CountSince(h, ip, Blocked()) <= CountSince(h, ip, Any())
  {
    if ip in Clients(h.past) {
      TotalsAreTrueSinceAdmission(h.past, ip);
    }
    NoMoreThanAll(h, ip, Blocked());
  }

  // The latencies of the client's visits since it was last admitted, added up.
  function LatencySince(h: History, ip: string): int {
    match h
    case NoVisit => 0
    case Visited(past, v) =>
      if v.ip == ip then (if ip in Clients(past) then LatencySince(past, ip) else 0) + v.latency
      else LatencySince(past, ip)
  }

  // The visit that admitted the client last.
  function Admission(h: History, ip: string): Option<Visit> {
    match h
    case NoVisit => None
    case Visited(past, v) => if v.ip == ip && ip !in Clients(past) then Some(v) else Admission(past, ip)
  }

  // A client was first seen when it was admitted, and its latency is that of its visits since.
  lemma {:induction false} RecordIsOfTheVisitsSinceAdmission(h: History, ip: string)
    requires ip in Clients(h)
    ensures Clients(h)[ip].ip == ip && Clients(h)[ip].totalLatency == LatencySince(h, ip)
    ensures Admission(h, ip).Some? && Clients(h)[ip].firstSeen == Admission(h, ip).value.first
  {
    if ip in Clients(h.past) {
      RecordIsOfTheVisitsSinceAdmission(h.past, ip);
    }
  }

  lemma OneMoreDomain(domains: map<string, nat>, domain: string)
    requires |domains| <= MAX_DOMAINS
    ensures var after := CountDomain(domains, domain);
            && |domains| <= |after| <= MAX_DOMAINS
            && Sum(after) <= Sum(domains) + 1
            && (forall d :: d in domains ==> d in after)
            && (domain !in after ==> |domains| == MAX_DOMAINS)
  {
    SumCounts(domains, domain);
    assert domains[domain := Of(domains, domain) + 1].Keys == domains.Keys + {domain};
  }

  // A domain is counted from its first query or not at all: not at all only if the table was
  // full by then.
  lemma {:induction false} DomainCountsAreTrueSinceAdmission(h: History, ip: string, domain: string)
    requires ip in Clients(h)
    ensures var domains := Clients(h)[ip].topDomains;
            && |domains| <= 100
            && (domain in domains ==> domains[domain] == CountSince(h, ip, For(domain)))
            && (domain !in domains && |domains| < 100 ==> CountSince(h, ip, For(domain)) == 0)
  {
    if ip in Clients(h.past) {
      DomainCountsAreTrueSinceAdmission(h.past, ip, domain);
    }
    if h.v.ip == ip {
      var before := if ip in Clients(h.past) then Clients(h.past)[ip].topDomains else map[];
      OneMoreDomain(before, h.v.domain);
    }
  }

  // The domain counts of a client add up to no more than its queries.
  lemma {:induction false} DomainCountsFitTheTotal(h: History, ip: string)
    requires ip in Clients(h)
    ensures |Clients(h)[ip].topDomains| <= 100
    ensures Sum(Clients(h)[ip].topDomains) <= Clients(h)[ip].totalQueries
  {
    if ip in Clients(h.past) {
      DomainCountsFitTheTotal(h.past, ip);
    }
    if h.v.ip == ip {
      OneMoreDomain(if ip in Clients(h.past) then Clients(h.past)[ip].topDomains else map[], h.v.domain);
    }
  }

  lemma VisitIsLegal(max: nat, h: History, v: Visit)
    requires Legal(max, h) && (h.Visited? ==> Clock(h) <= v.first) && v.first <= v.now && MayEvict(max, Clients(h), v)
    ensures Legal(max, Visited(h, v))
    ensures var c := if v.ip in Clients(h) then Clients(h)[v.ip] else NewClient(v.ip, v.first);
            Clients(Visited(h, v)) == Without(Clients(h), v.gone)[v.ip := Updated(c, v)]
  {
  }

  // ---------- The object ----------

  class Tracker {
    var clients: map<string, ClientInfo>
    const maxClients: nat
    var clock: int
    ghost var past: History

    ghost predicate Valid()
      reads this
    {
      && clients == Clients(past) && Legal(maxClients, past) && maxClients >= 1
      && (past.Visited? ==> Clock(past) <= clock)
    }

    constructor (maxClients: int)
      ensures Valid() && past == NoVisit
      ensures this.maxClients == if maxClients <= 0 then 10000 else maxClients
    {
      this.maxClients := if maxClients <= 0 then 10000 else maxClients;
      clients, past := map[], NoVisit;
    }

    method Now() returns (now: int)
      modifies this`clock
      ensures old(clock) <= clock == now
    {
      var passed: int := *;
      if passed > 0 {
        clock := clock + passed;
      }
      now := clock;
    }

    method Record(was: ClientInfo, v: Visit) returns (client: ClientInfo)
      ensures client == Updated(was, v)
    {
      client := was.(totalQueries := was.totalQueries + 1, lastSeen := v.now);
      client := client.(totalLatency := client.totalLatency + v.latency, queryCount := client.queryCount + 1);
      if v.blocked {
        client := client.(blockedCount := client.blockedCount + 1);
      }
      if |client.topDomains| < MAX_DOMAINS {
        client := client.(topDomains := client.topDomains[v.domain := Of(client.topDomains, v.domain) + 1]);
      } else if v.domain in client.topDomains {
        client := client.(topDomains := client.topDomains[v.domain := Of(client.topDomains, v.domain) + 1]);
      }
    }

    method EvictOldest() returns (gone: Option<string>)
      requires |clients| > 0
      modifies this`clients
      ensures clients == Without(old(clients), gone)
      ensures exists oldest :: IsOldest(old(clients), oldest) && gone == if oldest == "" then None else Some(oldest)
    {
      var oldestIP, oldestTime, first := "", 0, true;
      var todo := clients.Keys;
      while todo != {}
        invariant todo <= clients.Keys && clients == old(clients)
        invariant first ==> todo == clients.Keys
        invariant !first ==> oldestIP in clients && clients[oldestIP].lastSeen == oldestTime
        invariant !first ==> forall ip :: ip in clients && ip !in todo ==> oldestTime <= clients[ip].lastSeen
      {
        var ip :| ip in todo;
        todo := todo - {ip};
        if first || clients[ip].lastSeen < oldestTime {
          oldestIP, oldestTime, first := ip, clients[ip].lastSeen, false;
        }
      }
      assert first ==> |clients.Keys| == 0;
      assert IsOldest(clients, oldestIP);
      gone := None;
      if oldestIP != "" {
        clients := clients - {oldestIP};
        gone := Some(oldestIP);
      }
    }

    method RecordQuery(clientIP: string, domain: string, blocked: bool, latency: int)
      requires Valid()
      modifies this
      ensures Valid() && past.Visited? && past.past == old(past)
      ensures past.v.ip == clientIP && past.v.domain == domain && past.v.blocked == blocked && past.v.latency == latency
      ensures old(clock) <= past.v.first <= past.v.now == clock
    {
      var first := Now();
      var gone := None;
      var client := NewClient(clientIP, first);
      if clientIP in clients {
        client := clients[clientIP];
      } else if |clients| >= maxClients {
        gone := EvictOldest();
      }
      var now := Now();
      var v := Visit(clientIP, domain, blocked, latency, first, now, gone);
      VisitIsLegal(maxClients, past, v);
      client := Record(client, v);
      clients := clients[clientIP := client];
      past := Visited(past, v);
    }
  }
}
