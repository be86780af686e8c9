// What the call trees of Recursion amount to, reply by reply and message by message, in terms of
// the fields of the messages themselves.
module CallTrees {
  import opened Options
  import opened Selections
  import opened Dns
  import opened Recursion
  import opened RecursionLaws

  // ---------- One query ----------

  // The k-th exchange of a query.
  function Nth(log: Log, k: nat): Exchange
    requires k < Length(log)
  {
    if k == Length(log) - 1 then log.last else Nth(log.past, k)
  }

  // The exchanges of a query, whether or not it was answered.
  predicate IsQueryLog(cfg: Config, order: seq<string>, log: Log) {
    log.Exchanged? ==> Unanswered(cfg, order, log.past) && Continues(cfg, order, log.past, log.last)
  }

  // Nothing came back, or what came back was cut short over UDP, or it was SERVFAIL.
  predicate Unusable(e: Exchange) {
    || e.reply.None?
    || (e.reply.value.truncated && !e.slot.tcp)
    || e.reply.value.rcode == 2
  }

  // A server has been asked for the last time.
  predicate UsedUp(cfg: Config, e: Exchange) {
    if e.reply.None? then e.slot.attempt == cfg.retries
    else e.reply.value.rcode == 2 && (e.slot.tcp || !e.reply.value.truncated)
  }

  // One exchange follows another: after truncation the same attempt over TCP, after a failure the
  // next attempt at the same server, and when that is used up the first at the next one.
  predicate FollowsOn(cfg: Config, e: Exchange, next: Exchange) {
    && Unusable(e)
    && if e.reply.Some? && e.reply.value.truncated && !e.slot.tcp then
         next.slot == Slot(e.slot.pos, e.slot.attempt, true)
       else if UsedUp(cfg, e) then next.slot == Slot(e.slot.pos + 1, 0, false)
       else next.slot == Slot(e.slot.pos, e.slot.attempt + 1, false)
  }

  lemma {:induction false} AttemptsStayBounded(cfg: Config, order: seq<string>, log: Log)
    requires IsQueryLog(cfg, order, log) && log.Exchanged?
    ensures 0 <= log.last.slot.attempt <= cfg.retries
  {
    if log.past.Exchanged? {
      AttemptsStayBounded(cfg, order, log.past);
    }
  }

  // The exchanges of a query start with the first server over UDP, and follow on each other.
  lemma {:induction false} QueriesWalkTheServers(cfg: Config, order: seq<string>, log: Log, k: nat)
    requires IsQueryLog(cfg, order, log) && k < Length(log)
    ensures var e := Nth(log, k); e.slot.pos < |order| && e.server == order[e.slot.pos]
    ensures k == 0 ==> Nth(log, k).slot == Slot(0, 0, false)
    ensures k + 1 < Length(log) ==> FollowsOn(cfg, Nth(log, k), Nth(log, k + 1))
  {
    if k + 1 < Length(log) {
      QueriesWalkTheServers(cfg, order, log.past, k);
      if k + 2 == Length(log) {
        AttemptsStayBounded(cfg, order, log.past);
      }
    }
  }

  // The answer of a query is the reply of its last exchange, and is usable.
  lemma AnswerIsTheLastReply(cfg: Config, servers: seq<string>, query: Query, resp: Msg)
    requires Answered(cfg, servers, query, resp)
    ensures multiset(query.order) == multiset(servers) && IsQueryLog(cfg, query.order, query.log)
    ensures Length(query.log) > 0
    ensures var e := Nth(query.log, Length(query.log) - 1); e.reply == Some(resp) && !Unusable(e)
  {
  }

  // A query is given up once all servers are used up, or between two servers when cancelled.
  lemma GivesUpAfterItsServers(cfg: Config, servers: seq<string>, query: Query, why: Failure)
    requires Unsuccessful(cfg, servers, query, why)
    ensures multiset(query.order) == multiset(servers) && IsQueryLog(cfg, query.order, query.log)
    ensures why == ServersFailed || why == Cancelled
    ensures cfg.retries < 0 || servers == [] ==> Length(query.log) == 0
    ensures Length(query.log) > 0 ==> UsedUp(cfg, Nth(query.log, Length(query.log) - 1))
    ensures why == ServersFailed && cfg.retries >= 0 && servers != [] ==>
              Length(query.log) > 0 && Nth(query.log, Length(query.log) - 1).slot.pos == |servers| - 1
    ensures why == Cancelled && Length(query.log) > 0 ==>
              Nth(query.log, Length(query.log) - 1).slot.pos < |servers| - 1
  {
    assert |multiset(query.order)| == |multiset(servers)|;
    if query.log.Exchanged? {
      AttemptsStayBounded(cfg, query.order, query.log);
    }
  }

  // ---------- What a reply leads to ----------

  function NthRound(rs: Rounds, k: nat): Round
    requires k < Count(rs)
  {
    if k == Count(rs) - 1 then rs.last else NthRound(rs.past, k)
  }

  // The query of the last turn, if it got to make one.
  function QueryOf(end: End): Option<Query> {
    match end
    case AtQuery(query, _) => Some(query)
    case AtResponse(query, _, _) => Some(query)
    case AtCname(query, _) => Some(query)
    case Followed(query, _, _) => Some(query)
    case _ => None
  }

  // The reply that query got, if it got one.
  function ReplyOf(end: End): Option<Msg> {
    match end
    case AtResponse(_, resp, _) => Some(resp)
    case AtCname(_, resp) => Some(resp)
    case Followed(_, resp, _) => Some(resp)
    case _ => None
  }

  // The query of each turn of the loop.
  function NthQuery(c: Call, k: nat): Option<Query>
    requires k <= Count(c.rounds)
  {
    if k < Count(c.rounds) then Some(NthRound(c.rounds, k).query) else QueryOf(c.end)
  }

  // The servers of a turn: the roots at first, then the addresses of the referral before.
  function NthServers(roots: seq<string>, rs: Rounds, k: nat): seq<string>
    requires k <= Count(rs)
  {
    if k == 0 then roots
    else var r := NthRound(rs, k - 1); Addresses(r.resp, r.lookups)
  }

  lemma {:induction false} RoundIsOk(cfg: Config, roots: seq<string>, q: Question, depth: nat, rs: Rounds, k: nat)
    requires RoundsOk(cfg, roots, depth, rs) && RoundsAsk(q, rs) && k < Count(rs)
    ensures var r := NthRound(rs, k);
      && Asks(q, r.query)
      && RoundOk(cfg, roots, depth, NthServers(roots, rs, k), r)
  {
    if k + 1 < Count(rs) {
      RoundIsOk(cfg, roots, q, depth, rs.past, k);
    } else if k > 0 {
      assert rs.past.last == NthRound(rs, k - 1);
    }
  }

  lemma ServersOfTurn(cfg: Config, roots: seq<string>, c: Call)
    requires RoundsOk(cfg, roots, c.depth, c.rounds)
    ensures ServersAfter(roots, c.rounds) == NthServers(roots, c.rounds, Count(c.rounds))
  {
    if c.rounds.Turned? {
      assert c.rounds.last == NthRound(c.rounds, Count(c.rounds) - 1);
    }
  }

  // A turn that goes on got its reply from its servers, and leaves some to ask next.
  lemma TurnsGoOnToTheReferredServers(cfg: Config, roots: seq<string>, c: Call, k: nat)
    requires CallOk(cfg, roots, c) && k < Count(c.rounds)
    ensures var r := NthRound(c.rounds, k); Answered(cfg, NthServers(roots, c.rounds, k), r.query, r.resp)
    ensures NthServers(roots, c.rounds, k + 1) != []
  {
    RoundIsOk(cfg, roots, c.q, c.depth, c.rounds, k);
  }

  lemma LastTurnAsksTheReferredServers(cfg: Config, roots: seq<string>, c: Call)
    requires CallOk(cfg, roots, c) && QueryOf(c.end).Some?
    ensures var query, servers := QueryOf(c.end).value, NthServers(roots, c.rounds, Count(c.rounds));
      if ReplyOf(c.end).Some? then Answered(cfg, servers, query, ReplyOf(c.end).value)
      else c.end.AtQuery? && Unsuccessful(cfg, servers, query, c.end.why)
    ensures Count(c.rounds) < cfg.maxDepth
  {
    ServersOfTurn(cfg, roots, c);
  }

  // The loop goes on only after replies that are neither authoritative nor NXDOMAIN, have no
  // answer, and name servers.
  lemma OnlyReferralsGoOn(cfg: Config, roots: seq<string>, c: Call, k: nat)
    requires CallOk(cfg, roots, c) && k < Count(c.rounds)
    ensures var resp := NthRound(c.rounds, k).resp;
      !resp.authoritative && resp.rcode != 3 && resp.answer == [] && resp.ns != []
  {
    RoundIsOk(cfg, roots, c.q, c.depth, c.rounds, k);
  }

  function KeptRecord(rr: RR): Option<RR> {
    if rr.hdr.rrtype == 41 then None else Some(rr)
  }

  function CnameRecord(rr: RR): Option<RR> {
    if rr.data.CNAME? then Some(rr) else None
  }

  // The records an answer takes over from a reply that is followed are its CNAME records, in order.
  lemma {:induction false} CnamesSelects(rrs: seq<RR>)
    ensures Selects(rrs, Cnames(rrs), CnameRecord)
  {
    if rrs == [] {
      SelectsNone(CnameRecord);
    } else {
      CnamesSelects(rrs[..|rrs| - 1]);
      SelectsNext(rrs, Cnames(rrs[..|rrs| - 1]), CnameRecord);
    }
  }

  // The call hands the reply on: its records, but for OPT, and its code.
  ghost predicate HandsOn(c: Call, resp: Msg) {
    && Outcome(c).Ok?
    && var m := Outcome(c).msg;
       && m.answer == resp.answer && m.ns == resp.ns && m.rcode == resp.rcode
       && Selects(resp.extra, m.extra, KeptRecord)
  }

  lemma {:induction false} WithoutOptSelects(rrs: seq<RR>)
    ensures Selects(rrs, WithoutOpt(rrs), KeptRecord)
  {
    if rrs == [] {
      SelectsNone(KeptRecord);
    } else {
      WithoutOptSelects(rrs[..|rrs| - 1]);
      SelectsNext(rrs, WithoutOpt(rrs[..|rrs| - 1]), KeptRecord);
    }
  }

  // An authoritative reply and NXDOMAIN end the call, whatever else the reply says.
  lemma FinalRepliesAreHandedOn(cfg: Config, roots: seq<string>, c: Call, resp: Msg)
    requires CallOk(cfg, roots, c) && ReplyOf(c.end) == Some(resp)
    requires resp.authoritative || resp.rcode == 3
    ensures HandsOn(c, resp) && c.end == AtResponse(QueryOf(c.end).value, resp, NoLookup)
  {
    WithoutOptSelects(resp.extra);
  }

  predicate Owned(rr: RR, name: string) {
    rr.data.CNAME? && SameName(rr.hdr.name, name)
  }

  // The first CNAME record of the name is the k-th record.
  predicate FirstOwned(rrs: seq<RR>, name: string, k: nat) {
    && k < |rrs| && Owned(rrs[k], name)
    && forall j :: 0 <= j < k ==> !Owned(rrs[j], name)
  }

  // There is a CNAME record of the name, and the first one points to the target.
  ghost predicate PointsTo(rrs: seq<RR>, name: string, target: string) {
    exists k: nat :: FirstOwned(rrs, name, k) && rrs[k].data.target == target
  }

  lemma {:induction false} CnameOfIsFirstOwned(rrs: seq<RR>, name: string)
    ensures if exists k: nat :: FirstOwned(rrs, name, k) then PointsTo(rrs, name, CnameOf(rrs, name))
            else CnameOf(rrs, name) == ""
  {
    if rrs != [] {
      NamesCompareWithoutCase(rrs[0].hdr.name, name);
      if Owned(rrs[0], name) {
        assert FirstOwned(rrs, name, 0);
      } else {
        CnameOfIsFirstOwned(rrs[1..], name);
        if k: nat :| FirstOwned(rrs[1..], name, k) && rrs[1..][k].data.target == CnameOf(rrs[1..], name) {
          assert FirstOwned(rrs, name, k + 1);
        }
        if k: nat :| FirstOwned(rrs, name, k) {
          assert FirstOwned(rrs[1..], name, k - 1);
        }
      }
    }
  }

  // Any other reply with answers is followed, or refused to be for the length of the chain, if and
  // only if another type than CNAME was asked for and the first CNAME record of the name points
  // somewhere.  Otherwise the call hands it on.
  lemma AnswersAreFollowedExactly(cfg: Config, roots: seq<string>, c: Call, resp: Msg)
    requires CallOk(cfg, roots, c) && ReplyOf(c.end) == Some(resp)
    requires !resp.authoritative && resp.rcode != 3 && resp.answer != []
    ensures c.end.Followed? || c.end.AtCname? <==>
              c.q.qtype != 5 && exists target :: target != "" && PointsTo(resp.answer, c.q.name, target)
    ensures c.end.Followed? ==>
              && c.depth <= cfg.maxCnameChain && c.end.sub.depth == c.depth + 1
              && PointsTo(resp.answer, c.q.name, c.end.sub.q.name) && c.end.sub.q.name != ""
              && c.end.sub.q == c.q.(name := c.end.sub.q.name)
    ensures c.end.AtCname? ==> c.depth > cfg.maxCnameChain && Outcome(c).Err?
    ensures c.end.AtResponse? ==> HandsOn(c, resp) && c.end.lookups == NoLookup
  {
    CnameOfIsFirstOwned(resp.answer, c.q.name);
    WithoutOptSelects(resp.extra);
  }

  // Every reply of a chain of CNAMEs is neither authoritative nor NXDOMAIN, and its first CNAME
  // record of the name points to the next one.
  lemma {:induction false} HopsFollowTheFirstCname(cfg: Config, roots: seq<string>, c: Call, k: nat)
    requires CallOk(cfg, roots, c) && k < |Hops(c)|
    ensures var hop := Hops(c)[k];
      && !hop.resp.authoritative && hop.resp.rcode != 3
      && PointsTo(hop.resp.answer, hop.name, hop.target)
  {
    if k > 0 {
      HopsFollowTheFirstCname(cfg, roots, c.end.sub, k - 1);
    } else {
      CnameOfIsFirstOwned(c.end.resp.answer, c.q.name);
    }
  }

  // A reply with neither answers nor name servers is handed on as well, and so is one that names
  // servers none of whose addresses can be found.
  lemma EmptyRepliesAreHandedOn(cfg: Config, roots: seq<string>, c: Call, resp: Msg)
    requires CallOk(cfg, roots, c) && ReplyOf(c.end) == Some(resp)
    requires !resp.authoritative && resp.rcode != 3 && resp.answer == []
    ensures HandsOn(c, resp) && c.end.AtResponse?
    ensures resp.ns == [] ==> c.end.lookups == NoLookup
    ensures resp.ns != [] ==> Addresses(resp, c.end.lookups) == []
    ensures resp.ns != [] ==> LookupsOk(cfg, roots, c.depth, HostsToAsk(resp), c.end.lookups)
  {
    WithoutOptSelects(resp.extra);
  }

  // ---------- Referrals ----------

  function ServerNamed(rr: RR): Option<string> {
    if rr.data.NS? then Some(rr.data.host) else None
  }

  // The address a record gives for a host, if any.
  function AddressFor(host: string): RR -> Option<string> {
    (rr: RR) =>
      if !SameName(rr.hdr.name, host) then None
      else if rr.data.A? then Some(rr.data.ip)
      else if rr.data.AAAA? then Some(rr.data.ip6)
      else None
  }

  function AddressIn(rr: RR): Option<string> {
    if rr.data.A? then Some(rr.data.ip) else None
  }

  lemma {:induction false} NsHostsSelects(rrs: seq<RR>)
    ensures Selects(rrs, NsHosts(rrs), ServerNamed)
  {
    if rrs == [] {
      SelectsNone(ServerNamed);
    } else {
      NsHostsSelects(rrs[..|rrs| - 1]);
      SelectsNext(rrs, NsHosts(rrs[..|rrs| - 1]), ServerNamed);
    }
  }

  lemma {:induction false} ARecordsSelects(rrs: seq<RR>)
    ensures Selects(rrs, ARecords(rrs), AddressIn)
  {
    if rrs == [] {
      SelectsNone(AddressIn);
    } else {
      ARecordsSelects(rrs[..|rrs| - 1]);
      SelectsNext(rrs, ARecords(rrs[..|rrs| - 1]), AddressIn);
    }
  }

  lemma {:induction false} GlueOfSelects(extra: seq<RR>, host: string)
    ensures Selects(extra, GlueOf(extra, CanonicalName(host)), AddressFor(host))
  {
    if extra == [] {
      SelectsNone(AddressFor(host));
    } else {
      var init, rr := extra[..|extra| - 1], extra[|extra| - 1];
      GlueOfSelects(init, host);
      NamesCompareWithoutCase(rr.hdr.name, host);
      SelectsNext(extra, GlueOf(init, CanonicalName(host)), AddressFor(host));
    }
  }

  // For each host, in order, the addresses the records give for it.
  ghost predicate GlueForEach(extra: seq<RR>, hosts: seq<string>, parts: seq<seq<string>>) {
    && |parts| == |hosts|
    && (hosts != [] ==>
          && GlueForEach(extra, hosts[..|hosts| - 1], parts[..|parts| - 1])
          && Selects(extra, parts[|parts| - 1], AddressFor(hosts[|hosts| - 1])))
  }

  lemma {:induction false} GlueIsForEach(hosts: seq<string>, extra: seq<RR>) returns (parts: seq<seq<string>>)
    ensures GlueForEach(extra, hosts, parts) && Glue(hosts, extra) == Joined(parts)
  {
    parts := [];
    if hosts != [] {
      var host := hosts[|hosts| - 1];
      var before := GlueIsForEach(hosts[..|hosts| - 1], extra);
      GlueOfSelects(extra, host);
      JoinsOneMore(before, GlueOf(extra, CanonicalName(host)));
      parts := before + [GlueOf(extra, CanonicalName(host))];
      assert parts[..|parts| - 1] == before;
    }
  }

  // Finding the address of a host: the cache is asked first, for the A records of the name.  Only
  // if it has none, and the depth allows, a nested call asks for them, and a success is cached.
  ghost predicate FindsAddresses(cfg: Config, depth: nat, host: string, l: Lookup, ips: seq<string>) {
    && LookupEvents(l) != [] && LookupEvents(l)[0].Looked? && LookupEvents(l)[0].q == Question(host, 1, 1)
    && var found := LookupEvents(l)[0].found;
       if found.Some? then
         |LookupEvents(l)| == 1 && LookupWrites(l) == [] && Selects(found.value.answer, ips, AddressIn)
       else if depth + 5 >= cfg.maxDepth then |LookupEvents(l)| == 1 && LookupWrites(l) == [] && ips == []
       else
         && l.Asked? && l.call.q == Question(host, 1, 1) && l.call.depth == depth + 1
         && LookupEvents(l)[1..] == Events(l.call)
         && if Outcome(l.call).Err? then LookupWrites(l) == Writes(l.call) && ips == []
            else
              var m := Outcome(l.call).msg;
              && LookupWrites(l) == Writes(l.call) + [Write(Question(host, 1, 1), m)]
              && Selects(m.answer, ips, AddressIn)
  }

  lemma LookupFindsAddresses(cfg: Config, roots: seq<string>, depth: nat, host: string, l: Lookup)
    requires LookupOk(cfg, roots, depth, host, l)
    ensures FindsAddresses(cfg, depth, host, l, LookupAddresses(l))
  {
    match l
    case Found(_, msg) => ARecordsSelects(msg.answer);
    case Skipped(_) =>
    case Asked(_, call) =>
      if Outcome(call).Ok? {
        ARecordsSelects(Outcome(call).msg.answer);
      }
  }

  // One lookup for each host, in order, each finding some addresses.
  ghost predicate LooksUpEach(cfg: Config, depth: nat, hosts: seq<string>, ls: Lookups, parts: seq<seq<string>>) {
    match ls
    case NoLookup => hosts == [] && parts == []
    case LookedUp(past, l) =>
      && hosts != [] && parts != []
      && LooksUpEach(cfg, depth, hosts[..|hosts| - 1], past, parts[..|parts| - 1])
      && FindsAddresses(cfg, depth, hosts[|hosts| - 1], l, parts[|parts| - 1])
  }

  lemma {:induction false} LookupsAreForEach(cfg: Config, roots: seq<string>, depth: nat, hosts: seq<string>,
                                             ls: Lookups)
    returns (parts: seq<seq<string>>)
    requires LookupsOk(cfg, roots, depth, hosts, ls)
    ensures LooksUpEach(cfg, depth, hosts, ls, parts) && LookupsAddresses(ls) == Joined(parts)
  {
    parts := [];
    if ls.LookedUp? {
      var before := LookupsAreForEach(cfg, roots, depth, hosts[..|hosts| - 1], ls.past);
      LookupFindsAddresses(cfg, roots, depth, hosts[|hosts| - 1], ls.last);
      JoinsOneMore(before, LookupAddresses(ls.last));
      parts := before + [LookupAddresses(ls.last)];
      assert parts[..|parts| - 1] == before;
    }
  }

  // A referral gives the addresses its additional section has for its name servers, in order; if
  // it has none, those found by looking up each of them.
  lemma ReferralsGiveGlueOrLookups(cfg: Config, roots: seq<string>, depth: nat, resp: Msg, lookups: Lookups)
    returns (hosts: seq<string>, glue: seq<seq<string>>, found: seq<seq<string>>)
    requires LookupsOk(cfg, roots, depth, HostsToAsk(resp), lookups)
    ensures Selects(resp.ns, hosts, ServerNamed) && GlueForEach(resp.extra, hosts, glue)
    ensures if Joined(glue) != [] then lookups == NoLookup && Addresses(resp, lookups) == Joined(glue)
            else LooksUpEach(cfg, depth, hosts, lookups, found) && Addresses(resp, lookups) == Joined(found)
  {
    hosts := NsHosts(resp.ns);
    NsHostsSelects(resp.ns);
    glue := GlueIsForEach(hosts, resp.extra);
    found := LookupsAreForEach(cfg, roots, depth, HostsToAsk(resp), lookups);
  }

  // ---------- Failures ----------

  // A call succeeds if and only if its chain of CNAMEs ends in a reply that is handed on.  If it
  // fails, the call that ends the chain was too deep or cancelled, its query was given up, it
  // would have had to follow too long a chain, or it followed as many referrals as are allowed.
  lemma {:induction false} FailuresAreExplained(cfg: Config, roots: seq<string>, c: Call)
    requires CallOk(cfg, roots, c)
    ensures var x := Last(c);
      && CallOk(cfg, roots, x) && x.depth == c.depth + |Hops(c)|
      && (Outcome(c).Ok? <==> x.end.AtResponse?)
      && (x.depth > cfg.maxDepth <==> x.end == AtDepth)
      && (Outcome(c).Err? ==>
            match Outcome(c).why
            case TooDeep => x.depth > cfg.maxDepth
            case Cancelled => x.end == AtCancel || (x.end.AtQuery? && x.end.why == Cancelled)
            case ServersFailed => x.end.AtQuery? && x.end.why == ServersFailed
            case CnameTooLong => x.end.AtCname? && x.depth > cfg.maxCnameChain
            case LoopExhausted => Count(x.rounds) == cfg.maxDepth)
  {
    if c.end.Followed? {
      FailuresAreExplained(cfg, roots, c.end.sub);
    }
  }

  // ---------- What is asked ----------

  // The second call is the first one or was made on its behalf.
  predicate Inside(c: Call, d: Call) {
    c == d || InRounds(c.rounds, d) || InEnd(c.end, d)
  }

  predicate InRounds(rs: Rounds, d: Call) {
    rs.Turned? && (InRounds(rs.past, d) || InLookups(rs.last.lookups, d))
  }

  predicate InLookups(ls: Lookups, d: Call) {
    ls.LookedUp? && (InLookups(ls.past, d) || (ls.last.Asked? && Inside(ls.last.call, d)))
  }

  predicate InEnd(end: End, d: Call) {
    match end
    case AtResponse(_, _, lookups) => InLookups(lookups, d)
    case Followed(_, _, sub) => Inside(sub, d)
    case _ => false
  }

  // The event is the j-th exchange of the query: its message, sent to the server in the place and
  // over the transport of that exchange.
  predicate IsExchange(query: Query, j: nat, e: Event) {
    && j < Length(query.log)
    && var x := Nth(query.log, j);
       x.slot.pos < |query.order| && e == Sent(query.order[x.slot.pos], x.slot.tcp, query.ask, x.reply)
  }

  lemma {:induction false} LogEventIsAnExchange(cfg: Config, query: Query, log: Log, e: Event) returns (j: nat)
    requires IsQueryLog(cfg, query.order, log) && e in LogEvents(query.ask, log)
    ensures IsExchange(query.(log := log), j, e)
  {
    j := Length(log) - 1;
    if e in LogEvents(query.ask, log.past) {
      j := LogEventIsAnExchange(cfg, query, log.past, e);
    }
  }

  // The event is an exchange of a query of a call in the tree, in the k-th turn of that call.
  ghost predicate IsExchangeOf(d: Call, k: nat, j: nat, e: Event) {
    k <= Count(d.rounds) && NthQuery(d, k).Some? && IsExchange(NthQuery(d, k).value, j, e)
  }

  // Where a message was sent: in a round of the call itself, or in a call within.
  datatype Place = Here(k: nat, j: nat) | Within(d: Call, k: nat, j: nat)

  ghost predicate InRoundsAt(cfg: Config, roots: seq<string>, rs: Rounds, e: Event, at: Place) {
    match at
    case Here(k, j) => k < Count(rs) && IsExchange(NthRound(rs, k).query, j, e)
    case Within(d, k, j) => InRounds(rs, d) && CallOk(cfg, roots, d) && IsExchangeOf(d, k, j, e)
  }

  lemma QueryEventIsAnExchange(cfg: Config, servers: seq<string>, query: Query, resp: Msg, e: Event) returns (j: nat)
    requires Answered(cfg, servers, query, resp) && e in QueryEvents(query)
    ensures IsExchange(query, j, e)
  {
    j := LogEventIsAnExchange(cfg, query, query.log, e);
  }

  lemma {:induction false} MessageInRounds(cfg: Config, roots: seq<string>, depth: nat, rs: Rounds, e: Event)
    returns (at: Place)
    requires RoundsOk(cfg, roots, depth, rs) && e in RoundsEvents(rs) && e.Sent?
    ensures InRoundsAt(cfg, roots, rs, e, at)
    decreases rs, 1
  {
    var r := rs.last;
    if e in RoundsEvents(rs.past) {
      at := MessageInRounds(cfg, roots, depth, rs.past, e);
    } else if e in QueryEvents(r.query) {
      var j := QueryEventIsAnExchange(cfg, ServersAfter(roots, rs.past), r.query, r.resp, e);
      at := Here(Count(rs.past), j);
    } else {
      var d, k, j := MessageInLookups(cfg, roots, depth, HostsToAsk(r.resp), r.lookups, e);
      at := Within(d, k, j);
    }
  }

  lemma {:induction false} MessageInLookups(cfg: Config, roots: seq<string>, depth: nat, hosts: seq<string>,
                                            ls: Lookups, e: Event)
    returns (d: Call, k: nat, j: nat)
    requires LookupsOk(cfg, roots, depth, hosts, ls) && e in LookupsEvents(ls) && e.Sent?
    ensures InLookups(ls, d) && CallOk(cfg, roots, d) && IsExchangeOf(d, k, j, e)
    decreases ls, 1
  {
    if e in LookupsEvents(ls.past) {
      d, k, j := MessageInLookups(cfg, roots, depth, hosts[..|hosts| - 1], ls.past, e);
    } else {
      d, k, j := MessageIsSent(cfg, roots, ls.last.call, e);
    }
  }

  lemma {:induction false} MessageInEnd(cfg: Config, roots: seq<string>, c: Call, e: Event)
    returns (d: Call, k: nat, j: nat)
    requires CallOk(cfg, roots, c) && e in EndEvents(c.end) && e.Sent?
    ensures Inside(c, d) && CallOk(cfg, roots, d) && IsExchangeOf(d, k, j, e)
    decreases c, 0
  {
    var query := QueryOf(c.end).value;
    if e in QueryEvents(query) {
      j := LogEventIsAnExchange(cfg, query, query.log, e);
      d, k := c, Count(c.rounds);
    } else if c.end.Followed? {
      d, k, j := MessageIsSent(cfg, roots, c.end.sub, e);
    } else {
      d, k, j := MessageInLookups(cfg, roots, c.depth, HostsAsked(c.end.resp), c.end.lookups, e);
    }
  }

  // Every message of a resolution belongs to a query of a call in its tree.
  lemma {:induction false} MessageIsSent(cfg: Config, roots: seq<string>, c: Call, e: Event)
    returns (d: Call, k: nat, j: nat)
    requires CallOk(cfg, roots, c) && e in Events(c) && e.Sent?
    ensures Inside(c, d) && CallOk(cfg, roots, d) && IsExchangeOf(d, k, j, e)
    decreases c, 1
  {
    if e in RoundsEvents(c.rounds) {
      var at := MessageInRounds(cfg, roots, c.depth, c.rounds, e);
      match at
      case Here(n, i) => d, k, j := c, n, i;
      case Within(inner, n, i) => d, k, j := inner, n, i;
    } else {
      d, k, j := MessageInEnd(cfg, roots, c, e);
    }
  }

  // Each query of a call asks its question: the qualified name, the type, class IN.
  lemma QueriesAskTheQuestion(cfg: Config, roots: seq<string>, c: Call, k: nat)
    requires CallOk(cfg, roots, c) && k <= Count(c.rounds) && NthQuery(c, k).Some?
    ensures var ask := NthQuery(c, k).value.ask;
      && |ask.question| == 1 && ask.question[0].qtype == c.q.qtype && ask.question[0].qclass == 1
      && ask.question[0].name == (if EndsInDot(c.q.name) then c.q.name else c.q.name + ".")
      && !ask.recursionDesired && !ask.response
  {
    QualifiedEndsInDot(c.q.name);
    if k < Count(c.rounds) {
      RoundIsOk(cfg, roots, c.q, c.depth, c.rounds, k);
    }
  }

  // Every message sent on account of a call asks the question of some call in its tree, of a
  // server of that turn, in the order and over the transports that queries walk through.
  lemma MessagesAskTheirCallsQuestion(cfg: Config, roots: seq<string>, c: Call, e: Event)
    returns (d: Call, k: nat, j: nat)
    requires CallOk(cfg, roots, c) && e in Events(c) && e.Sent?
    ensures Inside(c, d) && CallOk(cfg, roots, d) && k <= Count(d.rounds) && NthQuery(d, k).Some?
    ensures var query := NthQuery(d, k).value;
      && j < Length(query.log) && Nth(query.log, j).slot.pos < |query.order|
      && e.server == query.order[Nth(query.log, j).slot.pos] && e.tcp == Nth(query.log, j).slot.tcp
      && e.reply == Nth(query.log, j).reply
    ensures e.query.question == [Question(if EndsInDot(d.q.name) then d.q.name else d.q.name + ".", d.q.qtype, 1)]
  {
    d, k, j := MessageIsSent(cfg, roots, c, e);
    QueriesAskTheQuestion(cfg, roots, d, k);
  }

  // The types asked for are the one of the call itself and, for name servers, A.
  ghost predicate Descends(c: Call, d: Call) {
    c.depth < d.depth && ((d.q.qtype == c.q.qtype && d.q.qclass == c.q.qclass) || (d.q.qtype == 1 && d.q.qclass == 1))
  }

  lemma {:induction false} CallsDescend(cfg: Config, roots: seq<string>, c: Call, d: Call)
    requires CallOk(cfg, roots, c) && Inside(c, d)
    ensures CallOk(cfg, roots, d) && (c == d || Descends(c, d))
    decreases c, 1
  {
    if c != d {
      if InRounds(c.rounds, d) {
        RoundsDescend(cfg, roots, c, c.rounds, d);
      } else if c.end.Followed? {
        CallsDescend(cfg, roots, c.end.sub, d);
      } else {
        LookupsDescend(cfg, roots, c, HostsAsked(c.end.resp), c.end.lookups, d);
      }
    }
  }

  lemma {:induction false} RoundsDescend(cfg: Config, roots: seq<string>, c: Call, rs: Rounds, d: Call)
    requires RoundsOk(cfg, roots, c.depth, rs) && InRounds(rs, d)
    ensures CallOk(cfg, roots, d) && Descends(c, d)
    decreases rs, 1
  {
    if InRounds(rs.past, d) {
      RoundsDescend(cfg, roots, c, rs.past, d);
    } else {
      LookupsDescend(cfg, roots, c, HostsToAsk(rs.last.resp), rs.last.lookups, d);
    }
  }

  lemma {:induction false} LookupsDescend(cfg: Config, roots: seq<string>, c: Call, hosts: seq<string>, ls: Lookups,
                                          d: Call)
    requires LookupsOk(cfg, roots, c.depth, hosts, ls) && InLookups(ls, d)
    ensures CallOk(cfg, roots, d) && Descends(c, d)
    decreases ls, 1
  {
    if InLookups(ls.past, d) {
      LookupsDescend(cfg, roots, c, hosts[..|hosts| - 1], ls.past, d);
    } else {
      CallsDescend(cfg, roots, ls.last.call, d);
    }
  }
}
