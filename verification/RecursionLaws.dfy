// What holds of every call tree the resolver can leave, whatever the network did.
module RecursionLaws {
  import opened Options
  import opened Arithmetic
  import opened Dns
  import opened Recursion

  // ---------- Messages ----------

  // The messages the resolver returns and caches: no SERVFAIL, no OPT record, not
  // authoritative, recursion available, and the question asked in class IN.
  ghost predicate IsClean(q: Question, m: Msg) {
    && m.rcode != RCODE_SERVER_FAILURE
    && (forall rr :: rr in m.extra ==> rr.hdr.rrtype != TYPE_OPT)
    && !m.authoritative && m.recursionAvailable && m.response && !m.truncated && !m.recursionDesired
    && m.question == [Question(Fqdn(q.name), q.qtype, CLASS_INET)]
  }

  ghost predicate AllClean(ws: seq<Write>) {
    forall i :: 0 <= i < |ws| ==> IsClean(ws[i].q, ws[i].msg)
  }

  lemma {:induction false} ResultsAreClean(cfg: Config, roots: seq<string>, c: Call)
    requires CallOk(cfg, roots, c)
    ensures Outcome(c).Ok? ==> IsClean(c.q, Outcome(c).msg)
    ensures AllClean(Writes(c))
    decreases c, 1
  {
    if c.depth <= cfg.maxDepth {
      RoundsAreClean(cfg, roots, c.depth, c.rounds);
      EndIsClean(cfg, roots, c.q, c.depth, ServersAfter(roots, c.rounds), c.end);
      if c.end.Followed? {
        ResultsAreClean(cfg, roots, c.end.sub);
      }
    }
  }

  // The hosts looked up after a response.
  function HostsAsked(resp: Msg): seq<string> {
    if IsReferral(resp) then HostsToAsk(resp) else []
  }

  lemma {:induction false} EndIsClean(cfg: Config, roots: seq<string>, q: Question, depth: nat, servers: seq<string>,
                                      end: End)
    requires EndOk(cfg, roots, q, depth, servers, end)
    ensures AllClean(EndWrites(end))
    decreases end, 1
  {
    match end
    case AtResponse(_, resp, lookups) => LookupsAreClean(cfg, roots, depth, HostsAsked(resp), lookups);
    case Followed(_, _, sub) => ResultsAreClean(cfg, roots, sub);
    case _ =>
  }

  lemma {:induction false} RoundsAreClean(cfg: Config, roots: seq<string>, depth: nat, rs: Rounds)
    requires RoundsOk(cfg, roots, depth, rs)
    ensures AllClean(RoundsWrites(rs))
    decreases rs, 1
  {
    if rs.Turned? {
      RoundsAreClean(cfg, roots, depth, rs.past);
      LookupsAreClean(cfg, roots, depth, HostsToAsk(rs.last.resp), rs.last.lookups);
    }
  }

  lemma {:induction false} LookupsAreClean(cfg: Config, roots: seq<string>, depth: nat, hosts: seq<string>, ls: Lookups)
    requires LookupsOk(cfg, roots, depth, hosts, ls)
    ensures AllClean(LookupsWrites(ls))
    decreases ls, 1
  {
    if ls.LookedUp? {
      LookupsAreClean(cfg, roots, depth, hosts[..|hosts| - 1], ls.past);
      if ls.last.Asked? {
        ResultsAreClean(cfg, roots, ls.last.call);
      }
    }
  }

  // ---------- CNAME chains ----------

  // One followed CNAME: the name asked, the response that redirected it, where to.
  datatype Hop = Hop(name: string, resp: Msg, target: string)

  function Hops(c: Call): seq<Hop> {
    if c.end.Followed? then [Hop(c.q.name, c.end.resp, c.end.sub.q.name)] + Hops(c.end.sub) else []
  }

  // The call that ended the chain.
  function Last(c: Call): (r: Call)
    ensures !r.end.Followed?
  {
    if c.end.Followed? then Last(c.end.sub) else c
  }

  function Segments(hops: seq<Hop>): seq<RR> {
    if hops == [] then [] else Cnames(hops[0].resp.answer) + Segments(hops[1..])
  }

  // The response redirects the name to the target by one of its own records.
  ghost predicate Redirects(resp: Msg, name: string, target: string) {
    exists rr :: && rr in Cnames(resp.answer)
                 && SameName(rr.hdr.name, name) && rr.data.target == target
  }

  // Each hop starts where the previous one pointed.
  ghost predicate Linked(hops: seq<Hop>, start: string, end: string) {
    if hops == [] then start == end
    else
      && hops[0].name == start && Redirects(hops[0].resp, start, hops[0].target)
      && Linked(hops[1..], hops[0].target, end)
  }

  lemma {:induction false} CnamesKeepsCnames(rrs: seq<RR>, rr: RR)
    requires rr in rrs && rr.data.CNAME?
    ensures rr in Cnames(rrs)
  {
    if rr != rrs[|rrs| - 1] {
      CnamesKeepsCnames(rrs[..|rrs| - 1], rr);
    }
  }

  lemma {:induction false} CnameOfIsARecord(rrs: seq<RR>, name: string) returns (rr: RR)
    requires CnameOf(rrs, name) != ""
    ensures rr in rrs && rr.data.CNAME?
    ensures SameName(rr.hdr.name, name) && rr.data.target == CnameOf(rrs, name)
  {
    NamesCompareWithoutCase(rrs[0].hdr.name, name);
    if rrs[0].data.CNAME? && CanonicalName(rrs[0].hdr.name) == CanonicalName(name) {
      rr := rrs[0];
    } else {
      rr := CnameOfIsARecord(rrs[1..], name);
    }
  }

  lemma TargetIsARecord(q: Question, resp: Msg)
    requires TargetOf(q, resp) != ""
    ensures Redirects(resp, q.name, TargetOf(q, resp))
  {
    var rr := CnameOfIsARecord(resp.answer, q.name);
    CnamesKeepsCnames(resp.answer, rr);
  }

  lemma LinkOneMore(hop: Hop, hops: seq<Hop>, end: string)
    requires Linked(hops, hop.target, end) && Redirects(hop.resp, hop.name, hop.target)
    ensures Linked([hop] + hops, hop.name, end)
    ensures Segments([hop] + hops) == Cnames(hop.resp.answer) + Segments(hops)
  {
    assert ([hop] + hops)[1..] == hops;
  }

  // The answer is the segments followed by the terminal response's, and the rest is the
  // terminal response's but for its OPT records.
  ghost predicate AssembledFrom(m: Msg, segments: seq<RR>, resp: Msg) {
    && m.answer == segments + resp.answer
    && m.rcode == resp.rcode && m.ns == resp.ns && m.extra == WithoutOpt(resp.extra)
  }

  lemma AssembleOneMore(q: Question, resp: Msg, segments: seq<RR>, m: Msg, last: Msg)
    requires AssembledFrom(m, segments, last)
    ensures AssembledFrom(Combine(q, resp, m), Cnames(resp.answer) + segments, last)
  {
    assert Cnames(resp.answer) + (segments + last.answer) == Cnames(resp.answer) + segments + last.answer;
  }

  // A successful answer is the CNAME segments of a linked chain from the name asked,
  // followed by the terminal response verbatim; the chain is no longer than allowed.
  lemma {:induction false} AnswerIsALinkedChain(cfg: Config, roots: seq<string>, c: Call)
    requires CallOk(cfg, roots, c) && Outcome(c).Ok?
    ensures Last(c).end.AtResponse? && Last(c).q.qtype == c.q.qtype
    ensures Linked(Hops(c), c.q.name, Last(c).q.name)
    ensures c.depth + |Hops(c)| <= cfg.maxCnameChain + 1 || Hops(c) == []
    ensures AssembledFrom(Outcome(c).msg, Segments(Hops(c)), Last(c).end.resp)
  {
    if c.end.Followed? {
      var resp, sub := c.end.resp, c.end.sub;
      AnswerIsALinkedChain(cfg, roots, sub);
      TargetIsARecord(c.q, resp);
      LinkOneMore(Hop(c.q.name, resp, sub.q.name), Hops(sub), Last(c).q.name);
      AssembleOneMore(c.q, resp, Segments(Hops(sub)), Outcome(sub).msg, Last(c).end.resp);
    }
  }

  // ---------- Depth ----------

  // The greatest depth at which resolveIterative was called.
  function Deepest(c: Call): int {
    Max(Max(c.depth, RoundsDeepest(c.rounds)), EndDeepest(c.end))
  }

  function EndDeepest(end: End): int {
    match end
    case AtResponse(_, _, lookups) => LookupsDeepest(lookups)
    case Followed(_, _, sub) => Deepest(sub)
    case _ => 0
  }

  function RoundsDeepest(rs: Rounds): int {
    match rs
    case NoRound => 0
    case Turned(past, r) => Max(RoundsDeepest(past), LookupsDeepest(r.lookups))
  }

  function LookupsDeepest(ls: Lookups): int {
    match ls
    case NoLookup => 0
    case LookedUp(past, l) => Max(LookupsDeepest(past), if l.Asked? then Deepest(l.call) else 0)
  }

  // How deep the two guards let the recursion go.
  function DepthCap(cfg: Config): int {
    Max(0, Max(cfg.maxDepth - 5, cfg.maxCnameChain + 1))
  }

  lemma {:induction false} DepthStaysCapped(cfg: Config, roots: seq<string>, c: Call)
    requires CallOk(cfg, roots, c) && c.depth <= DepthCap(cfg)
    ensures Deepest(c) <= DepthCap(cfg)
    decreases c, 1
  {
    if c.depth <= cfg.maxDepth {
      RoundsStayCapped(cfg, roots, c.depth, c.rounds);
      EndStaysCapped(cfg, roots, c.q, c.depth, ServersAfter(roots, c.rounds), c.end);
    }
  }

  lemma {:induction false} EndStaysCapped(cfg: Config, roots: seq<string>, q: Question, depth: nat,
                                          servers: seq<string>, end: End)
    requires EndOk(cfg, roots, q, depth, servers, end)
    ensures EndDeepest(end) <= DepthCap(cfg)
    decreases end, 1
  {
    match end
    case AtResponse(_, resp, lookups) => LookupsStayCapped(cfg, roots, depth, HostsAsked(resp), lookups);
    case Followed(_, _, sub) => DepthStaysCapped(cfg, roots, sub);
    case _ =>
  }

  lemma {:induction false} RoundsStayCapped(cfg: Config, roots: seq<string>, depth: nat, rs: Rounds)
    requires RoundsOk(cfg, roots, depth, rs)
    ensures RoundsDeepest(rs) <= DepthCap(cfg)
    decreases rs, 1
  {
    if rs.Turned? {
      RoundsStayCapped(cfg, roots, depth, rs.past);
      LookupsStayCapped(cfg, roots, depth, HostsToAsk(rs.last.resp), rs.last.lookups);
    }
  }

  lemma {:induction false} LookupsStayCapped(cfg: Config, roots: seq<string>, depth: nat, hosts: seq<string>,
                                             ls: Lookups)
    requires LookupsOk(cfg, roots, depth, hosts, ls)
    ensures LookupsDeepest(ls) <= DepthCap(cfg)
    decreases ls, 1
  {
    if ls.LookedUp? {
      LookupsStayCapped(cfg, roots, depth, hosts[..|hosts| - 1], ls.past);
      if ls.last.Asked? {
        DepthStaysCapped(cfg, roots, ls.last.call);
      }
    }
  }

  lemma {:induction false} AnsweredFromRoots(cfg: Config, roots: seq<string>, depth: nat, rs: Rounds)
    requires RoundsOk(cfg, roots, depth, rs)
    ensures rs == NoRound || roots != []
  {
    if rs.Turned? {
      AnsweredFromRoots(cfg, roots, depth, rs.past);
    }
  }

  lemma {:induction false} TooDeepComesFromTheChain(cfg: Config, roots: seq<string>, c: Call)
    requires CallOk(cfg, roots, c) && Outcome(c) == Err(TooDeep)
    ensures Deepest(c) > cfg.maxDepth
    ensures c.depth <= cfg.maxDepth ==> cfg.maxDepth > 0 && cfg.retries >= 0 && roots != []
  {
    if c.depth <= cfg.maxDepth {
      TooDeepComesFromTheChain(cfg, roots, c.end.sub);
      AnsweredFromRoots(cfg, roots, c.depth, c.rounds);
    }
  }

  // A network that answers every question with the same CNAME.
  function LoopingReply(q: Question): Msg {
    SetReply(NewRootQuery(q.name, q.qtype)).(
      answer := [RR(Header(q.name, TYPE_CNAME, CLASS_INET, 60), CNAME(q.name))])
  }

  function LoopingCall(cfg: Config, roots: seq<string>, q: Question, depth: nat): Call
    decreases cfg.maxDepth - depth
  {
    if depth > cfg.maxDepth then Call(q, depth, NoRound, AtDepth)
    else
      var first := Exchange(Slot(0, 0, false), if roots == [] then "" else roots[0], Some(LoopingReply(q)));
      var query := Query(NewRootQuery(q.name, q.qtype), roots, Exchanged(NoExchange, first));
      Call(q, depth, NoRound, Followed(query, LoopingReply(q), LoopingCall(cfg, roots, q, depth + 1)))
  }

  // Exactly the configurations in which a request can fail with "max resolution depth".
  predicate DepthErrorIsPossible(cfg: Config, roots: seq<string>) {
    cfg.maxDepth < 0 || (cfg.maxDepth > 0 && cfg.maxCnameChain >= cfg.maxDepth && cfg.retries >= 0 && roots != [])
  }

  lemma {:induction false} LoopingCallIsTooDeep(cfg: Config, roots: seq<string>, q: Question, depth: nat)
    requires q.name != "" && q.qtype != TYPE_CNAME
    requires DepthErrorIsPossible(cfg, roots)
    ensures var c := LoopingCall(cfg, roots, q, depth);
      CallOk(cfg, roots, c) && c.q == q && c.depth == depth && Outcome(c) == Err(TooDeep)
    decreases cfg.maxDepth - depth
  {
    if depth <= cfg.maxDepth {
      LoopingCallIsTooDeep(cfg, roots, q, depth + 1);
      var c := LoopingCall(cfg, roots, q, depth);
      assert Answered(cfg, roots, c.end.query, c.end.resp);
    }
  }

  lemma DepthErrorExactly(cfg: Config, roots: seq<string>)
    ensures DepthErrorIsPossible(cfg, roots)
       <==> exists c :: CallOk(cfg, roots, c) && c.depth == 0 && Outcome(c) == Err(TooDeep)
  {
    if DepthErrorIsPossible(cfg, roots) {
      LoopingCallIsTooDeep(cfg, roots, Question("a.", TYPE_A, CLASS_INET), 0);
    }
    forall c | CallOk(cfg, roots, c) && c.depth == 0 && Outcome(c) == Err(TooDeep)
      ensures DepthErrorIsPossible(cfg, roots)
    {
      TooDeepComesFromTheChain(cfg, roots, c);
      DepthStaysCapped(cfg, roots, c);
    }
  }

  // ---------- Cost ----------

  function Attempts(cfg: Config): nat {
    if cfg.retries < 0 then 0 else cfg.retries + 1
  }

  function SlotRank(cfg: Config, s: Slot): nat {
    2 * (Multiple(s.pos, Attempts(cfg)) + s.attempt) + if s.tcp then 1 else 0
  }

  function Length(log: Log): nat {
    match log
    case NoExchange => 0
    case Exchanged(past, _) => Length(past) + 1
  }

  lemma {:induction false} LogIsBounded(cfg: Config, order: seq<string>, log: Log)
    requires cfg.retries >= 0 && Unanswered(cfg, order, log)
    ensures var at := Frontier(cfg, log);
      && Length(log) <= SlotRank(cfg, at)
      && at.attempt <= cfg.retries && at.pos <= |order| && (at.pos == |order| ==> at == Slot(|order|, 0, false))
  {
    if log.Exchanged? {
      LogIsBounded(cfg, order, log.past);
    }
  }

  function QueryBound(cfg: Config, servers: nat): nat {
    2 * Multiple(servers, Attempts(cfg))
  }

  lemma RankIsBounded(cfg: Config, servers: nat, s: Slot)
    requires cfg.retries >= 0 && s.attempt <= cfg.retries && s.pos < servers
    ensures SlotRank(cfg, s) + 1 <= QueryBound(cfg, servers)
  {
    MultipleMonotone(s.pos + 1, servers, Attempts(cfg));
  }

  // A query makes at most two exchanges per attempt and server.
  lemma AnsweredIsBounded(cfg: Config, servers: seq<string>, query: Query, resp: Msg)
    requires Answered(cfg, servers, query, resp)
    ensures |query.order| == |servers| && Length(query.log) <= QueryBound(cfg, |servers|)
  {
    assert |multiset(query.order)| == |multiset(servers)|;
    LogIsBounded(cfg, query.order, query.log.past);
    RankIsBounded(cfg, |servers|, query.log.last.slot);
  }

  lemma UnsuccessfulIsBounded(cfg: Config, servers: seq<string>, query: Query, why: Failure)
    requires Unsuccessful(cfg, servers, query, why)
    ensures |query.order| == |servers| && Length(query.log) <= QueryBound(cfg, |servers|)
  {
    assert |multiset(query.order)| == |multiset(servers)|;
    if cfg.retries >= 0 {
      LogIsBounded(cfg, query.order, query.log);
      var at := Frontier(cfg, query.log);
      if at.pos < |servers| {
        RankIsBounded(cfg, |servers|, at);
      }
    }
  }

  // Exchanges made by a call and everything below it.
  function Cost(c: Call): nat {
    RoundsCost(c.rounds) + EndCost(c.end)
  }

  function EndCost(end: End): nat {
    match end
    case AtQuery(query, _) => Length(query.log)
    case AtResponse(query, _, lookups) => Length(query.log) + LookupsCost(lookups)
    case AtCname(query, _) => Length(query.log)
    case Followed(query, _, sub) => Length(query.log) + Cost(sub)
    case _ => 0
  }

  function RoundsCost(rs: Rounds): nat {
    match rs
    case NoRound => 0
    case Turned(past, r) => RoundsCost(past) + Length(r.query.log) + LookupsCost(r.lookups)
  }

  function LookupsCost(ls: Lookups): nat {
    match ls
    case NoLookup => 0
    case LookedUp(past, l) => LookupsCost(past) + if l.Asked? then Cost(l.call) else 0
  }

  // How many of the events are messages sent.
  function Sends(events: seq<Event>): nat {
    if events == [] then 0
    else Sends(events[..|events| - 1]) + if events[|events| - 1].Sent? then 1 else 0
  }

  lemma {:induction false} SendsAddUp(a: seq<Event>, b: seq<Event>)
    ensures Sends(a + b) == Sends(a) + Sends(b)
  {
    if b == [] {
      assert a + b == a;
    } else {
      SendsAddUp(a, b[..|b| - 1]);
      assert (a + b)[..|a + b| - 1] == a + b[..|b| - 1];
    }
  }

  lemma {:induction false} LogIsCounted(ask: Msg, log: Log)
    ensures Sends(LogEvents(ask, log)) == Length(log)
  {
    if log.Exchanged? {
      LogIsCounted(ask, log.past);
    }
  }

  // The cost of a call is the number of messages it sent, answered or not.
  lemma {:induction false} MessagesAreCounted(c: Call)
    ensures Sends(Events(c)) == Cost(c)
    decreases c, 1
  {
    RoundsMessagesAreCounted(c.rounds);
    EndMessagesAreCounted(c.end);
    SendsAddUp(RoundsEvents(c.rounds), EndEvents(c.end));
  }

  lemma {:induction false} EndMessagesAreCounted(end: End)
    ensures Sends(EndEvents(end)) == EndCost(end)
    decreases end, 1
  {
    match end
    case AtQuery(query, _) => LogIsCounted(query.ask, query.log);
    case AtResponse(query, _, lookups) =>
      LogIsCounted(query.ask, query.log);
      LookupsMessagesAreCounted(lookups);
      SendsAddUp(QueryEvents(query), LookupsEvents(lookups));
    case AtCname(query, _) => LogIsCounted(query.ask, query.log);
    case Followed(query, _, sub) =>
      LogIsCounted(query.ask, query.log);
      MessagesAreCounted(sub);
      SendsAddUp(QueryEvents(query), Events(sub));
    case _ =>
  }

  lemma {:induction false} RoundsMessagesAreCounted(rs: Rounds)
    ensures Sends(RoundsEvents(rs)) == RoundsCost(rs)
    decreases rs, 1
  {
    if rs.Turned? {
      RoundsMessagesAreCounted(rs.past);
      LogIsCounted(rs.last.query.ask, rs.last.query.log);
      LookupsMessagesAreCounted(rs.last.lookups);
      SendsAddUp(QueryEvents(rs.last.query), LookupsEvents(rs.last.lookups));
      SendsAddUp(RoundsEvents(rs.past), RoundEvents(rs.last));
    }
  }

  lemma LookedIsNotSent(q: Question, found: Option<Msg>)
    ensures Sends([Looked(q, found)]) == 0
  {
    assert [Looked(q, found)][..0] == [];
  }

  lemma {:induction false} LookupsMessagesAreCounted(ls: Lookups)
    ensures Sends(LookupsEvents(ls)) == LookupsCost(ls)
    decreases ls, 1
  {
    if ls.LookedUp? {
      LookupsMessagesAreCounted(ls.past);
      SendsAddUp(LookupsEvents(ls.past), LookupEvents(ls.last));
      var q := AddressQuestion(ls.last.host);
      match ls.last
      case Found(_, msg) => LookedIsNotSent(q, Some(msg));
      case Skipped(_) => LookedIsNotSent(q, None);
      case Asked(_, call) =>
        LookedIsNotSent(q, None);
        MessagesAreCounted(call);
        SendsAddUp([Looked(q, None)], Events(call));
    }
  }

  // No list of servers asked is longer than `servers`, no referral names more than `hosts`.
  predicate Within(hosts: nat, servers: nat, c: Call) {
    RoundsWithin(hosts, servers, c.rounds) && EndWithin(hosts, servers, c.end)
  }

  predicate EndWithin(hosts: nat, servers: nat, end: End) {
    match end
    case AtQuery(query, _) => |query.order| <= servers
    case AtResponse(query, resp, lookups) =>
      |query.order| <= servers && |NsHosts(resp.ns)| <= hosts && LookupsWithin(hosts, servers, lookups)
    case AtCname(query, _) => |query.order| <= servers
    case Followed(query, _, sub) => |query.order| <= servers && Within(hosts, servers, sub)
    case _ => true
  }

  predicate RoundsWithin(hosts: nat, servers: nat, rs: Rounds) {
    rs.Turned? ==>
      && RoundsWithin(hosts, servers, rs.past)
      && |rs.last.query.order| <= servers && |NsHosts(rs.last.resp.ns)| <= hosts
      && LookupsWithin(hosts, servers, rs.last.lookups)
  }

  predicate LookupsWithin(hosts: nat, servers: nat, ls: Lookups) {
    ls.LookedUp? ==>
      LookupsWithin(hosts, servers, ls.past) && (ls.last.Asked? ==> Within(hosts, servers, ls.last.call))
  }

  // What a nested call can cost, if its guard lets it be made.
  function Guarded(open: bool, nested: nat): nat {
    if open then nested else 0
  }

  // The most a turn of the loop can cost that ends in a referral, given what looking up one
  // host can cost.
  function TurnBound(cfg: Config, hosts: nat, servers: nat, asked: nat): nat {
    QueryBound(cfg, servers) + Multiple(hosts, asked)
  }

  // The most the last turn can cost: it looks up hosts or follows a CNAME, but not both.
  function LastBound(cfg: Config, hosts: nat, servers: nat, asked: nat, chained: nat): nat {
    QueryBound(cfg, servers) + Max(Multiple(hosts, asked), chained)
  }

  // The most a call at this depth can cost.  Hosts are looked up only down to maxDepth - 5,
  // CNAMEs followed only down to maxCnameChain.
  function CostBound(cfg: Config, hosts: nat, servers: nat, depth: nat): nat
    decreases cfg.maxDepth - depth
  {
    if depth > cfg.maxDepth || cfg.maxDepth == 0 then 0
    else
      var nested := CostBound(cfg, hosts, servers, depth + 1);
      var asked, chained := Guarded(depth < cfg.maxDepth - 5, nested), Guarded(depth <= cfg.maxCnameChain, nested);
      Multiple(cfg.maxDepth - 1, TurnBound(cfg, hosts, servers, asked)) + LastBound(cfg, hosts, servers, asked, chained)
  }

  // What looking up one host, and what following a CNAME, can cost a call at this depth.
  function AskedBound(cfg: Config, hosts: nat, servers: nat, depth: nat): nat {
    Guarded(depth < cfg.maxDepth - 5, CostBound(cfg, hosts, servers, depth + 1))
  }

  function ChainedBound(cfg: Config, hosts: nat, servers: nat, depth: nat): nat {
    Guarded(depth <= cfg.maxCnameChain, CostBound(cfg, hosts, servers, depth + 1))
  }

  lemma CostBoundUnfolds(cfg: Config, hosts: nat, servers: nat, depth: nat, asked: nat, chained: nat)
    requires depth <= cfg.maxDepth && cfg.maxDepth > 0
    requires asked == AskedBound(cfg, hosts, servers, depth) && chained == ChainedBound(cfg, hosts, servers, depth)
    ensures CostBound(cfg, hosts, servers, depth)
         == Multiple(cfg.maxDepth - 1, TurnBound(cfg, hosts, servers, asked))
            + LastBound(cfg, hosts, servers, asked, chained)
  {
  }

  lemma TurnBoundIsProduct(cfg: Config, hosts: nat, servers: nat, asked: nat)
    requires cfg.retries >= 0
    ensures TurnBound(cfg, hosts, servers, asked) == 2 * (servers * (cfg.retries + 1)) + hosts * asked
    ensures QueryBound(cfg, servers) == 2 * (servers * (cfg.retries + 1)) && Multiple(hosts, asked) == hosts * asked
  {
    MultipleIsProduct(hosts, asked);
    MultipleIsProduct(servers, Attempts(cfg));
  }

  // The recurrence in plain arithmetic.
  lemma CostBoundRecurrence(cfg: Config, hosts: nat, servers: nat, depth: nat, asked: nat, chained: nat)
    requires depth <= cfg.maxDepth && cfg.maxDepth > 0 && cfg.retries >= 0
    requires asked == AskedBound(cfg, hosts, servers, depth) && chained == ChainedBound(cfg, hosts, servers, depth)
    ensures CostBound(cfg, hosts, servers, depth)
         == (cfg.maxDepth - 1) * (2 * (servers * (cfg.retries + 1)) + hosts * asked)
            + 2 * (servers * (cfg.retries + 1)) + Max(hosts * asked, chained)
  {
    CostBoundUnfolds(cfg, hosts, servers, depth, asked, chained);
    TurnBoundIsProduct(cfg, hosts, servers, asked);
    MultipleIsProduct(cfg.maxDepth - 1, TurnBound(cfg, hosts, servers, asked));
  }

  // Without regard to the guards it is within the simpler recurrence.
  lemma CostBoundSimply(cfg: Config, hosts: nat, servers: nat, depth: nat, nested: nat)
    requires 0 <= cfg.maxDepth && cfg.retries >= 0 && nested == CostBound(cfg, hosts, servers, depth + 1)
    ensures CostBound(cfg, hosts, servers, depth)
         <= cfg.maxDepth * (2 * (servers * (cfg.retries + 1)) + hosts * nested) + nested
  {
    var asked, loose := AskedBound(cfg, hosts, servers, depth), TurnBound(cfg, hosts, servers, nested);
    MultipleGrows(hosts, asked, nested);
    if 0 < cfg.maxDepth && depth <= cfg.maxDepth {
      CostBoundUnfolds(cfg, hosts, servers, depth, asked, ChainedBound(cfg, hosts, servers, depth));
      MultipleGrows(cfg.maxDepth - 1, TurnBound(cfg, hosts, servers, asked), loose);
    }
    TurnBoundIsProduct(cfg, hosts, servers, nested);
    MultipleIsProduct(cfg.maxDepth, loose);
  }

  // Below both guards a call costs no more than its own queries: the recurrence ends there.
  lemma CostBoundBelowTheGuards(cfg: Config, hosts: nat, servers: nat, depth: nat)
    requires depth <= cfg.maxDepth && depth >= cfg.maxDepth - 5 && depth > cfg.maxCnameChain
    ensures CostBound(cfg, hosts, servers, depth) == Multiple(cfg.maxDepth, QueryBound(cfg, servers))
  {
    MultipleIsProduct(hosts, 0);
    if cfg.maxDepth > 0 {
      CostBoundUnfolds(cfg, hosts, servers, depth, 0, 0);
    }
  }

  lemma AnsweredCost(cfg: Config, servers: seq<string>, query: Query, resp: Msg, most: nat)
    requires Answered(cfg, servers, query, resp) && |query.order| <= most
    ensures Length(query.log) <= QueryBound(cfg, most)
  {
    AnsweredIsBounded(cfg, servers, query, resp);
    MultipleMonotone(|servers|, most, Attempts(cfg));
  }

  lemma UnsuccessfulCost(cfg: Config, servers: seq<string>, query: Query, why: Failure, most: nat)
    requires Unsuccessful(cfg, servers, query, why) && |query.order| <= most
    ensures Length(query.log) <= QueryBound(cfg, most)
  {
    UnsuccessfulIsBounded(cfg, servers, query, why);
    MultipleMonotone(|servers|, most, Attempts(cfg));
  }

  // In these lemmas `asked` and `chained` are what the nested calls can cost.
  lemma {:induction false} LookupsCostIsBounded(cfg: Config, roots: seq<string>, depth: nat, hosts: nat, servers: nat,
                                                names: seq<string>, ls: Lookups, asked: nat)
    requires LookupsOk(cfg, roots, depth, names, ls) && LookupsWithin(hosts, servers, ls) && |names| <= hosts
    requires asked == AskedBound(cfg, hosts, servers, depth)
    ensures LookupsCost(ls) <= Multiple(|names|, asked) <= Multiple(hosts, asked)
    decreases ls, 1
  {
    MultipleMonotone(|names|, hosts, asked);
    if ls.LookedUp? {
      LookupsCostIsBounded(cfg, roots, depth, hosts, servers, names[..|names| - 1], ls.past, asked);
      if ls.last.Asked? {
        CostIsBounded(cfg, roots, hosts, servers, ls.last.call, asked);
      }
    }
  }

  lemma OneMoreRoundCosts(rs: Rounds, turn: nat)
    requires rs.Turned? && RoundsCost(rs.past) <= Multiple(Count(rs.past), turn)
    requires Length(rs.last.query.log) + LookupsCost(rs.last.lookups) <= turn
    ensures RoundsCost(rs) <= Multiple(Count(rs), turn)
  {
  }

  lemma RoundCostIsBounded(cfg: Config, roots: seq<string>, depth: nat, from: seq<string>, hosts: nat, servers: nat,
                           r: Round, asked: nat)
    requires RoundOk(cfg, roots, depth, from, r)
    requires |r.query.order| <= servers && |NsHosts(r.resp.ns)| <= hosts && LookupsWithin(hosts, servers, r.lookups)
    requires asked == AskedBound(cfg, hosts, servers, depth)
    ensures Length(r.query.log) + LookupsCost(r.lookups) <= TurnBound(cfg, hosts, servers, asked)
    decreases r, 1
  {
    AnsweredCost(cfg, from, r.query, r.resp, servers);
    LookupsCostIsBounded(cfg, roots, depth, hosts, servers, HostsToAsk(r.resp), r.lookups, asked);
  }

  lemma {:induction false} RoundsCostIsBounded(cfg: Config, roots: seq<string>, depth: nat, hosts: nat, servers: nat,
                                               rs: Rounds, asked: nat, turn: nat)
    requires RoundsOk(cfg, roots, depth, rs) && RoundsWithin(hosts, servers, rs)
    requires asked == AskedBound(cfg, hosts, servers, depth) && turn == TurnBound(cfg, hosts, servers, asked)
    ensures RoundsCost(rs) <= Multiple(Count(rs), turn)
    decreases rs, 1
  {
    if rs.Turned? {
      RoundsCostIsBounded(cfg, roots, depth, hosts, servers, rs.past, asked, turn);
      RoundCostIsBounded(cfg, roots, depth, ServersAfter(roots, rs.past), hosts, servers, rs.last, asked);
      OneMoreRoundCosts(rs, turn);
    }
  }

  lemma {:induction false} EndCostIsBounded(cfg: Config, roots: seq<string>, q: Question, depth: nat,
                                            from: seq<string>, end: End, hosts: nat, servers: nat,
                                            asked: nat, chained: nat)
    requires EndOk(cfg, roots, q, depth, from, end) && EndWithin(hosts, servers, end)
    requires asked == AskedBound(cfg, hosts, servers, depth) && chained == ChainedBound(cfg, hosts, servers, depth)
    ensures EndCost(end) <=
      if end.AtCancel? || end.AtLimit? then 0 else LastBound(cfg, hosts, servers, asked, chained)
    decreases end, 1
  {
    match end
    case AtQuery(query, why) =>
      UnsuccessfulCost(cfg, from, query, why, servers);
    case AtResponse(query, resp, lookups) =>
      AnsweredCost(cfg, from, query, resp, servers);
      LookupsCostIsBounded(cfg, roots, depth, hosts, servers, HostsAsked(resp), lookups, asked);
    case AtCname(query, resp) =>
      AnsweredCost(cfg, from, query, resp, servers);
    case Followed(query, resp, sub) =>
      AnsweredCost(cfg, from, query, resp, servers);
      CostIsBounded(cfg, roots, hosts, servers, sub, chained);
    case _ =>
  }

  lemma CostAddsUp(cfg: Config, hosts: nat, servers: nat, c: Call, asked: nat, chained: nat)
    requires c.depth <= cfg.maxDepth && TurnsOk(cfg, Count(c.rounds), c.end)
    requires asked == AskedBound(cfg, hosts, servers, c.depth) && chained == ChainedBound(cfg, hosts, servers, c.depth)
    requires RoundsCost(c.rounds) <= Multiple(Count(c.rounds), TurnBound(cfg, hosts, servers, asked))
    requires EndCost(c.end) <=
      if c.end.AtCancel? || c.end.AtLimit? then 0 else LastBound(cfg, hosts, servers, asked, chained)
    ensures Cost(c) <= CostBound(cfg, hosts, servers, c.depth)
  {
    var turns, turn := Count(c.rounds), TurnBound(cfg, hosts, servers, asked);
    if cfg.maxDepth > 0 {
      CostBoundUnfolds(cfg, hosts, servers, c.depth, asked, chained);
      if turns < cfg.maxDepth {
        MultipleMonotone(turns, cfg.maxDepth - 1, turn);
      }
    }
  }

  lemma RoundsPartIsBounded(cfg: Config, roots: seq<string>, hosts: nat, servers: nat, c: Call, asked: nat, turn: nat)
    requires RoundsOk(cfg, roots, c.depth, c.rounds) && RoundsWithin(hosts, servers, c.rounds)
    requires asked == AskedBound(cfg, hosts, servers, c.depth) && turn == TurnBound(cfg, hosts, servers, asked)
    ensures RoundsCost(c.rounds) <= Multiple(Count(c.rounds), turn)
    decreases c, 0
  {
    RoundsCostIsBounded(cfg, roots, c.depth, hosts, servers, c.rounds, asked, turn);
  }

  lemma EndPartIsBounded(cfg: Config, roots: seq<string>, hosts: nat, servers: nat, c: Call, asked: nat, chained: nat)
    requires EndOk(cfg, roots, c.q, c.depth, ServersAfter(roots, c.rounds), c.end) && EndWithin(hosts, servers, c.end)
    requires asked == AskedBound(cfg, hosts, servers, c.depth) && chained == ChainedBound(cfg, hosts, servers, c.depth)
    ensures EndCost(c.end) <=
      if c.end.AtCancel? || c.end.AtLimit? then 0 else LastBound(cfg, hosts, servers, asked, chained)
    decreases c, 0
  {
    EndCostIsBounded(cfg, roots, c.q, c.depth, ServersAfter(roots, c.rounds), c.end, hosts, servers, asked, chained);
  }

  // The exchanges of one resolution are within the bound of its depth.
  lemma {:induction false} CostIsBounded(cfg: Config, roots: seq<string>, hosts: nat, servers: nat, c: Call, bound: nat)
    requires CallOk(cfg, roots, c) && Within(hosts, servers, c)
    requires bound == CostBound(cfg, hosts, servers, c.depth)
    ensures Cost(c) <= bound
    decreases c, 1
  {
    if c.depth <= cfg.maxDepth {
      var asked := AskedBound(cfg, hosts, servers, c.depth);
      var chained := ChainedBound(cfg, hosts, servers, c.depth);
      RoundsPartIsBounded(cfg, roots, hosts, servers, c, asked, TurnBound(cfg, hosts, servers, asked));
      EndPartIsBounded(cfg, roots, hosts, servers, c, asked, chained);
      CostAddsUp(cfg, hosts, servers, c, asked, chained);
    }
  }
}
