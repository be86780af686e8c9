// The resolver of internal/resolver/resolver.go as an object: each method leaves the call
// tree of what it did, and the tree is one that Recursion allows.
module IterativeResolver {
  import opened Options
  import opened Dns
  import opened Recursion
  import opened RecursionLaws

  lemma AppendIsAssociative<T>(a: seq<T>, b: seq<T>, c: seq<T>)
    ensures a + b + c == a + (b + c)
  {
  }

  // What an end makes a call answer, whatever came before it.
  function Given(q: Question, end: End): Answer {
    Outcome(Call(q, 0, NoRound, end))
  }

  // A call is its rounds and its end.
  lemma Finish(cfg: Config, roots: seq<string>, q: Question, depth: nat, rounds: Rounds, end: End) returns (call: Call)
    requires depth <= cfg.maxDepth && TurnsOk(cfg, Count(rounds), end)
    requires RoundsAsk(q, rounds) && RoundsOk(cfg, roots, depth, rounds)
    requires EndOk(cfg, roots, q, depth, ServersAfter(roots, rounds), end)
    ensures call == Call(q, depth, rounds, end) && CallOk(cfg, roots, call)
    ensures Outcome(call) == Given(q, end)
    ensures Writes(call) == RoundsWrites(rounds) + EndWrites(end)
    ensures Events(call) == RoundsEvents(rounds) + EndEvents(end)
  {
    call := Call(q, depth, rounds, end);
  }

  // What following a CNAME did, after the query that found it.
  function SubEvents(end: End): seq<Event> {
    if end.Followed? then Events(end.sub) else []
  }

  // A call is cancelled only if the context has ended, and at once if it had before.
  predicate ContextOk(before: bool, after: bool, shallow: bool, answer: Answer, atOnce: bool) {
    && (before ==> after) && (answer == Err(Cancelled) ==> after)
    && (before && shallow ==> answer == Err(Cancelled) && atOnce)
  }

  // ---------- The glue table ----------

  lemma GlueOfOneMore(extra: seq<RR>, rr: RR, host: string)
    ensures GlueOf(extra + [rr], host)
         == if CanonicalName(rr.hdr.name) == host then GlueOf(extra, host) + AddressOf(rr) else GlueOf(extra, host)
  {
    assert (extra + [rr])[..|extra|] == extra;
  }

  function Known(glueMap: map<string, seq<string>>, host: string): seq<string> {
    if host in glueMap then glueMap[host] else []
  }

  class Resolver {
    const cfg: Config
    const roots: seq<string>
    // The calls of cache.Set made so far, and what was sent and looked up.
    var writes: seq<Write>
    ghost var events: seq<Event>
    var contextDone: bool

    constructor (cfg: Config, roots: seq<string>)
      ensures this.cfg == cfg && this.roots == roots && writes == [] && events == []
    {
      this.cfg, this.roots, writes, events := cfg, roots, [], [];
    }

    // ---------- What the code cannot control ----------

    // A context that has ended stays so.
    method ContextDone() returns (done: bool)
      modifies this`contextDone
      ensures done == contextDone && (old(contextDone) ==> contextDone)
    {
      var ended: bool := *;
      contextDone := contextDone || ended;
      done := contextDone;
    }

    method ExchangeContext(server: string, tcp: bool, query: Msg) returns (reply: Option<Msg>)
      modifies this`events
      ensures events == old(events) + [Sent(server, tcp, query, reply)]
    {
      reply := *;
      events := events + [Sent(server, tcp, query, reply)];
    }

    method CacheGet(q: Question) returns (found: Option<Msg>)
      modifies this`events
      ensures events == old(events) + [Looked(q, found)]
    {
      found := *;
      events := events + [Looked(q, found)];
    }

    method CacheSet(q: Question, msg: Msg)
      modifies this`writes
      ensures writes == old(writes) + [Write(q, msg)]
    {
      writes := writes + [Write(q, msg)];
    }

    method Shuffle(servers: seq<string>) returns (order: seq<string>)
      ensures Shuffled(order, servers) && |order| == |servers|
    {
      order := servers;
      for i := 0 to |servers|
        invariant |order| == |servers| && Shuffled(order, servers)
      {
        var j: int := *;
        if 0 <= j < |order| {
          var other := order[j];
          order := order[j := order[i]];
          order := order[i := other];
        }
      }
    }

    // ---------- Asking a list of servers ----------

    // One server of the list: its retries, over UDP and after truncation over TCP.
    method AskServer(server: string, msg: Msg, ghost pos: nat, ghost order: seq<string>, ghost past: Log,
                     ghost before: seq<Event>)
      returns (resp: Option<Msg>, ghost log: Log)
      requires pos < |order| && server == order[pos] && Unanswered(cfg, order, past)
      requires events == before + LogEvents(msg, past)
      requires cfg.retries >= 0 ==> Frontier(cfg, past) == Slot(pos, 0, false)
      modifies this`events
      ensures events == before + LogEvents(msg, log)
      ensures if resp.Some? then LogAnswers(cfg, order, log, resp.value)
              else Unanswered(cfg, order, log) && (cfg.retries >= 0 ==> Frontier(cfg, log) == Slot(pos + 1, 0, false))
    {
      log := past;
      resp := None;
      var retry := 0;
      while retry <= cfg.retries
        invariant 0 <= retry
        invariant Unanswered(cfg, order, log)
        invariant cfg.retries >= 0 ==>
          Frontier(cfg, log) == if retry <= cfg.retries then Slot(pos, retry, false) else Slot(pos + 1, 0, false)
        invariant events == before + LogEvents(msg, log)
      {
        var reply := ExchangeContext(server, false, msg);
        AppendIsAssociative(before, LogEvents(msg, log), [Sent(server, false, msg, reply)]);
        log := Exchanged(log, Exchange(Slot(pos, retry, false), server, reply));
        if reply.None? {
          retry := retry + 1;
          continue;
        }
        if reply.value.truncated {
          reply := ExchangeContext(server, true, msg);
          AppendIsAssociative(before, LogEvents(msg, log), [Sent(server, true, msg, reply)]);
          log := Exchanged(log, Exchange(Slot(pos, retry, true), server, reply));
          if reply.None? {
            retry := retry + 1;
            continue;
          }
        }
        if reply.value.rcode == RCODE_SUCCESS || reply.value.rcode == RCODE_NAME_ERROR {
          return reply, log;
        }
        if reply.value.rcode == RCODE_SERVER_FAILURE {
          return None, log;
        }
        return reply, log;
      }
      return None, log;
    }

    method QueryNameservers(name: string, qtype: u16, servers: seq<string>)
      returns (resp: Option<Msg>, why: Failure, ghost query: Query)
      modifies this`events, this`contextDone
      ensures resp.Some? ==> Answered(cfg, servers, query, resp.value)
      ensures resp.None? ==> Unsuccessful(cfg, servers, query, why)
      ensures events == old(events) + QueryEvents(query)
      ensures query.ask == NewRootQuery(name, qtype)
      ensures query.ask.question == [Question(if EndsInDot(name) then name else name + ".", qtype, 1)]
      ensures old(contextDone) ==> contextDone
      ensures resp.None? && why == Cancelled ==> contextDone
      ensures old(contextDone) && servers != [] ==> resp.None? && why == Cancelled && query.log == NoExchange
    {
      QualifiedEndsInDot(name);
      var shuffled := Shuffle(servers);
      var msg := NewRootQuery(name, qtype);
      ghost var log: Log := NoExchange;
      why := ServersFailed;
      for i := 0 to |shuffled|
        invariant Unanswered(cfg, shuffled, log)
        invariant cfg.retries >= 0 ==> Frontier(cfg, log) == Slot(i, 0, false)
        invariant events == old(events) + LogEvents(msg, log)
        invariant old(contextDone) ==> contextDone && i == 0 && log == NoExchange
      {
        var done := ContextDone();
        if done {
          return None, Cancelled, Query(msg, shuffled, log);
        }
        resp, log := AskServer(shuffled[i], msg, i, shuffled, log, old(events));
        if resp.Some? {
          return resp, why, Query(msg, shuffled, log);
        }
      }
      return None, ServersFailed, Query(msg, shuffled, log);
    }

    // ---------- Reading responses ----------

    method ExtractCname(resp: Msg, name: string) returns (target: string)
      ensures target == CnameOf(resp.answer, name)
    {
      for i := 0 to |resp.answer|
        invariant CnameOf(resp.answer, name) == CnameOf(resp.answer[i..], name)
      {
        var rr := resp.answer[i];
        assert resp.answer[i..][1..] == resp.answer[i + 1..];
        if rr.data.CNAME? {
          if CanonicalName(rr.hdr.name) == CanonicalName(name) {
            return rr.data.target;
          }
        }
      }
      target := "";
    }

    method BuildReply(q: Question, resp: Msg) returns (result: Msg)
      ensures result == BuildResponse(q, resp)
    {
      result := SetReply(NewRootQuery(q.name, q.qtype));
      result := result.(recursionAvailable := true, authoritative := false, rcode := resp.rcode);
      result := result.(answer := resp.answer, ns := resp.ns, extra := resp.extra);
      var cleanExtra := [];
      for i := 0 to |result.extra|
        invariant cleanExtra == WithoutOpt(result.extra[..i])
      {
        assert result.extra[..i + 1][..i] == result.extra[..i];
        if result.extra[i].hdr.rrtype != TYPE_OPT {
          cleanExtra := cleanExtra + [result.extra[i]];
        }
      }
      assert result.extra[..|result.extra|] == result.extra;
      result := result.(extra := cleanExtra);
    }

    method AppendAddresses(ips: seq<string>, rrs: seq<RR>) returns (longer: seq<string>)
      ensures longer == ips + ARecords(rrs)
    {
      longer := ips;
      for i := 0 to |rrs|
        invariant longer == ips + ARecords(rrs[..i])
      {
        assert rrs[..i + 1][..i] == rrs[..i];
        if rrs[i].data.A? {
          longer := longer + [rrs[i].data.ip];
        }
      }
      assert rrs[..|rrs|] == rrs;
    }

    method CollectHosts(resp: Msg) returns (hosts: seq<string>)
      ensures hosts == NsHosts(resp.ns)
    {
      hosts := [];
      for i := 0 to |resp.ns|
        invariant hosts == NsHosts(resp.ns[..i])
      {
        assert resp.ns[..i + 1][..i] == resp.ns[..i];
        if resp.ns[i].data.NS? {
          hosts := hosts + [resp.ns[i].data.host];
        }
      }
      assert resp.ns[..|resp.ns|] == resp.ns;
    }

    method AddGlue(glueMap: map<string, seq<string>>, ghost extra: seq<RR>, rr: RR)
      returns (more: map<string, seq<string>>)
      requires forall h :: Known(glueMap, h) == GlueOf(extra, h)
      ensures forall h :: Known(more, h) == GlueOf(extra + [rr], h)
    {
      var name := CanonicalName(rr.hdr.name);
      more := glueMap;
      match rr.data {
        case A(ip) => more := glueMap[name := Known(glueMap, name) + [ip]];
        case AAAA(ip) => more := glueMap[name := Known(glueMap, name) + [ip]];
        case _ =>
      }
      forall h ensures Known(more, h) == GlueOf(extra + [rr], h) {
        GlueOfOneMore(extra, rr, h);
        assert Known(glueMap, h) == GlueOf(extra, h);
      }
    }

    method IndexGlue(extra: seq<RR>) returns (glueMap: map<string, seq<string>>)
      ensures forall h :: Known(glueMap, h) == GlueOf(extra, h)
    {
      glueMap := map[];
      for i := 0 to |extra|
        invariant forall h :: Known(glueMap, h) == GlueOf(extra[..i], h)
      {
        assert extra[..i + 1] == extra[..i] + [extra[i]];
        glueMap := AddGlue(glueMap, extra[..i], extra[i]);
      }
      assert extra[..|extra|] == extra;
    }

    method CollectGlue(hosts: seq<string>, extra: seq<RR>) returns (ips: seq<string>)
      ensures ips == Glue(hosts, extra)
    {
      var glueMap := IndexGlue(extra);
      ips := [];
      for i := 0 to |hosts|
        invariant ips == Glue(hosts[..i], extra)
      {
        assert hosts[..i + 1][..i] == hosts[..i];
        var canonical := CanonicalName(hosts[i]);
        assert Known(glueMap, canonical) == GlueOf(extra, canonical);
        if canonical in glueMap {
          ips := ips + glueMap[canonical];
        }
      }
      assert hosts[..|hosts|] == hosts;
    }

    // ---------- The mutual recursion ----------

    ghost function Levels(depth: nat): nat {
      if depth > cfg.maxDepth then 0 else cfg.maxDepth + 1 - depth
    }

    method ResolveIterative(q: Question, depth: nat) returns (answer: Answer, ghost call: Call)
      modifies this
      ensures call.q == q && call.depth == depth && CallOk(cfg, roots, call)
      ensures answer == Outcome(call)
      ensures writes == old(writes) + Writes(call) && events == old(events) + Events(call)
      ensures ContextOk(old(contextDone), contextDone, depth <= cfg.maxDepth, answer,
                        call.rounds == NoRound && call.end == AtCancel)
      decreases Levels(depth), 3
    {
      if depth > cfg.maxDepth {
        return Err(TooDeep), Call(q, depth, NoRound, AtDepth);
      }
      var done := ContextDone();
      if done {
        return Err(Cancelled), Call(q, depth, NoRound, AtCancel);
      }
      var nameservers := roots;
      ghost var rounds: Rounds := NoRound;
      for i := 0 to cfg.maxDepth
        invariant Count(rounds) == i
        invariant RoundsAsk(q, rounds) && RoundsOk(cfg, roots, depth, rounds)
        invariant nameservers == ServersAfter(roots, rounds)
        invariant writes == old(writes) + RoundsWrites(rounds) && events == old(events) + RoundsEvents(rounds)
        invariant !old(contextDone)
      {
        var finished, next, round, end := Turn(q, depth, nameservers);
        if finished.Some? {
          AppendIsAssociative(old(writes), RoundsWrites(rounds), EndWrites(end));
          AppendIsAssociative(old(events), RoundsEvents(rounds), EndEvents(end));
          call := Finish(cfg, roots, q, depth, rounds, end);
          return finished.value, call;
        }
        AppendIsAssociative(old(writes), RoundsWrites(rounds), LookupsWrites(round.lookups));
        AppendIsAssociative(old(events), RoundsEvents(rounds), RoundEvents(round));
        rounds := Turned(rounds, round);
        nameservers := next;
      }
      call := Finish(cfg, roots, q, depth, rounds, AtLimit);
      return Err(LoopExhausted), call;
    }

    // One turn of the loop: the answer of the call, or the servers to ask next.
    method Turn(q: Question, depth: nat, nameservers: seq<string>)
      returns (finished: Option<Answer>, next: seq<string>, ghost round: Round, ghost end: End)
      requires depth <= cfg.maxDepth
      modifies this
      ensures finished.Some? ==>
        && !end.AtLimit? && EndOk(cfg, roots, q, depth, nameservers, end)
        && finished.value == Given(q, end)
        && writes == old(writes) + EndWrites(end) && events == old(events) + EndEvents(end)
      ensures finished.None? ==>
        && Asks(q, round.query) && RoundOk(cfg, roots, depth, nameservers, round)
        && next == Addresses(round.resp, round.lookups)
        && writes == old(writes) + LookupsWrites(round.lookups) && events == old(events) + RoundEvents(round)
      ensures if finished.Some? then ContextOk(old(contextDone), contextDone, true, finished.value, end == AtCancel)
              else !old(contextDone)
      decreases Levels(depth), 2
    {
      next, round, end := [], *, AtCancel;
      var done := ContextDone();
      if done {
        finished := Some(Err(Cancelled));
        return;
      }
      var reply, why, query := QueryNameservers(q.name, q.qtype, nameservers);
      if reply.None? {
        finished, end := Some(Err(why)), AtQuery(query, why);
        return;
      }
      var resp := reply.value;
      end := AtResponse(query, resp, NoLookup);
      if resp.authoritative || resp.rcode == RCODE_NAME_ERROR {
        var result := BuildReply(q, resp);
        finished := Some(Ok(result));
        return;
      }
      if |resp.answer| > 0 {
        if q.qtype != TYPE_CNAME {
          var cname := ExtractCname(resp, q.name);
          if cname != "" {
            var answer;
            answer, end := FollowCname(q, cname, query, resp, depth, nameservers);
            AppendIsAssociative(old(events), QueryEvents(query), SubEvents(end));
            finished := Some(answer);
            return;
          }
        }
        var result := BuildReply(q, resp);
        finished := Some(Ok(result));
        return;
      }
      if |resp.ns| > 0 {
        var newNS, lookups := ExtractReferral(resp, depth);
        AppendIsAssociative(old(events), QueryEvents(query), LookupsEvents(lookups));
        if |newNS| > 0 {
          finished, next, round := None, newNS, Round(query, resp, lookups);
          return;
        }
        end := AtResponse(query, resp, lookups);
      }
      var result := BuildReply(q, resp);
      finished := Some(Ok(result));
    }

    method CombineReply(q: Question, resp: Msg, target: Msg) returns (result: Msg)
      ensures result == Combine(q, resp, target)
    {
      result := SetReply(NewRootQuery(q.name, q.qtype));
      result := result.(authoritative := false, recursionAvailable := true);
      for i := 0 to |resp.answer|
        invariant result == SetReply(NewRootQuery(q.name, q.qtype)).(
          authoritative := false, recursionAvailable := true, answer := Cnames(resp.answer[..i]))
      {
        assert resp.answer[..i + 1][..i] == resp.answer[..i];
        if resp.answer[i].data.CNAME? {
          result := result.(answer := result.answer + [resp.answer[i]]);
        }
      }
      assert resp.answer[..|resp.answer|] == resp.answer;
      result := result.(answer := result.answer + target.answer);
      result := result.(ns := target.ns, extra := target.extra, rcode := target.rcode);
    }

    method FollowCname(q: Question, cname: string, ghost query: Query, resp: Msg, depth: nat,
                       ghost servers: seq<string>)
      returns (answer: Answer, ghost end: End)
      requires depth <= cfg.maxDepth
      requires Asks(q, query) && Answered(cfg, servers, query, resp) && cname != "" && cname == TargetOf(q, resp)
      modifies this
      ensures (end.AtCname? || end.Followed?) && EndOk(cfg, roots, q, depth, servers, end)
      ensures answer == Given(q, end)
      ensures writes == old(writes) + EndWrites(end)
      ensures EndEvents(end) == QueryEvents(query) + SubEvents(end) && events == old(events) + SubEvents(end)
      ensures old(contextDone) ==> contextDone
      ensures answer == Err(Cancelled) ==> contextDone
      decreases Levels(depth), 1
    {
      if depth > cfg.maxCnameChain {
        return Err(CnameTooLong), AtCname(query, resp);
      }
      var target, sub := ResolveIterative(Question(cname, q.qtype, q.qclass), depth + 1);
      end := Followed(query, resp, sub);
      if target.Err? {
        return target, end;
      }
      var result := CombineReply(q, resp, target.msg);
      answer := Ok(result);
    }

    method ExtractReferral(resp: Msg, depth: nat) returns (ips: seq<string>, ghost lookups: Lookups)
      requires depth <= cfg.maxDepth
      modifies this
      ensures LookupsOk(cfg, roots, depth, HostsToAsk(resp), lookups)
      ensures ips == Addresses(resp, lookups)
      ensures writes == old(writes) + LookupsWrites(lookups) && events == old(events) + LookupsEvents(lookups)
      ensures old(contextDone) ==> contextDone
      decreases Levels(depth), 1
    {
      lookups := NoLookup;
      var hosts := CollectHosts(resp);
      if |hosts| == 0 {
        return [], lookups;
      }
      ips := CollectGlue(hosts, resp.extra);
      if |ips| == 0 {
        ips, lookups := LookUpHosts(hosts, depth);
      }
    }

    method LookUpHosts(hosts: seq<string>, depth: nat) returns (ips: seq<string>, ghost lookups: Lookups)
      requires depth <= cfg.maxDepth
      modifies this
      ensures LookupsOk(cfg, roots, depth, hosts, lookups)
      ensures ips == LookupsAddresses(lookups)
      ensures writes == old(writes) + LookupsWrites(lookups) && events == old(events) + LookupsEvents(lookups)
      ensures old(contextDone) ==> contextDone
      decreases Levels(depth), 0, 2
    {
      ips, lookups := [], NoLookup;
      for i := 0 to |hosts|
        invariant LookupsOk(cfg, roots, depth, hosts[..i], lookups)
        invariant ips == LookupsAddresses(lookups)
        invariant writes == old(writes) + LookupsWrites(lookups) && events == old(events) + LookupsEvents(lookups)
        invariant old(contextDone) ==> contextDone
      {
        var more, l := LookUpHost(hosts[i], depth);
        AppendIsAssociative(old(writes), LookupsWrites(lookups), LookupWrites(l));
        AppendIsAssociative(old(events), LookupsEvents(lookups), LookupEvents(l));
        assert hosts[..i + 1][..i] == hosts[..i];
        lookups := LookedUp(lookups, l);
        ips := ips + more;
      }
      assert hosts[..|hosts|] == hosts;
    }

    // One name server without glue: from the cache, or by resolving its name.
    method LookUpHost(host: string, depth: nat) returns (ips: seq<string>, ghost l: Lookup)
      requires depth <= cfg.maxDepth
      modifies this
      ensures LookupOk(cfg, roots, depth, host, l)
      ensures ips == LookupAddresses(l)
      ensures writes == old(writes) + LookupWrites(l)
      ensures events == old(events) + LookupEvents(l)
      ensures old(contextDone) ==> contextDone
      decreases Levels(depth), 0, 1
    {
      ips := [];
      var cached := CacheGet(AddressQuestion(host));
      if cached.Some? {
        l := Found(host, cached.value);
        ips := AppendAddresses(ips, cached.value.answer);
      } else if depth < cfg.maxDepth - 5 {
        ips, l := AskForHost(host, depth);
        AppendIsAssociative(old(events), [Looked(AddressQuestion(host), None)], Events(l.call));
      } else {
        l := Skipped(host);
      }
    }

    method AskForHost(host: string, depth: nat) returns (ips: seq<string>, ghost l: Lookup)
      requires depth < cfg.maxDepth - 5
      modifies this
      ensures l.Asked? && LookupOk(cfg, roots, depth, host, l)
      ensures ips == LookupAddresses(l)
      ensures writes == old(writes) + LookupWrites(l)
      ensures events == old(events) + Events(l.call)
      ensures old(contextDone) ==> contextDone
      decreases Levels(depth), 0, 0
    {
      ips := [];
      var q := AddressQuestion(host);
      var nsResp, sub := ResolveIterative(q, depth + 1);
      l := Asked(host, sub);
      if nsResp.Ok? {
        ips := AppendAddresses(ips, nsResp.msg.answer);
        CacheSet(q, nsResp.msg);
        AppendIsAssociative(old(writes), Writes(sub), [Write(q, nsResp.msg)]);
      }
    }

    // ---------- Who calls the recursion ----------

    // The leader's part of Resolve, and prefetch: resolve from depth 0 and cache a success.
    method ResolveAndCache(name: string, qtype: u16, qclass: u16) returns (answer: Answer, ghost call: Call)
      requires AllClean(writes)
      modifies this
      ensures call.q == Question(name, qtype, qclass) && call.depth == 0 && CallOk(cfg, roots, call)
      ensures answer == Outcome(call) && events == old(events) + Events(call)
      ensures writes == old(writes) + Writes(call) + if answer.Ok? then [Write(call.q, answer.msg)] else []
      ensures AllClean(writes) && (answer.Ok? ==> IsClean(call.q, answer.msg))
      ensures answer == Err(TooDeep) ==> DepthErrorIsPossible(cfg, roots)
    {
      var q := Question(name, qtype, qclass);
      answer, call := ResolveIterative(q, 0);
      ResultsAreClean(cfg, roots, call);
      if answer == Err(TooDeep) {
        DepthErrorExactly(cfg, roots);
      }
      if answer.Ok? {
        CacheSet(q, answer.msg);
      }
    }
  }
}
