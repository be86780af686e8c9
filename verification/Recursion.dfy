// The iterative resolution of internal/resolver/resolver.go.  The network, the context and
// the cache answer as they please.  Every call of resolveIterative leaves a call tree: the
// exchanges it made, the referrals it followed, the calls it made in turn.
module Recursion {
  import opened Options
  import opened Dns

  datatype Config = Config(maxDepth: int, maxCnameChain: int, retries: int)

  datatype Failure = TooDeep | Cancelled | ServersFailed | CnameTooLong | LoopExhausted

  datatype Answer = Ok(msg: Msg) | Err(why: Failure)

  // A call of Cache.Set.
  datatype Write = Write(q: Question, msg: Msg)

  // What the resolver did to learn something: a message to a server, a look into the cache.
  datatype Event =
    | Sent(server: string, tcp: bool, query: Msg, reply: Option<Msg>)
    | Looked(q: Question, found: Option<Msg>)

  // The place of an exchange in a query: which server, which attempt, over UDP or TCP.
  datatype Slot = Slot(pos: nat, attempt: nat, tcp: bool)

  datatype Exchange = Exchange(slot: Slot, server: string, reply: Option<Msg>)

  // Traces grow at the end.
  datatype Log = NoExchange | Exchanged(past: Log, last: Exchange)

  // One call of queryNameservers: the message sent, the servers in shuffled order, and what was
  // exchanged.
  datatype Query = Query(ask: Msg, order: seq<string>, log: Log)

  datatype Call = Call(q: Question, depth: nat, rounds: Rounds, end: End)

  // The turns of the loop that ended in a usable referral.
  datatype Rounds = NoRound | Turned(past: Rounds, last: Round)

  datatype Round = Round(query: Query, resp: Msg, lookups: Lookups)

  datatype Lookups = NoLookup | LookedUp(past: Lookups, last: Lookup)

  // What was done to find the address of a name server without glue.
  datatype Lookup = Found(host: string, msg: Msg) | Skipped(host: string) | Asked(host: string, call: Call)

  datatype End =
    | AtDepth
    | AtCancel
    | AtQuery(query: Query, why: Failure)
    | AtResponse(query: Query, resp: Msg, lookups: Lookups)
    | AtCname(query: Query, resp: Msg)
    | Followed(query: Query, resp: Msg, sub: Call)
    | AtLimit

  // ---------- Building messages ----------

  function Cnames(rrs: seq<RR>): (r: seq<RR>)
    ensures forall rr :: rr in r ==> rr in rrs && rr.data.CNAME?
  {
    if rrs == [] then []
    else Cnames(rrs[..|rrs| - 1]) + if rrs[|rrs| - 1].data.CNAME? then [rrs[|rrs| - 1]] else []
  }

  function WithoutOpt(rrs: seq<RR>): (r: seq<RR>)
    ensures forall rr :: rr in r <==> rr in rrs && rr.hdr.rrtype != TYPE_OPT
  {
    if rrs == [] then []
    else WithoutOpt(rrs[..|rrs| - 1]) + if rrs[|rrs| - 1].hdr.rrtype != TYPE_OPT then [rrs[|rrs| - 1]] else []
  }

  function BuildResponse(q: Question, resp: Msg): Msg {
    SetReply(NewRootQuery(q.name, q.qtype)).(
      recursionAvailable := true, authoritative := false, rcode := resp.rcode,
      answer := resp.answer, ns := resp.ns, extra := WithoutOpt(resp.extra))
  }

  // The CNAME records of a response, followed by what resolving the target gave.
  function Combine(q: Question, resp: Msg, target: Msg): Msg {
    SetReply(NewRootQuery(q.name, q.qtype)).(
      recursionAvailable := true, authoritative := false, rcode := target.rcode,
      answer := Cnames(resp.answer) + target.answer, ns := target.ns, extra := target.extra)
  }

  // The target of the first CNAME record owned by the name; "" if there is none.
  function CnameOf(rrs: seq<RR>, name: string): string {
    if rrs == [] then ""
    else if rrs[0].data.CNAME? && CanonicalName(rrs[0].hdr.name) == CanonicalName(name) then rrs[0].data.target
    else CnameOf(rrs[1..], name)
  }

  // ---------- Referrals ----------

  function NsHosts(rrs: seq<RR>): seq<string> {
    if rrs == [] then []
    else NsHosts(rrs[..|rrs| - 1]) + if rrs[|rrs| - 1].data.NS? then [rrs[|rrs| - 1].data.host] else []
  }

  function AddressOf(rr: RR): seq<string> {
    match rr.data
    case A(ip) => [ip]
    case AAAA(ip) => [ip]
    case _ => []
  }

  // The addresses the additional section gives for a canonical host name.
  function GlueOf(extra: seq<RR>, host: string): seq<string> {
    if extra == [] then []
    else
      var rr := extra[|extra| - 1];
      GlueOf(extra[..|extra| - 1], host) + if CanonicalName(rr.hdr.name) == host then AddressOf(rr) else []
  }

  function Glue(hosts: seq<string>, extra: seq<RR>): seq<string> {
    if hosts == [] then []
    else Glue(hosts[..|hosts| - 1], extra) + GlueOf(extra, CanonicalName(hosts[|hosts| - 1]))
  }

  function ARecords(rrs: seq<RR>): seq<string> {
    if rrs == [] then []
    else ARecords(rrs[..|rrs| - 1]) + if rrs[|rrs| - 1].data.A? then [rrs[|rrs| - 1].data.ip] else []
  }

  function Outcome(c: Call): Answer {
    match c.end
    case AtDepth => Err(TooDeep)
    case AtCancel => Err(Cancelled)
    case AtQuery(_, why) => Err(why)
    case AtResponse(_, resp, _) => Ok(BuildResponse(c.q, resp))
    case AtCname(_, _) => Err(CnameTooLong)
    case Followed(_, resp, sub) =>
      (match Outcome(sub)
       case Err(why) => Err(why)
       case Ok(msg) => Ok(Combine(c.q, resp, msg)))
    case AtLimit => Err(LoopExhausted)
  }

  function LookupAddresses(l: Lookup): seq<string> {
    match l
    case Found(_, msg) => ARecords(msg.answer)
    case Skipped(_) => []
    case Asked(_, call) => if Outcome(call).Ok? then ARecords(Outcome(call).msg.answer) else []
  }

  function LookupsAddresses(ls: Lookups): seq<string> {
    match ls
    case NoLookup => []
    case LookedUp(past, l) => LookupsAddresses(past) + LookupAddresses(l)
  }

  // The name server addresses a referral yields.
  function Addresses(resp: Msg, lookups: Lookups): seq<string> {
    var glue := Glue(NsHosts(resp.ns), resp.extra);
    if glue != [] then glue else LookupsAddresses(lookups)
  }

  // ---------- The outcome of a call ----------

  // The cache writes of a call, in order.
  function Writes(c: Call): seq<Write> {
    RoundsWrites(c.rounds) + EndWrites(c.end)
  }

  function EndWrites(end: End): seq<Write> {
    match end
    case AtResponse(_, _, lookups) => LookupsWrites(lookups)
    case Followed(_, _, sub) => Writes(sub)
    case _ => []
  }

  function RoundsWrites(rs: Rounds): seq<Write> {
    match rs
    case NoRound => []
    case Turned(past, r) => RoundsWrites(past) + LookupsWrites(r.lookups)
  }

  function LookupsWrites(ls: Lookups): seq<Write> {
    match ls
    case NoLookup => []
    case LookedUp(past, l) => LookupsWrites(past) + LookupWrites(l)
  }

  // The question for the address of a name server.
  function AddressQuestion(host: string): Question {
    Question(host, TYPE_A, CLASS_INET)
  }

  function LookupWrites(l: Lookup): seq<Write> {
    if !l.Asked? then []
    else if Outcome(l.call).Err? then Writes(l.call)
    else Writes(l.call) + [Write(AddressQuestion(l.host), Outcome(l.call).msg)]
  }

  // What a call sent and looked up, in order.
  function Events(c: Call): seq<Event> {
    RoundsEvents(c.rounds) + EndEvents(c.end)
  }

  function LogEvents(ask: Msg, log: Log): seq<Event> {
    match log
    case NoExchange => []
    case Exchanged(past, e) => LogEvents(ask, past) + [Sent(e.server, e.slot.tcp, ask, e.reply)]
  }

  function QueryEvents(query: Query): seq<Event> {
    LogEvents(query.ask, query.log)
  }

  function EndEvents(end: End): seq<Event> {
    match end
    case AtQuery(query, _) => QueryEvents(query)
    case AtResponse(query, _, lookups) => QueryEvents(query) + LookupsEvents(lookups)
    case AtCname(query, _) => QueryEvents(query)
    case Followed(query, _, sub) => QueryEvents(query) + Events(sub)
    case _ => []
  }

  function RoundEvents(r: Round): seq<Event> {
    QueryEvents(r.query) + LookupsEvents(r.lookups)
  }

  function RoundsEvents(rs: Rounds): seq<Event> {
    match rs
    case NoRound => []
    case Turned(past, r) => RoundsEvents(past) + RoundEvents(r)
  }

  function LookupsEvents(ls: Lookups): seq<Event> {
    match ls
    case NoLookup => []
    case LookedUp(past, l) => LookupsEvents(past) + LookupEvents(l)
  }

  function LookupEvents(l: Lookup): seq<Event> {
    match l
    case Found(host, msg) => [Looked(AddressQuestion(host), Some(msg))]
    case Skipped(host) => [Looked(AddressQuestion(host), None)]
    case Asked(host, call) => [Looked(AddressQuestion(host), None)] + Events(call)
  }

  // ---------- Which call trees the code can leave ----------

  // The reply is taken as the answer of the query.
  predicate Usable(e: Exchange) {
    && e.reply.Some?
    && (e.slot.tcp || !e.reply.value.truncated)
    && e.reply.value.rcode != RCODE_SERVER_FAILURE
  }

  // Where the query goes on after an exchange that was not usable: TCP after truncation,
  // another attempt after a failure, the next server after SERVFAIL or the last attempt.
  function NextSlot(cfg: Config, e: Exchange): Slot {
    if !e.slot.tcp && e.reply.Some? && e.reply.value.truncated then e.slot.(tcp := true)
    else if e.reply.None? && e.slot.attempt < cfg.retries then Slot(e.slot.pos, e.slot.attempt + 1, false)
    else Slot(e.slot.pos + 1, 0, false)
  }

  function Frontier(cfg: Config, log: Log): Slot {
    match log
    case NoExchange => Slot(0, 0, false)
    case Exchanged(_, e) => NextSlot(cfg, e)
  }

  // The exchange that comes next, with the server in that place.
  predicate Continues(cfg: Config, order: seq<string>, past: Log, e: Exchange) {
    cfg.retries >= 0 && e.slot == Frontier(cfg, past) && e.slot.pos < |order| && e.server == order[e.slot.pos]
  }

  // The exchanges of a query that has not found a usable reply.
  predicate Unanswered(cfg: Config, order: seq<string>, log: Log) {
    log.Exchanged? ==>
      Unanswered(cfg, order, log.past) && Continues(cfg, order, log.past, log.last) && !Usable(log.last)
  }

  ghost predicate Shuffled(order: seq<string>, servers: seq<string>) {
    multiset(order) == multiset(servers)
  }

  // The reply comes from the last exchange and from no earlier one.
  predicate LogAnswers(cfg: Config, order: seq<string>, log: Log, resp: Msg) {
    && log.Exchanged? && Unanswered(cfg, order, log.past) && Continues(cfg, order, log.past, log.last)
    && Usable(log.last) && log.last.reply == Some(resp)
  }

  // The query got this reply.
  ghost predicate Answered(cfg: Config, servers: seq<string>, query: Query, resp: Msg) {
    Shuffled(query.order, servers) && LogAnswers(cfg, query.order, query.log, resp)
  }

  // The query was given up: every server was exhausted, or the context ended between servers.
  ghost predicate Unsuccessful(cfg: Config, servers: seq<string>, query: Query, why: Failure) {
    && Shuffled(query.order, servers)
    && Unanswered(cfg, query.order, query.log)
    && var at := Frontier(cfg, query.log);
       match why
       case ServersFailed => cfg.retries < 0 || at == Slot(|servers|, 0, false)
       case Cancelled => |servers| > 0 && (cfg.retries < 0 || (at.pos < |servers| && at == Slot(at.pos, 0, false)))
       case _ => false
  }

  predicate IsFinal(resp: Msg) {
    resp.authoritative || resp.rcode == RCODE_NAME_ERROR
  }

  // The CNAME target a response makes the resolver follow; "" if it follows none.
  function TargetOf(q: Question, resp: Msg): string {
    if IsFinal(resp) || resp.answer == [] || q.qtype == TYPE_CNAME then "" else CnameOf(resp.answer, q.name)
  }

  predicate IsReferral(resp: Msg) {
    !IsFinal(resp) && resp.answer == [] && resp.ns != []
  }

  ghost predicate LookupOk(cfg: Config, roots: seq<string>, depth: nat, host: string, l: Lookup)
    decreases l, 0
  {
    && l.host == host
    && match l
       case Found(_, _) => true
       case Skipped(_) => depth >= cfg.maxDepth - 5
       case Asked(_, call) =>
         && depth < cfg.maxDepth - 5
         && call.q == AddressQuestion(host) && call.depth == depth + 1
         && CallOk(cfg, roots, call)
  }

  // One lookup for each host, in order.
  ghost predicate LookupsOk(cfg: Config, roots: seq<string>, depth: nat, hosts: seq<string>, ls: Lookups)
    decreases ls, 0
  {
    match ls
    case NoLookup => hosts == []
    case LookedUp(past, l) =>
      && hosts != []
      && LookupsOk(cfg, roots, depth, hosts[..|hosts| - 1], past)
      && LookupOk(cfg, roots, depth, hosts[|hosts| - 1], l)
  }

  // The hosts a referral makes the resolver look up: all of them, when there is no glue.
  function HostsToAsk(resp: Msg): seq<string> {
    var hosts := NsHosts(resp.ns);
    if Glue(hosts, resp.extra) == [] then hosts else []
  }

  // The servers that are asked next.
  function ServersAfter(roots: seq<string>, rs: Rounds): seq<string> {
    match rs
    case NoRound => roots
    case Turned(_, r) => Addresses(r.resp, r.lookups)
  }

  function Count(rs: Rounds): nat {
    match rs
    case NoRound => 0
    case Turned(past, _) => Count(past) + 1
  }

  ghost predicate RoundOk(cfg: Config, roots: seq<string>, depth: nat, servers: seq<string>, r: Round)
    decreases r, 0
  {
    && Answered(cfg, servers, r.query, r.resp)
    && IsReferral(r.resp)
    && LookupsOk(cfg, roots, depth, HostsToAsk(r.resp), r.lookups)
    && Addresses(r.resp, r.lookups) != []
  }

  ghost predicate RoundsOk(cfg: Config, roots: seq<string>, depth: nat, rs: Rounds)
    decreases rs, 0
  {
    rs.Turned? ==>
      RoundsOk(cfg, roots, depth, rs.past) && RoundOk(cfg, roots, depth, ServersAfter(roots, rs.past), rs.last)
  }

  // The queries send the question of the call.
  predicate Asks(q: Question, query: Query) {
    query.ask == NewRootQuery(q.name, q.qtype)
  }

  predicate RoundsAsk(q: Question, rs: Rounds) {
    rs.Turned? ==> RoundsAsk(q, rs.past) && Asks(q, rs.last.query)
  }

  predicate EndAsks(q: Question, end: End) {
    match end
    case AtQuery(query, _) => Asks(q, query)
    case AtResponse(query, _, _) => Asks(q, query)
    case AtCname(query, _) => Asks(q, query)
    case Followed(query, _, _) => Asks(q, query)
    case _ => true
  }

  // The last turn of the loop, or what cut it off.
  ghost predicate EndOk(cfg: Config, roots: seq<string>, q: Question, depth: nat, servers: seq<string>, end: End)
    decreases end, 0
  {
    EndAsks(q, end) &&
    match end
    case AtDepth => false
    case AtCancel => true
    case AtLimit => true
    case AtQuery(query, why) => Unsuccessful(cfg, servers, query, why)
    case AtResponse(query, resp, lookups) =>
      && Answered(cfg, servers, query, resp)
      && TargetOf(q, resp) == ""
      && (if IsReferral(resp) then
            LookupsOk(cfg, roots, depth, HostsToAsk(resp), lookups) && Addresses(resp, lookups) == []
          else lookups == NoLookup)
    case AtCname(query, resp) =>
      && Answered(cfg, servers, query, resp)
      && TargetOf(q, resp) != "" && depth > cfg.maxCnameChain
    case Followed(query, resp, sub) =>
      && Answered(cfg, servers, query, resp)
      && TargetOf(q, resp) != "" && depth <= cfg.maxCnameChain
      && sub.q == Question(TargetOf(q, resp), q.qtype, q.qclass) && sub.depth == depth + 1
      && CallOk(cfg, roots, sub)
  }

  // How many turns may precede each kind of end.
  predicate TurnsOk(cfg: Config, turns: nat, end: End) {
    match end
    case AtCancel => turns == 0 || turns < cfg.maxDepth
    case AtLimit => turns == cfg.maxDepth
    case _ => turns < cfg.maxDepth
  }

  ghost predicate CallOk(cfg: Config, roots: seq<string>, c: Call)
    decreases c, 0
  {
    if c.depth > cfg.maxDepth then c.rounds == NoRound && c.end.AtDepth?
    else
      && TurnsOk(cfg, Count(c.rounds), c.end)
      && RoundsAsk(c.q, c.rounds) && RoundsOk(cfg, roots, c.depth, c.rounds)
      && EndOk(cfg, roots, c.q, c.depth, ServersAfter(roots, c.rounds), c.end)
  }
}
