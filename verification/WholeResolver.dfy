// Deduplication, recursion, cache and restarts taken together: what every request is answered
// and every cache slot is given comes from a call tree that the recursion allows.
module WholeResolver {
  import opened Options
  import opened Dns
  import opened Recursion
  import opened RecursionLaws
  import I = InFlight
  import CS = CacheSteps
  import CL = CacheLaws
  import LT = Lifetimes
  import opened Snapshots

  // How Resolve hands on what resolveIterative answered.
  ghost predicate Reports(a: Answer, res: I.Result) {
    match a
    case Ok(msg) => res == I.Result(Some(msg), None)
    case Err(_) => res.msg.None? && res.err.Some?
  }

  // The result is that of an allowed call tree from depth 0.
  ghost predicate Resolves(cfg: Config, roots: seq<string>, q: Question, res: I.Result) {
    exists c :: CallOk(cfg, roots, c) && c.q == q && c.depth == 0 && Reports(Outcome(c), res)
  }

  // Every leader of the run gets its result from the recursion.
  ghost predicate LeadersResolve(cfg: Config, roots: seq<string>, s: I.State, run: seq<I.Action>)
    requires I.Legal(s, run)
    decreases |run|
  {
    run != [] ==>
      && (run[0].FinishResolution? ==> Resolves(cfg, roots, s.requests[run[0].r].q, run[0].res))
      && LeadersResolve(cfg, roots, I.Effect(s, run[0]), run[1..])
  }

  // The result a leader carries at this point.
  function Carried(pc: I.PC): Option<I.Result> {
    match pc
    case Resolved(_, res) => Some(res)
    case MsgStored(_, res) => Some(res)
    case ErrStored(_, res) => Some(res)
    case Closed(_, res) => Some(res)
    case Removed(_, res) => Some(res)
    case Returned(how) => if how.Led? then Some(how.res) else None
    case _ => None
  }

  ghost predicate CarriesResolved(cfg: Config, roots: seq<string>, req: I.Request) {
    Carried(req.pc).Some? ==> Resolves(cfg, roots, req.q, Carried(req.pc).value)
  }

  lemma StepKeepsCarried(cfg: Config, roots: seq<string>, s: I.State, a: I.Action, r: nat)
    requires I.Enabled(s, a) && r in I.Effect(s, a).requests
    requires a.FinishResolution? ==> Resolves(cfg, roots, s.requests[a.r].q, a.res)
    requires r in s.requests ==> CarriesResolved(cfg, roots, s.requests[r])
    ensures CarriesResolved(cfg, roots, I.Effect(s, a).requests[r])
  {
  }

  lemma {:induction false} RunKeepsCarried(cfg: Config, roots: seq<string>, s: I.State, run: seq<I.Action>, r: nat)
    requires I.Legal(s, run) && LeadersResolve(cfg, roots, s, run)
    requires forall k :: k in s.requests ==> CarriesResolved(cfg, roots, s.requests[k])
    requires r in I.After(s, run).requests
    ensures CarriesResolved(cfg, roots, I.After(s, run).requests[r])
    decreases |run|
  {
    if run != [] {
      var t := I.Effect(s, run[0]);
      forall k | k in t.requests
        ensures CarriesResolved(cfg, roots, t.requests[k])
      {
        StepKeepsCarried(cfg, roots, s, run[0], k);
      }
      RunKeepsCarried(cfg, roots, t, run[1..], r);
    }
  }

  lemma ResolvedAnswersAreClean(cfg: Config, roots: seq<string>, q: Question, res: I.Result)
    requires Resolves(cfg, roots, q, res) && I.IsAnswer(res)
    ensures IsClean(q, res.msg.value)
  {
    var c :| CallOk(cfg, roots, c) && c.q == q && c.depth == 0 && Reports(Outcome(c), res);
    ResultsAreClean(cfg, roots, c);
  }

  // ---------- Every interleaving of requests ----------

  lemma RunIsReachable(run: seq<I.Action>)
    requires I.Legal(I.EMPTY, run)
    ensures I.Reachable(I.After(I.EMPTY, run))
  {
  }

  // A request that led returns a clean message, if any, for its own question.
  lemma LeadersReturnClean(cfg: Config, roots: seq<string>, run: seq<I.Action>, r: nat)
    requires I.Legal(I.EMPTY, run) && LeadersResolve(cfg, roots, I.EMPTY, run)
    requires r in I.After(I.EMPTY, run).requests
    requires var pc := I.After(I.EMPTY, run).requests[r].pc; Carried(pc).Some? && I.IsAnswer(Carried(pc).value)
    ensures var req := I.After(I.EMPTY, run).requests[r]; IsClean(req.q, Carried(req.pc).value.msg.value)
  {
    RunKeepsCarried(cfg, roots, I.EMPTY, run, r);
    var req := I.After(I.EMPTY, run).requests[r];
    ResolvedAnswersAreClean(cfg, roots, req.q, Carried(req.pc).value);
  }

  // So does a request that joined: the question of its leader is its own.
  lemma JoinersReturnClean(cfg: Config, roots: seq<string>, run: seq<I.Action>, r: nat)
    requires I.Legal(I.EMPTY, run) && LeadersResolve(cfg, roots, I.EMPTY, run)
    requires r in I.After(I.EMPTY, run).requests
    requires var pc := I.After(I.EMPTY, run).requests[r].pc;
             pc.Returned? && pc.how.Joined? && I.IsAnswer(pc.how.res)
    ensures var req := I.After(I.EMPTY, run).requests[r]; IsClean(req.q, req.pc.how.res.msg.value)
  {
    var s := I.After(I.EMPTY, run);
    RunIsReachable(run);
    I.JoinedResultIsTheLeaders(s, r);
    LeadersReturnClean(cfg, roots, run, s.entries[s.requests[r].pc.how.id].leader);
  }

  lemma StoreHasItsLeader(s: I.State, st: I.Store)
    requires I.Reachable(s) && st in s.stores
    ensures st.leader in s.requests && s.requests[st.leader].q == st.q
    ensures Carried(s.requests[st.leader].pc) == Some(I.Result(Some(st.msg), None))
  {
    I.ReachableStatesAreSound(s);
    var i :| 0 <= i < |s.stores| && s.stores[i] == st;
    assert I.StoreOk(s, s.stores[i]);
  }

  lemma CleanIsFromResolver(tables: Tables, q: Question, msg: Msg)
    requires IsClean(q, msg)
    ensures FromResolver(tables, CacheKey(tables, q.name, q.qtype, q.qclass), msg)
  {
  }

  // Every store of a run is clean, and fit to be found again under its key.
  lemma StoresAreClean(cfg: Config, roots: seq<string>, tables: Tables, run: seq<I.Action>, st: I.Store)
    requires I.Legal(I.EMPTY, run) && LeadersResolve(cfg, roots, I.EMPTY, run)
    requires st in I.After(I.EMPTY, run).stores
    ensures IsClean(st.q, st.msg)
    ensures FromResolver(tables, CacheKey(tables, st.q.name, st.q.qtype, st.q.qclass), st.msg)
  {
    RunIsReachable(run);
    StoreHasItsLeader(I.After(I.EMPTY, run), st);
    LeadersReturnClean(cfg, roots, run, st.leader);
    CleanIsFromResolver(tables, st.q, st.msg);
  }

  // ---------- The cache behind it ----------

  // A write of the resolver: a store of some run of requests, or a write that some allowed call
  // made on the way, or its result, as a prefetch stores it.
  ghost predicate Feeds(cfg: Config, roots: seq<string>, w: Write) {
    || (exists run :: I.Legal(I.EMPTY, run) && LeadersResolve(cfg, roots, I.EMPTY, run)
                   && exists st :: st in I.After(I.EMPTY, run).stores && w == Write(st.q, st.msg))
    || (exists c :: CallOk(cfg, roots, c) && (w in Writes(c) || (Outcome(c) == Ok(w.msg) && c.q == w.q)))
  }

  lemma FedMessagesAreClean(cfg: Config, roots: seq<string>, w: Write)
    requires Feeds(cfg, roots, w)
    ensures IsClean(w.q, w.msg)
  {
    if exists c :: CallOk(cfg, roots, c) && (w in Writes(c) || (Outcome(c) == Ok(w.msg) && c.q == w.q)) {
      var c :| CallOk(cfg, roots, c) && (w in Writes(c) || (Outcome(c) == Ok(w.msg) && c.q == w.q));
      ResultsAreClean(cfg, roots, c);
    } else {
      var run :| I.Legal(I.EMPTY, run) && LeadersResolve(cfg, roots, I.EMPTY, run)
              && exists st :: st in I.After(I.EMPTY, run).stores && w == Write(st.q, st.msg);
      var st :| st in I.After(I.EMPTY, run).stores && w == Write(st.q, st.msg);
      StoresAreClean(cfg, roots, Tables(map[], map[]), run, st);
    }
  }

  // Where the resolver, its cache and its file live: their configurations and the codec.
  datatype System = System(cfg: Config, roots: seq<string>, ccfg: CS.Config, codec: Codec)

  predicate IsRestored(sys: System, a: CS.Action, x: Export)
    requires a.Set?
  {
    a.key == KeyOf(sys.ccfg.tables, x) && sys.codec.unpack(x.bytes) == Some(a.entry.msg)
  }

  predicate IsWrite(sys: System, a: CS.Action, w: Write)
    requires a.Set?
  {
    w.msg == a.entry.msg && a.key == CacheKey(sys.ccfg.tables, w.q.name, w.q.qtype, w.q.qclass)
  }

  ghost predicate ComesFromTheResolver(sys: System, a: CS.Action)
    requires a.Set?
  {
    exists w :: Feeds(sys.cfg, sys.roots, w) && IsWrite(sys, a, w)
  }

  // The Sets of the cache's run are writes of the resolver, or of a load from a file saved of
  // such a cache at most so many restarts ago.
  ghost predicate FedBy(sys: System, n: nat, r: CS.Run)
    decreases n, 0, r
  {
    r.Then? ==>
      && FedBy(sys, n, r.past)
      && (r.act.Set? ==> ComesFromTheResolver(sys, r.act) || (n > 0 && ComesFromAFile(sys, n - 1, r.act)))
  }

  predicate SavesAs(sys: System, r: CS.Run, k: string, x: Export) {
    && k in CS.After(r).table && CanExport(sys.codec, CS.After(r).table[k])
    && x == ExportOf(sys.codec, CS.After(r).table[k])
  }

  ghost predicate WasSaved(sys: System, n: nat, x: Export)
    decreases n, 1
  {
    exists r, k :: FedBy(sys, n, r) && SavesAs(sys, r, k, x)
  }

  ghost predicate ComesFromAFile(sys: System, n: nat, a: CS.Action)
    requires a.Set?
    decreases n, 2
  {
    exists x :: WasSaved(sys, n, x) && IsRestored(sys, a, x)
  }

  lemma {:induction false} FedForLonger(sys: System, m: nat, n: nat, r: CS.Run)
    requires m <= n && FedBy(sys, m, r)
    ensures FedBy(sys, n, r)
    decreases m, 0, r
  {
    if r.Then? {
      FedForLonger(sys, m, n, r.past);
      if r.act.Set? && !ComesFromTheResolver(sys, r.act) {
        var x :| WasSaved(sys, m - 1, x) && IsRestored(sys, r.act, x);
        SavedEarlier(sys, m - 1, n - 1, x);
      }
    }
  }

  lemma {:induction false} SavedEarlier(sys: System, m: nat, n: nat, x: Export)
    requires m <= n && WasSaved(sys, m, x)
    ensures WasSaved(sys, n, x)
    decreases m, 1
  {
    var r, k :| FedBy(sys, m, r) && SavesAs(sys, r, k, x);
    FedForLonger(sys, m, n, r);
  }

  lemma ResolverSetsItsMessages(sys: System, a: CS.Action)
    requires a.Set? && ComesFromTheResolver(sys, a)
    ensures FromResolver(sys.ccfg.tables, a.key, a.entry.msg)
  {
    var w :| Feeds(sys.cfg, sys.roots, w) && IsWrite(sys, a, w);
    FedMessagesAreClean(sys.cfg, sys.roots, w);
    CleanIsFromResolver(sys.ccfg.tables, w.q, w.msg);
  }

  lemma {:induction false} FedRunsAreResolverWrites(sys: System, n: nat, r: CS.Run)
    requires Inverse(sys.codec) && FedBy(sys, n, r)
    ensures ResolverWrites(sys.ccfg, r)
    decreases n, 0, r
  {
    if r.Then? {
      FedRunsAreResolverWrites(sys, n, r.past);
      if r.act.Set? {
        if ComesFromTheResolver(sys, r.act) {
          ResolverSetsItsMessages(sys, r.act);
        } else {
          FileSetsItsMessages(sys, n - 1, r.act);
        }
      }
    }
  }

  lemma FileSetsItsMessages(sys: System, n: nat, a: CS.Action)
    requires Inverse(sys.codec) && a.Set? && ComesFromAFile(sys, n, a)
    ensures FromResolver(sys.ccfg.tables, a.key, a.entry.msg)
    decreases n, 2
  {
    var x :| WasSaved(sys, n, x) && IsRestored(sys, a, x);
    SavedMessagesAreClean(sys, n, x);
  }

  lemma {:induction false} SavedMessagesAreClean(sys: System, n: nat, x: Export)
    requires Inverse(sys.codec) && WasSaved(sys, n, x)
    ensures sys.codec.unpack(x.bytes).Some?
    ensures FromResolver(sys.ccfg.tables, KeyOf(sys.ccfg.tables, x), sys.codec.unpack(x.bytes).value)
    decreases n, 1
  {
    var r, k :| FedBy(sys, n, r) && SavesAs(sys, r, k, x);
    FedRunsAreResolverWrites(sys, n, r);
    ResolverRunsFill(sys.ccfg, r);
    CleanMessagesRegenerate(sys.ccfg.tables, k, CS.After(r).table[k].msg, KeyOf(sys.ccfg.tables, x));
  }

  // The same message and the same length of life, counted from the load.
  predicate SameEntry(now: CS.Stored, was: CS.Stored, loadedAt: int, end: int) {
    now.msg == was.msg && now.ttl == was.ttl && loadedAt <= now.expiresAt - now.ttl <= end
  }

  lemma SurvivorsRegenerate(sys: System, t: Trip)
    requires Written(t) && t.readable && ComesBack(sys.ccfg, sys.codec, t)
    ensures forall k :: k in Survivors(sys.codec, t.table, t.loadedAt) ==>
              Regenerates(sys.ccfg.tables, k, t.table[k].msg)
  {
    forall k | k in Survivors(sys.codec, t.table, t.loadedAt)
      ensures Regenerates(sys.ccfg.tables, k, t.table[k].msg)
    {
      assert Returns(sys.ccfg, t, k);
    }
  }

  // However often the server was restarted, and whatever the network and the schedule: a
  // restart brings back exactly what survives if and only if the file and the keys allow it,
  // and if the file was written the messages and the lifetimes are the same.
  lemma FedCacheComesBackExactly(sys: System, n: nat, r: CS.Run, t: Trip)
    requires FedBy(sys, n, r) && CS.Legal(sys.ccfg, r) && t.table == CS.After(r).table
    requires Inverse(sys.codec) && ProperTables(sys.ccfg.tables) && RoundTrip(sys.ccfg, sys.codec, t)
    ensures t.restored.Keys == Survivors(sys.codec, t.table, t.loadedAt) <==> ComesBack(sys.ccfg, sys.codec, t)
    ensures Written(t) && t.readable && ComesBack(sys.ccfg, sys.codec, t) ==>
              forall k :: k in t.restored ==> k in t.table && SameEntry(t.restored[k], t.table[k], t.loadedAt, t.end)
  {
    FedRunsAreResolverWrites(sys, n, r);
    ResolverRunsFill(sys.ccfg, r);
    RestoresExactlyTheSurvivors(sys.ccfg, sys.codec, t);
    if Written(t) && t.readable && ComesBack(sys.ccfg, sys.codec, t) {
      SurvivorsRegenerate(sys, t);
      forall k | k in t.table
        ensures t.table[k].ttl == CS.StoredTtl(sys.ccfg, t.table[k].msg)
      {
        CL.EntriesAreSound(sys.ccfg, r, k);
      }
      forall k | k in t.restored
        ensures k in t.table && SameEntry(t.restored[k], t.table[k], t.loadedAt, t.end)
      {
        RestoredEntriesAreTheSame(sys.ccfg, sys.codec, t, k);
      }
    }
  }

  // ---------- Every answer ----------

  lemma RefreshedStaysClean(q: Question, msg: Msg, ttl: u32)
    requires IsClean(q, msg)
    ensures IsClean(q, CS.Refreshed(msg, ttl))
  {
    var extra := CS.Refreshed(msg, ttl).extra;
    forall rr | rr in extra
      ensures rr.hdr.rrtype != TYPE_OPT
    {
      var i :| 0 <= i < |extra| && extra[i] == rr;
      assert msg.extra[i] in msg.extra;
    }
  }

  lemma {:induction false} EarlierRunsAreResolverWrites(ccfg: CS.Config, r: CS.Run, i: nat)
    requires ResolverWrites(ccfg, r)
    ensures ResolverWrites(ccfg, CL.ReadBy(r, i))
  {
    if r.Then? && !(r.act.Read? && r.act.i == i) {
      EarlierRunsAreResolverWrites(ccfg, r.past, i);
    }
  }

  // What a Get serves of a fed cache is a clean message for a question of its key.
  lemma HitsAreClean(sys: System, n: nat, r: CS.Run, i: nat, at: int, later: int)
    requires Inverse(sys.codec) && FedBy(sys, n, r) && CS.Legal(sys.ccfg, CS.Then(r, CS.Hit(i, at, later)))
    ensures var e := CS.At(CS.After(r), i).entry;
            FromResolver(sys.ccfg.tables, CL.KeyRead(r, i), CS.Refreshed(e.msg, CS.ServedTtl(sys.ccfg, e, at)))
  {
    var e, key := CS.At(CS.After(r), i).entry, CL.KeyRead(r, i);
    LT.HitIsTheLastSetAtItsRead(sys.ccfg, r, i, at, later);
    FedRunsAreResolverWrites(sys, n, r);
    EarlierRunsAreResolverWrites(sys.ccfg, r, i);
    LastWriteIsTheResolvers(sys.ccfg, CL.ReadBy(r, i), key);
    var q: Question :| key == CacheKey(sys.ccfg.tables, q.name, q.qtype, q.qclass) && IsClean(q, e.msg);
    RefreshedStaysClean(q, e.msg, CS.ServedTtl(sys.ccfg, e, at));
  }

  function KeyOfQuestion(tables: Tables, q: Question): string {
    CacheKey(tables, q.name, q.qtype, q.qclass)
  }

  // Every hit of the run is what a fed cache may serve for the key of the question.
  ghost predicate HitsAreServed(tables: Tables, s: I.State, run: seq<I.Action>)
    requires I.Legal(s, run)
    decreases |run|
  {
    run != [] ==>
      && (run[0].CacheHit? ==> FromResolver(tables, KeyOfQuestion(tables, s.requests[run[0].r].q), run[0].hit))
      && HitsAreServed(tables, I.Effect(s, run[0]), run[1..])
  }

  ghost predicate ServedOk(tables: Tables, req: I.Request) {
    req.pc.Returned? && req.pc.how.FromCache? ==> FromResolver(tables, KeyOfQuestion(tables, req.q), req.pc.how.msg)
  }

  lemma StepKeepsServed(tables: Tables, s: I.State, a: I.Action, r: nat)
    requires I.Enabled(s, a) && r in I.Effect(s, a).requests
    requires a.CacheHit? ==> FromResolver(tables, KeyOfQuestion(tables, s.requests[a.r].q), a.hit)
    requires r in s.requests ==> ServedOk(tables, s.requests[r])
    ensures ServedOk(tables, I.Effect(s, a).requests[r])
  {
  }

  lemma {:induction false} RunKeepsServed(tables: Tables, s: I.State, run: seq<I.Action>, r: nat)
    requires I.Legal(s, run) && HitsAreServed(tables, s, run)
    requires forall k :: k in s.requests ==> ServedOk(tables, s.requests[k])
    requires r in I.After(s, run).requests
    ensures ServedOk(tables, I.After(s, run).requests[r])
    decreases |run|
  {
    if run != [] {
      var t := I.Effect(s, run[0]);
      forall k | k in t.requests
        ensures ServedOk(tables, t.requests[k])
      {
        StepKeepsServed(tables, s, run[0], k);
      }
      RunKeepsServed(tables, t, run[1..], r);
    }
  }

  // The message a request has returned, if any.
  function MessageOf(pc: I.PC): Option<Msg> {
    if !pc.Returned? then None
    else match pc.how
      case FromCache(msg) => Some(msg)
      case Joined(_, res) => if I.IsAnswer(res) then res.msg else None
      case Led(_, res) => if I.IsAnswer(res) then res.msg else None
      case GaveUp => None
  }

  // Every message any request returns, from the cache, from another request's resolution or
  // from its own, is a clean one for a question of its key.
  lemma EveryAnswerIsClean(cfg: Config, roots: seq<string>, tables: Tables, run: seq<I.Action>, r: nat)
    requires I.Legal(I.EMPTY, run) && LeadersResolve(cfg, roots, I.EMPTY, run) && HitsAreServed(tables, I.EMPTY, run)
    requires r in I.After(I.EMPTY, run).requests && MessageOf(I.After(I.EMPTY, run).requests[r].pc).Some?
    ensures var req := I.After(I.EMPTY, run).requests[r];
            FromResolver(tables, KeyOfQuestion(tables, req.q), MessageOf(req.pc).value)
  {
    var req := I.After(I.EMPTY, run).requests[r];
    match req.pc.how
    case FromCache(_) => RunKeepsServed(tables, I.EMPTY, run, r);
    case Joined(_, _) => JoinersReturnClean(cfg, roots, run, r);
    case Led(_, _) => LeadersReturnClean(cfg, roots, run, r);
    case GaveUp =>
  }
}
