// The cache of internal/cache/cache.go as an object.  `run` records the actions it takes, and
// the run is a legal one of CacheSteps.
module Cache {
  import opened Options
  import opened Arithmetic
  import opened Dns
  import opened CacheSteps
  import opened CacheLaws
  import opened Snapshots

  class Entry {
    const stored: Stored
    var hitCount: nat

    constructor (stored: Stored)
      ensures this.stored == stored && hitCount == 0
    {
      this.stored, hitCount := stored, 0;
    }
  }

  function Table(entries: map<string, Entry>): map<string, Stored> {
    map k | k in entries :: entries[k].stored
  }

  // The reply a hit gives.
  ghost predicate IsReply(cfg: Config, e: Stored, at: int, reply: Option<Msg>) {
    reply == Some(Refreshed(e.msg, ServedTtl(cfg, e, at)))
  }

  // What Set does to the table between two clock readings.
  ghost predicate SetsBetween(cfg: Config, table: map<string, Stored>, e: Stored, gone: set<string>, from: int, to: int)
  {
    && from <= to && MadeBetween(cfg, e, from, to)
    && if |table| >= cfg.maxSize then MakesRoom(table, gone, from, to) else gone == {}
  }

  lemma RoomThenEntry(cfg: Config, table: map<string, Stored>, e: Stored, gone: set<string>, from: int, at: int,
                      to: int)
    requires from <= at <= to && MadeBetween(cfg, e, at, to)
    requires if |table| >= cfg.maxSize then MakesRoom(table, gone, from, at) else gone == {}
    ensures SetsBetween(cfg, table, e, gone, from, to)
  {
  }

  // ---------- The object follows the run ----------

  // The fields of the object.
  datatype View = View(entries: map<string, Entry>, clock: int, hits: nat, misses: nat, evictions: nat)

  // The object stands at the end of a legal run.
  ghost predicate Mirrors(cfg: Config, run: Run, v: View) {
    && Legal(cfg, run)
    && Table(v.entries) == After(run).table && After(run).clock <= v.clock
    && v.hits == After(run).hits && v.misses == After(run).misses && v.evictions == After(run).evictions
    && "" !in v.entries
    && forall j, k :: j in v.entries && k in v.entries && v.entries[j] == v.entries[k] ==> j == k
  }

  // A getter of the run has got this far with an entry, and has not read the clock since.
  ghost predicate Holds(run: Run, clock: int, i: nat, key: string, e: Stored) {
    At(After(run), i).Holding? && At(After(run), i).key == key && At(After(run), i).entry == e
    && At(After(run), i).since <= clock
  }

  ghost predicate FoundDoomed(run: Run, clock: int, i: nat, key: string) {
    At(After(run), i).Doomed? && At(After(run), i).key == key && At(After(run), i).since <= clock
  }

  ghost predicate FoundLive(run: Run, clock: int, i: nat, key: string, e: Stored) {
    At(After(run), i).Live? && At(After(run), i).key == key && At(After(run), i).entry == e
    && At(After(run), i).since <= clock
  }

  lemma ReadMirrors(cfg: Config, run: Run, v: View, i: nat, key: string)
    requires Mirrors(cfg, run, v) && At(After(run), i).Idle?
    ensures var r := Then(run, Read(i, key));
            if key in v.entries then Mirrors(cfg, r, v) && Holds(r, v.clock, i, key, v.entries[key].stored)
            else Mirrors(cfg, r, v.(misses := v.misses + 1)) && At(After(r), i).Idle?
  {
    assert key in v.entries <==> key in Table(v.entries);
  }

  lemma TestMirrors(cfg: Config, run: Run, v: View, i: nat, key: string, e: Stored, now: int)
    requires Mirrors(cfg, run, v) && Holds(run, v.clock, i, key, e) && v.clock <= now
    ensures var r := Then(run, Test(i, now));
            && Mirrors(cfg, r, v.(clock := now))
            && if Expired(e, now) then FoundDoomed(r, now, i, key) else FoundLive(r, now, i, key, e)
  {
  }

  lemma EarlierStart(table: map<string, Stored>, gone: set<string>, from: int, start: int, to: int)
    requires start <= from
    ensures Purges(table, gone, from, to) ==> Purges(table, gone, start, to)
    ensures MakesRoom(table, gone, from, to) ==> MakesRoom(table, gone, start, to)
  {
  }

  lemma TableWithout(entries: map<string, Entry>, gone: set<string>)
    ensures Table(entries - gone) == Table(entries) - gone
  {
    var t, u := Table(entries - gone), Table(entries) - gone;
    assert t.Keys == u.Keys;
    assert forall k :: k in t ==> t[k] == u[k];
  }

  lemma DeleteIsLegal(cfg: Config, run: Run, i: nat, key: string, clock: int, now: int)
    requires Legal(cfg, run) && FoundDoomed(run, clock, i, key) && After(run).clock <= clock <= now
    ensures var r := Then(run, Delete(i, now));
            && Legal(cfg, r) && At(After(r), i).Idle?
            && After(r).table == After(run).table - {key} && After(r).clock == now
            && After(r).hits == After(run).hits && After(r).misses == After(run).misses + 1
            && After(r).evictions == After(run).evictions
  {
  }

  lemma DeleteMirrors(cfg: Config, run: Run, v: View, i: nat, key: string, now: int)
    requires Mirrors(cfg, run, v) && FoundDoomed(run, v.clock, i, key) && v.clock <= now
    ensures var r := Then(run, Delete(i, now));
            && Mirrors(cfg, r, v.(entries := v.entries - {key}, clock := now, misses := v.misses + 1))
            && At(After(r), i).Idle?
  {
    DeleteIsLegal(cfg, run, i, key, v.clock, now);
    TableWithout(v.entries, {key});
  }

  lemma HitMirrors(cfg: Config, run: Run, v: View, i: nat, key: string, e: Stored, at: int, later: int)
    requires Mirrors(cfg, run, v) && FoundLive(run, v.clock, i, key, e) && v.clock <= at <= later
    ensures var r := Then(run, Hit(i, at, later));
            Mirrors(cfg, r, v.(clock := later, hits := v.hits + 1)) && At(After(r), i).Idle?
  {
  }

  lemma TableWith(entries: map<string, Entry>, key: string, entry: Entry)
    ensures Table(entries[key := entry]) == Table(entries)[key := entry.stored]
  {
  }

  lemma StaysDistinct(entries: map<string, Entry>, gone: set<string>, key: string, entry: Entry)
    requires forall j, k :: j in entries && k in entries && entries[j] == entries[k] ==> j == k
    requires entry !in entries.Values
    ensures var after := (entries - gone)[key := entry];
            forall j, k :: j in after && k in after && after[j] == after[k] ==> j == k
  {
  }

  lemma SetIsLegal(cfg: Config, run: Run, key: string, e: Stored, gone: set<string>, clock: int, now: int)
    requires Legal(cfg, run) && After(run).clock <= clock
    requires SetsBetween(cfg, After(run).table, e, gone, clock, now)
    ensures var r := Then(run, Set(key, e, gone, now));
            && Legal(cfg, r)
            && After(r).table == (After(run).table - gone)[key := e] && After(r).clock == now
            && After(r).hits == After(run).hits && After(r).misses == After(run).misses
            && After(r).evictions == After(run).evictions + |gone|
  {
    EarlierStart(After(run).table, gone, clock, After(run).clock, now);
  }

  lemma SetMirrors(cfg: Config, run: Run, v: View, key: string, entry: Entry, gone: set<string>, now: int)
    requires Mirrors(cfg, run, v)
    requires key != "" && entry !in v.entries.Values
    requires SetsBetween(cfg, Table(v.entries), entry.stored, gone, v.clock, now)
    ensures Mirrors(cfg, Then(run, Set(key, entry.stored, gone, now)),
                    v.(entries := (v.entries - gone)[key := entry], clock := now, evictions := v.evictions + |gone|))
    ensures Table((v.entries - gone)[key := entry]) == (Table(v.entries) - gone)[key := entry.stored]
  {
    SetIsLegal(cfg, run, key, entry.stored, gone, v.clock, now);
    TableWithout(v.entries, gone);
    TableWith(v.entries - gone, key, entry);
    StaysDistinct(v.entries, gone, key, entry);
  }

  lemma CleanIsLegal(cfg: Config, run: Run, gone: set<string>, clock: int, now: int)
    requires Legal(cfg, run) && After(run).clock <= clock <= now && Purges(After(run).table, gone, clock, now)
    ensures var r := Then(run, Clean(gone, now));
            && Legal(cfg, r)
            && After(r).table == After(run).table - gone && After(r).clock == now
            && After(r).hits == After(run).hits && After(r).misses == After(run).misses
            && After(r).evictions == After(run).evictions + |gone|
  {
    EarlierStart(After(run).table, gone, clock, After(run).clock, now);
  }

  lemma CleanMirrors(cfg: Config, run: Run, v: View, gone: set<string>, now: int)
    requires Mirrors(cfg, run, v)
    requires v.clock <= now && Purges(Table(v.entries), gone, v.clock, now)
    ensures Mirrors(cfg, Then(run, Clean(gone, now)),
                    v.(entries := v.entries - gone, clock := now, evictions := v.evictions + |gone|))
  {
    CleanIsLegal(cfg, run, gone, v.clock, now);
    TableWithout(v.entries, gone);
  }

  lemma SameSize(cfg: Config, run: Run, v: View)
    requires Mirrors(cfg, run, v)
    ensures |Table(v.entries)| == |v.entries| <= Limit(cfg)
  {
    RunConserves(cfg, run);
    assert Table(v.entries).Keys == v.entries.Keys;
  }

  lemma NothingGone(entries: map<string, Entry>)
    ensures entries - {} == entries
  {
  }

  // ---------- A pass over the table ----------

  // A pass that still has some keys to look at has deleted some of the others.
  ghost predicate Sweeping(was: map<string, Entry>, entries: map<string, Entry>, todo: set<string>, gone: set<string>,
                           from: int, to: int)
  {
    && from <= to
    && todo <= was.Keys && gone <= was.Keys && todo !! gone && entries == was - gone
    && (forall k :: k in gone ==> Expired(was[k].stored, to))
    && forall k :: k in was && k !in todo && k !in gone ==> !Expired(was[k].stored, from)
  }

  lemma SweepStarts(was: map<string, Entry>, now: int)
    ensures Sweeping(was, was, was.Keys, {}, now, now)
  {
    assert was - {} == was;
  }

  lemma SweepLooksAt(was: map<string, Entry>, entries: map<string, Entry>, todo: set<string>, gone: set<string>,
                     key: string, from: int, to: int)
    requires Sweeping(was, entries, todo, gone, from, to) && key in todo
    ensures key in was && key !in gone && key in entries && entries[key] == was[key]
  {
  }

  lemma SweepsAway(was: map<string, Entry>, entries: map<string, Entry>, todo: set<string>, gone: set<string>,
                   key: string, from: int, at: int, to: int)
    requires Sweeping(was, entries, todo, gone, from, at) && at <= to && key in todo
    ensures Expired(was[key].stored, to) ==> Sweeping(was, entries - {key}, todo - {key}, gone + {key}, from, to)
    ensures |gone + {key}| == |gone| + 1
  {
    assert was - gone - {key} == was - (gone + {key});
  }

  lemma SweepsPast(was: map<string, Entry>, entries: map<string, Entry>, todo: set<string>, gone: set<string>,
                   key: string, from: int, at: int, to: int)
    requires Sweeping(was, entries, todo, gone, from, at) && at <= to && key in todo
    ensures !Expired(was[key].stored, to) ==> Sweeping(was, entries, todo - {key}, gone, from, to)
  {
  }

  // When nothing is left to look at the pass has purged the table.
  lemma SweepEnds(was: map<string, Entry>, entries: map<string, Entry>, gone: set<string>, from: int, to: int)
    requires Sweeping(was, entries, {}, gone, from, to)
    ensures Purges(Table(was), gone, from, to) && entries == was - gone && from <= to
    ensures |entries| == |was| - |gone| && (gone == {} ==> entries == was)
    ensures (forall k :: k in was ==> k in gone) ==> gone == {} ==> Table(was) == map[]
  {
    assert entries.Keys == was.Keys - gone;
    assert gone == {} ==> was - gone == was;
  }

  // The oldest of the entries a pass has looked at and kept, if it has kept any.
  ghost predicate OldestSoFar(was: map<string, Entry>, todo: set<string>, gone: set<string>, first: bool, key: string,
                              time: int)
  {
    if first then key == "" && forall k :: k in was ==> k in todo || k in gone
    else
      && key in was && key !in todo && key !in gone && was[key].stored.createdAt == time
      && forall k :: k in was && k !in todo && k !in gone ==> time <= was[k].stored.createdAt
  }

  lemma KeepsOldest(was: map<string, Entry>, todo: set<string>, gone: set<string>, first: bool, oldest: string,
                    time: int, key: string)
    requires OldestSoFar(was, todo, gone, first, oldest, time) && key in todo && key in was && key !in gone
    ensures OldestSoFar(was, todo - {key}, gone + {key}, first, oldest, time)
    ensures var created := was[key].stored.createdAt;
            if first || created < time then OldestSoFar(was, todo - {key}, gone, false, key, created)
            else OldestSoFar(was, todo - {key}, gone, first, oldest, time)
  {
  }

  lemma NoneOrOldest(was: map<string, Entry>, gone: set<string>, first: bool, key: string, time: int)
    requires OldestSoFar(was, {}, gone, first, key, time) && "" !in was
    ensures key == "" ==> first && forall k :: k in was ==> k in gone
    ensures key != "" && gone == {} ==> IsOldest(Table(was), key)
  {
  }

  // At the end of a pass over a full cache: something was purged, or the oldest entry goes.
  lemma RoomIsEnough(cfg: Config, was: map<string, Entry>, entries: map<string, Entry>, gone: set<string>,
                     first: bool, key: string, time: int, from: int, to: int)
    requires Sweeping(was, entries, {}, gone, from, to) && OldestSoFar(was, {}, gone, first, key, time)
    requires "" !in was && cfg.maxSize <= |was| <= Limit(cfg)
    ensures entries == was - gone && from <= to
    ensures if key != "" && |entries| >= cfg.maxSize then
              gone == {} && entries == was && MakesRoom(Table(was), {key}, from, to)
            else MakesRoom(Table(was), gone, from, to)
  {
    SweepEnds(was, entries, gone, from, to);
    NoneOrOldest(was, gone, first, key, time);
  }

  // ---------- Candidates for a refresh ----------

  // The entry is popular, due for a refresh at one time, and not expired at another.
  predicate Candidate(
    table: map<string, Stored>, ratio: real, popular: set<string>, key: string, due: int, alive: int
  ) {
    && key in table && key in popular && table[key].msg.question != []
    && ShouldPrefetch(table[key], ratio, due) && !Expired(table[key], alive)
  }

  // Each question listed is that of a candidate, no entry is listed twice, and every candidate
  // among the keys is listed.
  ghost predicate Lists(table: map<string, Stored>, ratio: real, popular: set<string>, keys: set<string>,
                        from: int, to: int, order: seq<string>, qs: seq<Question>)
  {
    && |order| == |qs| && Distinct(order)
    && (forall i :: 0 <= i < |order| ==>
          && order[i] in keys && Candidate(table, ratio, popular, order[i], to, from)
          && qs[i] == table[order[i]].msg.question[0])
    && forall k :: k in keys && Candidate(table, ratio, popular, k, from, to) ==> k in order
  }

  // The verdict on one key.
  ghost predicate Asks(table: map<string, Stored>, ratio: real, popular: set<string>, key: string,
                       from: int, to: int, asked: Option<Question>)
  {
    if asked.Some? then Candidate(table, ratio, popular, key, to, from) && asked.value == table[key].msg.question[0]
    else !Candidate(table, ratio, popular, key, from, to)
  }

  lemma DueNotYet(e: Stored, ratio: real, from: int, to: int)
    requires from <= to
    ensures ShouldPrefetch(e, ratio, from) ==> ShouldPrefetch(e, ratio, to)
  {
  }

  lemma CandidatesStay(table: map<string, Stored>, ratio: real, popular: set<string>, key: string,
                       due: int, alive: int, due2: int, alive2: int)
    requires Candidate(table, ratio, popular, key, due, alive) && due <= due2 && alive2 <= alive
    ensures Candidate(table, ratio, popular, key, due2, alive2)
  {
    DueNotYet(table[key], ratio, due, due2);
  }

  lemma ListsOneMore(table: map<string, Stored>, ratio: real, popular: set<string>, keys: set<string>,
                     from: int, at: int, to: int, order: seq<string>, qs: seq<Question>,
                     key: string, asked: Option<Question>)
    requires from <= at <= to && Lists(table, ratio, popular, keys, from, at, order, qs)
    requires key !in keys && Asks(table, ratio, popular, key, at, to, asked)
    ensures if asked.Some? then Lists(table, ratio, popular, keys + {key}, from, to, order + [key], qs + [asked.value])
            else Lists(table, ratio, popular, keys + {key}, from, to, order, qs)
  {
    forall i | 0 <= i < |order|
      ensures Candidate(table, ratio, popular, order[i], to, from)
    {
      CandidatesStay(table, ratio, popular, order[i], at, from, to, from);
    }
    if asked.Some? {
      CandidatesStay(table, ratio, popular, key, to, at, to, from);
    }
    forall k | k in keys + {key} && Candidate(table, ratio, popular, k, from, to)
      ensures k in order || (k == key && asked.Some?)
    {
      if k in keys {
        CandidatesStay(table, ratio, popular, k, from, to, from, at);
      } else {
        CandidatesStay(table, ratio, popular, k, from, to, at, to);
      }
    }
  }

  // What is listed is the question of a popular entry, listed for the first time, that had not
  // expired at the start and was due for a refresh by the end...
  lemma ListedAreDue(table: map<string, Stored>, ratio: real, popular: set<string>, keys: set<string>,
                     from: int, to: int, order: seq<string>, qs: seq<Question>, i: nat)
    requires Lists(table, ratio, popular, keys, from, to, order, qs) && i < |qs|
    ensures |order| == |qs| && order[i] in table && order[i] in popular && order[i] !in order[..i]
    ensures var e := table[order[i]];
      && e.msg.question != [] && qs[i] == e.msg.question[0]
      && from <= e.expiresAt && ShouldPrefetch(e, ratio, to)
  {
  }

  // ...and every popular entry that is due at the start and has not expired by the end is listed.
  lemma DueAreListed(table: map<string, Stored>, ratio: real, popular: set<string>, keys: set<string>,
                     from: int, to: int, order: seq<string>, qs: seq<Question>, k: string)
    requires Lists(table, ratio, popular, keys, from, to, order, qs) && k in keys
    requires k in table && k in popular && table[k].msg.question != []
    requires ShouldPrefetch(table[k], ratio, from) && to <= table[k].expiresAt
    ensures exists i :: 0 <= i < |order| && order[i] == k && |qs| == |order| && qs[i] == table[k].msg.question[0]
  {
    assert k in order;
    var i :| 0 <= i < |order| && order[i] == k;
    assert qs[i] == table[order[i]].msg.question[0];
  }

  // ---------- The object ----------

  class Cache {
    const cfg: Config
    var entries: map<string, Entry>
    var clock: int
    var hits: nat
    var misses: nat
    var evictions: nat
    ghost var run: Run

    ghost function Fields(): View
      reads this
    {
      View(entries, clock, hits, misses, evictions)
    }

    ghost predicate Valid()
      reads this
    {
      Mirrors(cfg, run, Fields())
    }

    constructor (cfg: Config, clock: int)
      ensures Valid() && this.cfg == cfg && run == Start(clock) && entries == map[]
    {
      this.cfg, this.clock := cfg, clock;
      entries, hits, misses, evictions := map[], 0, 0, 0;
      run := Start(clock);
    }

    // The wall clock moves on as it likes.
    method Now() returns (now: int)
      modifies this`clock
      ensures old(clock) <= clock == now
    {
      var passed: int := *;
      if passed > 0 {
        clock := clock + passed;
      }
      now := clock;
    }

    // ---------- Get ----------

    // The read under the read lock; a miss is counted at once.
    method ReadEntry(key: string, ghost i: nat) returns (entry: Entry?)
      requires Valid() && At(After(run), i).Idle?
      modifies this`misses, this`run
      ensures Valid() && run == Then(old(run), Read(i, key))
      ensures if key in entries then entry == entries[key] && Holds(run, clock, i, key, entry.stored)
              else entry == null && At(After(run), i).Idle?
    {
      entry := null;
      ReadMirrors(cfg, run, Fields(), i, key);
      run := Then(run, Read(i, key));
      if key in entries {
        entry := entries[key];
      } else {
        misses := misses + 1;
      }
    }

    // The expiry test, without the lock.
    method TestExpiry(key: string, entry: Entry, ghost i: nat) returns (expired: bool)
      requires Valid() && Holds(run, clock, i, key, entry.stored)
      modifies this`clock, this`run
      ensures Valid() && run == Then(old(run), Test(i, clock))
      ensures expired == Expired(entry.stored, clock)
      ensures if expired then FoundDoomed(run, clock, i, key) else FoundLive(run, clock, i, key, entry.stored)
    {
      var now := Now();
      expired := now > entry.stored.expiresAt;
      TestMirrors(cfg, run, old(Fields()), i, key, entry.stored, now);
      run := Then(run, Test(i, now));
    }

    // The delete of whatever is there once the lock has been taken, at some later time.
    method DeleteExpired(key: string, ghost i: nat)
      requires Valid() && FoundDoomed(run, clock, i, key)
      modifies this`entries, this`clock, this`misses, this`run
      ensures Valid() && run == Then(old(run), Delete(i, clock)) && At(After(run), i).Idle?
      ensures entries == old(entries) - {key} && old(clock) <= clock
    {
      var now := Now();
      DeleteMirrors(cfg, run, old(Fields()), i, key, now);
      entries := entries - {key};
      misses := misses + 1;
      run := Then(run, Delete(i, now));
    }

    method RemainingSeconds(e: Stored) returns (seconds: u32)
      modifies this`clock
      ensures old(clock) <= clock
      ensures seconds == if Max(e.expiresAt - clock, 0) / SECOND < U32_SIZE then Max(e.expiresAt - clock, 0) / SECOND
                         else cfg.wide(Max(e.expiresAt - clock, 0) / SECOND)
    {
      var now := Now();
      var remaining := e.expiresAt - now;
      if remaining < 0 {
        remaining := 0;
      }
      seconds := if remaining / SECOND < U32_SIZE then remaining / SECOND else cfg.wide(remaining / SECOND);
    }

    method SetTtls(rrs: seq<RR>, ttl: u32) returns (out: seq<RR>)
      ensures out == AllWithTtl(rrs, ttl)
    {
      out := [];
      for i := 0 to |rrs|
        invariant out == AllWithTtl(rrs, ttl)[..i]
      {
        out := out + [WithTtl(rrs[i], ttl)];
      }
    }

    method Refresh(msg: Msg, ttl: u32) returns (out: Msg)
      ensures out == Refreshed(msg, ttl)
    {
      var answer := SetTtls(msg.answer, ttl);
      var ns := SetTtls(msg.ns, ttl);
      var extra: seq<RR> := [];
      for i := 0 to |msg.extra|
        invariant extra == ExtraWithTtl(msg.extra, ttl)[..i]
      {
        if msg.extra[i].hdr.rrtype != TYPE_OPT {
          extra := extra + [WithTtl(msg.extra[i], ttl)];
        } else {
          extra := extra + [msg.extra[i]];
        }
      }
      out := msg.(answer := answer, ns := ns, extra := extra);
    }

    method DueForPrefetch(e: Stored) returns (due: bool)
      modifies this`clock
      ensures old(clock) <= clock
      ensures due == ShouldPrefetch(e, cfg.prefetchRatio, clock)
    {
      var now := Now();
      var elapsed := now - e.createdAt;
      due := elapsed > Trunc(e.ttl as real * (1.0 - cfg.prefetchRatio));
    }

    // The copy of the message with its TTLs adjusted, and the prefetch flag; without the lock.
    method Reply(e: Stored) returns (reply: Msg, prefetch: bool, ghost at: int, ghost later: int)
      modifies this`clock
      ensures old(clock) <= at <= later == clock
      ensures IsReply(cfg, e, at, Some(reply)) && prefetch == ShouldPrefetch(e, cfg.prefetchRatio, later)
    {
      var remaining := RemainingSeconds(e);
      at := clock;
      if remaining == 0 {
        remaining := 1;
      }
      reply := Refresh(e.msg, remaining);
      prefetch := DueForPrefetch(e);
      later := clock;
    }

    // A hit: the entry is an object of its own, whether or not it is still in the table.
    method CountHit(key: string, entry: Entry, ghost i: nat)
      returns (reply: Msg, prefetch: bool, ghost at: int, ghost later: int)
      requires Valid() && FoundLive(run, clock, i, key, entry.stored)
      modifies this`clock, this`hits, this`run, entry
      ensures Valid() && run == Then(old(run), Hit(i, at, later)) && At(After(run), i).Idle?
      ensures entry.hitCount == old(entry.hitCount) + 1
      ensures IsReply(cfg, entry.stored, at, Some(reply))
      ensures prefetch == ShouldPrefetch(entry.stored, cfg.prefetchRatio, later)
    {
      entry.hitCount := entry.hitCount + 1;
      hits := hits + 1;
      reply, prefetch, at, later := Reply(entry.stored);
      HitMirrors(cfg, run, old(Fields()), i, key, entry.stored, at, later);
      run := Then(run, Hit(i, at, later));
    }

    method Get(name: string, qtype: u16, qclass: u16, ghost i: nat)
      returns (msg: Option<Msg>, found: bool, prefetch: bool, ghost tested: int, ghost at: int, ghost later: int)
      requires Valid() && At(After(run), i).Idle?
      modifies this, entries.Values
      ensures Valid() && At(After(run), i).Idle?
      ensures found == msg.Some? && (!found ==> !prefetch)
      ensures hits == old(hits) + (if found then 1 else 0) && misses == old(misses) + if found then 0 else 1
      ensures
        var key := CacheKey(cfg.tables, name, qtype, qclass);
        var reading := Then(old(run), Read(i, key));
        if key !in old(entries) then !found && run == reading && entries == old(entries)
        else
          var e := old(entries)[key].stored;
          var testing := Then(reading, Test(i, tested));
          if Expired(e, tested) then !found && run == Then(testing, Delete(i, clock)) && entries == old(entries) - {key}
          else
            && run == Then(testing, Hit(i, at, later)) && entries == old(entries)
            && IsReply(cfg, e, at, msg) && prefetch == ShouldPrefetch(e, cfg.prefetchRatio, later)
            && entries[key].hitCount == old(entries[key].hitCount) + 1
            && forall k :: k in entries && k != key ==> entries[k].hitCount == old(entries[k].hitCount)
    {
      msg, found, prefetch := None, false, false;
      tested, at, later := 0, 0, 0;
      var key := CacheKey(cfg.tables, name, qtype, qclass);
      var entry := ReadEntry(key, i);
      if entry == null {
        return;
      }
      var expired := TestExpiry(key, entry, i);
      tested := clock;
      if expired {
        DeleteExpired(key, i);
        return;
      }
      var reply;
      reply, prefetch, at, later := CountHit(key, entry, i);
      msg, found := Some(reply), true;
    }

    // ---------- Eviction ----------

    // One entry of a pass over the table.
    method DropIfExpired(
      ghost was: map<string, Entry>, ghost left: set<string>, ghost gone: set<string>, key: string, ghost from: int
    )
      returns (expired: bool, ghost more: set<string>)
      requires Sweeping(was, entries, left, gone, from, clock) && key in left && key in entries
      modifies this`entries, this`clock, this`evictions
      ensures Sweeping(was, entries, left - {key}, more, from, clock)
      ensures more == if expired then gone + {key} else gone
      ensures |more| - |gone| == evictions - old(evictions)
    {
      var entry := entries[key];
      var now := Now();
      expired, more := now > entry.stored.expiresAt, gone;
      SweepsAway(was, entries, left, gone, key, from, old(clock), now);
      SweepsPast(was, entries, left, gone, key, from, old(clock), now);
      if expired {
        entries := entries - {key};
        evictions := evictions + 1;
        more := gone + {key};
      }
    }

    method EvictOldest() returns (ghost gone: set<string>)
      requires cfg.maxSize <= |entries| <= Limit(cfg) && "" !in entries
      modifies this`entries, this`clock, this`evictions
      ensures old(clock) <= clock
      ensures entries == old(entries) - gone && evictions == old(evictions) + |gone|
      ensures MakesRoom(Table(old(entries)), gone, old(clock), clock)
    {
      ghost var was := entries;
      var oldestKey, oldestTime, first := "", 0, true;
      gone := {};
      var todo := entries.Keys;
      SweepStarts(was, clock);
      while todo != {}
        invariant Sweeping(was, entries, todo, gone, old(clock), clock)
        invariant evictions == old(evictions) + |gone|
        invariant OldestSoFar(was, todo, gone, first, oldestKey, oldestTime)
      {
        ghost var left := todo;
        var key :| key in todo;
        todo := todo - {key};
        SweepLooksAt(was, entries, left, gone, key, old(clock), clock);
        var created := entries[key].stored.createdAt;
        KeepsOldest(was, left, gone, first, oldestKey, oldestTime, key);
        var expired;
        expired, gone := DropIfExpired(was, left, gone, key, old(clock));
        if !expired {
          if first || created < oldestTime {
            oldestKey, oldestTime, first := key, created, false;
          }
        }
      }
      RoomIsEnough(cfg, was, entries, gone, first, oldestKey, oldestTime, old(clock), clock);
      if oldestKey != "" && |entries| >= cfg.maxSize {
        entries := entries - {oldestKey};
        evictions := evictions + 1;
        gone := {oldestKey};
      }
    }

    method Sweep() returns (ghost gone: set<string>)
      modifies this`entries, this`clock, this`evictions
      ensures old(clock) <= clock
      ensures entries == old(entries) - gone && evictions == old(evictions) + |gone|
      ensures Purges(Table(old(entries)), gone, old(clock), clock)
    {
      ghost var was := entries;
      gone := {};
      var todo := entries.Keys;
      SweepStarts(was, clock);
      while todo != {}
        invariant Sweeping(was, entries, todo, gone, old(clock), clock)
        invariant evictions == old(evictions) + |gone|
      {
        ghost var left := todo;
        var key :| key in todo;
        todo := todo - {key};
        SweepLooksAt(was, entries, left, gone, key, old(clock), clock);
        var expired;
        expired, gone := DropIfExpired(was, left, gone, key, old(clock));
      }
      SweepEnds(was, entries, gone, old(clock), clock);
    }

    method Cleanup() returns (ghost gone: set<string>)
      requires Valid()
      modifies this
      ensures Valid() && run == Then(old(run), Clean(gone, clock))
      ensures entries == old(entries) - gone && Purges(Table(old(entries)), gone, old(clock), clock)
    {
      gone := Sweep();
      CleanMirrors(cfg, run, old(Fields()), gone, clock);
      run := Then(run, Clean(gone, clock));
    }

    // ---------- Set ----------

    method ExtractTTL(msg: Msg) returns (ttl: int)
      ensures ttl == MessageTtl(msg)
    {
      var least: u32 := 3600;
      for i := 0 to |msg.answer|
        invariant least == LeastTtl(msg.answer[..i], 3600)
      {
        assert msg.answer[..i + 1][..i] == msg.answer[..i];
        if msg.answer[i].hdr.ttl < least {
          least := msg.answer[i].hdr.ttl;
        }
      }
      assert msg.answer[..|msg.answer|] == msg.answer;
      ghost var inAnswer := least;
      for i := 0 to |msg.ns|
        invariant least == LeastTtl(msg.ns[..i], inAnswer)
      {
        assert msg.ns[..i + 1][..i] == msg.ns[..i];
        if msg.ns[i].hdr.ttl < least {
          least := msg.ns[i].hdr.ttl;
        }
      }
      assert msg.ns[..|msg.ns|] == msg.ns;
      if least == 0 {
        least := 30;
      }
      ttl := least * SECOND;
    }

    method EvictIfFull() returns (ghost gone: set<string>)
      requires |entries| <= Limit(cfg) && "" !in entries
      modifies this`entries, this`clock, this`evictions
      ensures old(clock) <= clock
      ensures entries == old(entries) - gone && evictions == old(evictions) + |gone|
      ensures if |old(entries)| < cfg.maxSize then gone == {}
              else MakesRoom(Table(old(entries)), gone, old(clock), clock)
    {
      gone := {};
      NothingGone(entries);
      if |entries| >= cfg.maxSize {
        gone := EvictOldest();
      }
    }

    method MakeEntry(msg: Msg, ttl: int, negative: bool) returns (entry: Entry)
      requires ttl == StoredTtl(cfg, msg) && negative == IsNegative(msg)
      modifies this`clock
      ensures fresh(entry) && entry.stored.msg == msg && MadeBetween(cfg, entry.stored, old(clock), clock)
    {
      var createdAt := Now();
      var now := Now();
      entry := new Entry(Stored(msg, createdAt, now + ttl, ttl, negative));
    }

    // The part of Set under the lock.
    method Insert(key: string, msg: Msg, ttl: int, negative: bool) returns (ghost gone: set<string>, ghost e: Stored)
      requires Valid() && key != "" && ttl == StoredTtl(cfg, msg) && negative == IsNegative(msg)
      modifies this
      ensures Valid()
      ensures run == CacheSteps.Then(old(run), CacheSteps.Set(key, e, gone, clock)) && e.msg == msg
      ensures Table(entries) == (Table(old(entries)) - gone)[key := e] && evictions == old(evictions) + |gone|
      ensures SetsBetween(cfg, Table(old(entries)), e, gone, old(clock), clock)
    {
      SameSize(cfg, run, Fields());
      gone := EvictIfFull();
      ghost var evicted := clock;
      var entry := MakeEntry(msg, ttl, negative);
      e := entry.stored;
      RoomThenEntry(cfg, Table(old(entries)), e, gone, old(clock), evicted, clock);
      SetMirrors(cfg, run, old(Fields()), key, entry, gone, clock);
      entries := entries[key := entry];
      run := CacheSteps.Then(run, CacheSteps.Set(key, e, gone, clock));
    }

    method Set(name: string, qtype: u16, qclass: u16, message: Option<Msg>)
      returns (ghost gone: set<string>, ghost e: Stored)
      requires Valid()
      modifies this
      ensures Valid()
      ensures message.None? ==> run == old(run) && entries == old(entries)
      ensures message.Some? ==>
        var key := CacheKey(cfg.tables, name, qtype, qclass);
        && run == CacheSteps.Then(old(run), CacheSteps.Set(key, e, gone, clock)) && e.msg == message.value
        && Table(entries) == (Table(old(entries)) - gone)[key := e] && evictions == old(evictions) + |gone|
        && SetsBetween(cfg, Table(old(entries)), e, gone, old(clock), clock)
    {
      gone := {};
      if message.None? {
        e := *;
        return;
      }
      var msg := message.value;
      var ttl := ExtractTTL(msg);
      if ttl < cfg.minTTL {
        ttl := cfg.minTTL;
      }
      if ttl > cfg.maxTTL {
        ttl := cfg.maxTTL;
      }
      var negative := msg.rcode == RCODE_NAME_ERROR || (msg.rcode == RCODE_SUCCESS && |msg.answer| == 0);
      if negative {
        ttl := cfg.negativeTTL;
      }
      var key := CacheKey(cfg.tables, name, qtype, qclass);
      gone, e := Insert(key, msg, ttl, negative);
    }

    // ---------- Reading the whole table ----------

    // The entries hit more than twice.
    ghost function Popular(): set<string>
      reads this, entries.Values
    {
      set k | k in entries && entries[k].hitCount > 2
    }

    method Due(key: string) returns (asked: Option<Question>)
      requires key in entries
      modifies this`clock
      ensures old(clock) <= clock
      ensures Asks(Table(entries), cfg.prefetchRatio, Popular(), key, old(clock), clock, asked)
    {
      var entry := entries[key];
      var due := DueForPrefetch(entry.stored);
      DueNotYet(entry.stored, cfg.prefetchRatio, old(clock), clock);
      var now := Now();
      DueNotYet(entry.stored, cfg.prefetchRatio, clock, now);
      if due && !(now > entry.stored.expiresAt) && entry.hitCount > 2 {
        if |entry.stored.msg.question| > 0 {
          return Some(entry.stored.msg.question[0]);
        }
      }
      asked := None;
    }

    // The questions of the popular entries that are due for a refresh, each entry once.
    method PrefetchCandidates() returns (candidates: seq<Question>, ghost order: seq<string>)
      requires Valid()
      modifies this`clock
      ensures Valid() && old(clock) <= clock
      ensures forall k :: k in Popular() <==> k in entries && entries[k].hitCount >= 3
      ensures Lists(Table(entries), cfg.prefetchRatio, Popular(), entries.Keys, old(clock), clock, order, candidates)
    {
      ghost var table, popular := Table(entries), Popular();
      candidates, order := [], [];
      var todo := entries.Keys;
      while todo != {}
        invariant old(clock) <= clock && todo <= entries.Keys && popular == Popular()
        invariant Lists(table, cfg.prefetchRatio, popular, entries.Keys - todo, old(clock), clock, order, candidates)
      {
        ghost var left := todo;
        var key :| key in todo;
        todo := todo - {key};
        assert entries.Keys - todo == entries.Keys - left + {key};
        ghost var before := clock;
        var asked := Due(key);
        ListsOneMore(table, cfg.prefetchRatio, popular, entries.Keys - left, old(clock), before, clock,
                     order, candidates, key, asked);
        if asked.Some? {
          candidates, order := candidates + [asked.value], order + [key];
        }
      }
      assert entries.Keys - {} == entries.Keys;
    }

    // The entries to be saved, in the order the table is walked.
    method ExportEntries(codec: Codec) returns (exported: seq<Export>, ghost order: seq<string>)
      requires Valid()
      modifies this`clock
      ensures Valid() && old(clock) <= clock
      ensures Exports(codec, Table(entries), old(clock), clock, order, exported)
    {
      exported, order := [], [];
      var todo := entries.Keys;
      while todo != {}
        invariant todo <= entries.Keys && old(clock) <= clock
        invariant |exported| < EXPORT_LIMIT
        invariant Walked(codec, Table(entries), entries.Keys - todo, old(clock), clock, order, exported)
      {
        var key :| key in todo;
        todo := todo - {key};
        ghost var before := clock;
        var entry := entries[key];
        var now := Now();
        var bytes := codec.pack(entry.stored.msg);
        ghost var seen := entries.Keys - todo;
        assert seen == entries.Keys - (todo + {key}) + {key};
        if now > entry.stored.expiresAt || bytes.None? || |entry.stored.msg.question| == 0 {
          WalkPast(codec, Table(entries), entries.Keys - (todo + {key}), key,
                   old(clock), before, clock, order, exported);
          continue;
        }
        var q := entry.stored.msg.question[0];
        WalkTo(codec, Table(entries), entries.Keys - (todo + {key}), key, old(clock), before, clock, order, exported);
        var e := entry.stored;
        exported := exported + [Export(q.name, q.qtype, q.qclass, bytes.value, e.expiresAt, e.createdAt)];
        order := order + [key];
        if |exported| >= EXPORT_LIMIT {
          break;
        }
      }
    }
  }
}
