// What is saved of a cache and what loading it gives back: the export of
// internal/cache/cache.go and the file of internal/persistence/persistence.go.
module Snapshots {
  import opened Options
  import opened Selections
  import opened Dns
  import opened CacheSteps
  import opened CacheLaws
  import opened RecursionLaws

  const EXPORT_LIMIT: nat := 100_000

  // A message on the wire.
  type Bytes = seq<int>

  // The DNS library's Pack and Unpack.
  datatype Codec = Codec(pack: Msg -> Option<Bytes>, unpack: Bytes -> Option<Msg>)

  ghost predicate Inverse(codec: Codec) {
    forall m :: codec.pack(m).Some? ==> codec.unpack(codec.pack(m).value) == Some(m)
  }

  datatype Export = Export(name: string, qtype: u16, qclass: u16, bytes: Bytes, expiresAt: int, createdAt: int)

  predicate CanExport(codec: Codec, e: Stored) {
    codec.pack(e.msg).Some? && e.msg.question != []
  }

  function ExportOf(codec: Codec, e: Stored): Export
    requires CanExport(codec, e)
  {
    var q := e.msg.question[0];
    Export(q.name, q.qtype, q.qclass, codec.pack(e.msg).value, e.expiresAt, e.createdAt)
  }

  ghost predicate Distinct(keys: seq<string>) {
    forall i, j :: 0 <= i < j < |keys| ==> keys[i] != keys[j]
  }

  // What was exported is there, unexpired at the start.
  ghost predicate Drawn(codec: Codec, table: map<string, Stored>, from: int, order: seq<string>, exported: seq<Export>)
  {
    && |order| == |exported| && Distinct(order)
    && forall i :: 0 <= i < |order| ==>
         && order[i] in table && CanExport(codec, table[order[i]]) && !Expired(table[order[i]], from)
         && exported[i] == ExportOf(codec, table[order[i]])
  }

  // Of the keys seen so far, all were exported that could be and had not expired by the end.
  ghost predicate Walked(codec: Codec, table: map<string, Stored>, seen: set<string>, from: int, to: int,
                         order: seq<string>, exported: seq<Export>) {
    && Drawn(codec, table, from, order, exported)
    && (forall i :: 0 <= i < |order| ==> order[i] in seen)
    && forall k :: k in seen && k in table && CanExport(codec, table[k]) && !Expired(table[k], to) ==> k in order
  }

  // An export between two clock readings: all of the table, or the limit's worth of it.
  ghost predicate Exports(codec: Codec, table: map<string, Stored>, from: int, to: int, order: seq<string>,
                          exported: seq<Export>)
  {
    && Drawn(codec, table, from, order, exported)
    && |exported| <= EXPORT_LIMIT
    && (|exported| < EXPORT_LIMIT ==> Walked(codec, table, table.Keys, from, to, order, exported))
  }

  // What an export says of an entry: the question of its message, the packed message, its times.
  lemma ExportsAreTheEntries(codec: Codec, table: map<string, Stored>, from: int, to: int, order: seq<string>,
                             exported: seq<Export>, i: nat)
    requires Exports(codec, table, from, to, order, exported) && i < |exported|
    ensures |order| == |exported| <= 100_000 && order[i] in table && order[i] !in order[..i]
    ensures var e, x := table[order[i]], exported[i];
      && from <= e.expiresAt && x.expiresAt == e.expiresAt && x.createdAt == e.createdAt
      && Some(x.bytes) == codec.pack(e.msg)
      && e.msg.question != [] && e.msg.question[0] == Question(x.name, x.qtype, x.qclass)
  {
  }

  // Below the limit every entry is exported that has a question, can be packed and is unexpired.
  lemma ExportsAreComplete(codec: Codec, table: map<string, Stored>, from: int, to: int, order: seq<string>,
                           exported: seq<Export>, k: string)
    requires Exports(codec, table, from, to, order, exported) && |exported| < 100_000
    requires k in table && to <= table[k].expiresAt
    requires codec.pack(table[k].msg).Some? && table[k].msg.question != []
    ensures k in order
  {
  }

  lemma WalkPast(codec: Codec, table: map<string, Stored>, seen: set<string>, key: string, from: int, at: int, to: int,
                 order: seq<string>, exported: seq<Export>)
    requires Walked(codec, table, seen, from, at, order, exported) && at <= to
    requires key in table && (Expired(table[key], to) || !CanExport(codec, table[key]))
    ensures Walked(codec, table, seen + {key}, from, to, order, exported)
  {
  }

  lemma WalkTo(codec: Codec, table: map<string, Stored>, seen: set<string>, key: string, from: int, at: int, to: int,
               order: seq<string>, exported: seq<Export>)
    requires Walked(codec, table, seen, from, at, order, exported) && from <= at <= to
    requires key in table && key !in seen && CanExport(codec, table[key]) && !Expired(table[key], to)
    ensures Walked(codec, table, seen + {key}, from, to, order + [key], exported + [ExportOf(codec, table[key])])
  {
  }

  // ---------- The file ----------

  // The entries still alive at a time, in order.
  function KeepLive(es: seq<Export>, now: int): seq<Export> {
    if es == [] then []
    else KeepLive(es[..|es| - 1], now) + if es[|es| - 1].expiresAt > now then [es[|es| - 1]] else []
  }

  lemma {:induction false} KeepLiveExactly(es: seq<Export>, now: int, e: Export)
    ensures e in KeepLive(es, now) <==> e in es && e.expiresAt > now
  {
    if es != [] {
      KeepLiveExactly(es[..|es| - 1], now, e);
      assert es == es[..|es| - 1] + [es[|es| - 1]];
    }
  }

  // The file keeps the entries that expire later than it is written, in the order of the export.
  function LaterThan(now: int): Export -> Option<Export> {
    (e: Export) => if e.expiresAt > now then Some(e) else None
  }

  lemma {:induction false} KeepLiveSelects(es: seq<Export>, now: int)
    ensures Selects(es, KeepLive(es, now), LaterThan(now))
  {
    if es == [] {
      SelectsNone(LaterThan(now));
    } else {
      KeepLiveSelects(es[..|es| - 1], now);
      SelectsNext(es, KeepLive(es[..|es| - 1], now), LaterThan(now));
    }
  }

  function KeyOf(tables: Tables, e: Export): string {
    CacheKey(tables, e.name, e.qtype, e.qclass)
  }

  predicate Restorable(codec: Codec, e: Export, now: int) {
    e.expiresAt > now && codec.unpack(e.bytes).Some?
  }

  // The message loading a file leaves under each key: the last one, if several share a key.
  function Loaded(tables: Tables, codec: Codec, es: seq<Export>, now: int): map<string, Msg> {
    if es == [] then map[]
    else
      var before, e := Loaded(tables, codec, es[..|es| - 1], now), es[|es| - 1];
      if Restorable(codec, e, now) then before[KeyOf(tables, e) := codec.unpack(e.bytes).value] else before
  }

  function RestoredCount(codec: Codec, es: seq<Export>, now: int): nat {
    if es == [] then 0
    else RestoredCount(codec, es[..|es| - 1], now) + if Restorable(codec, es[|es| - 1], now) then 1 else 0
  }

  lemma {:induction false} LoadedComesFromTheFile(tables: Tables, codec: Codec, es: seq<Export>, now: int, key: string)
    returns (e: Export)
    requires key in Loaded(tables, codec, es, now)
    ensures e in es && Restorable(codec, e, now) && KeyOf(tables, e) == key
    ensures Loaded(tables, codec, es, now)[key] == codec.unpack(e.bytes).value
  {
    e := es[|es| - 1];
    if !(Restorable(codec, e, now) && KeyOf(tables, e) == key) {
      e := LoadedComesFromTheFile(tables, codec, es[..|es| - 1], now, key);
    }
  }

  lemma {:induction false} RestorableIsLoaded(tables: Tables, codec: Codec, es: seq<Export>, now: int, e: Export)
    requires e in es && Restorable(codec, e, now)
    ensures KeyOf(tables, e) in Loaded(tables, codec, es, now)
  {
    if e != es[|es| - 1] {
      assert es == es[..|es| - 1] + [es[|es| - 1]];
      RestorableIsLoaded(tables, codec, es[..|es| - 1], now, e);
    }
  }

  // The i-th entry of the file can be restored under the key.
  predicate LeadsTo(tables: Tables, codec: Codec, es: seq<Export>, now: int, key: string, i: int) {
    && 0 <= i < |es| && es[i].expiresAt > now && codec.unpack(es[i].bytes).Some?
    && CacheKey(tables, es[i].name, es[i].qtype, es[i].qclass) == key
  }

  lemma LeadsToInInit(tables: Tables, codec: Codec, es: seq<Export>, now: int, key: string, i: int)
    requires es != [] && i != |es| - 1
    ensures LeadsTo(tables, codec, es, now, key, i) <==> LeadsTo(tables, codec, es[..|es| - 1], now, key, i)
  {
  }

  // A key is restored if and only if some live, readable entry leads to it, with the message of
  // the last that does.
  lemma {:induction false} LoadingKeepsTheLast(tables: Tables, codec: Codec, es: seq<Export>, now: int, key: string)
    returns (i: int)
    ensures var loaded := Loaded(tables, codec, es, now);
      if key in loaded then
        && LeadsTo(tables, codec, es, now, key, i) && codec.unpack(es[i].bytes) == Some(loaded[key])
        && forall j :: j > i ==> !LeadsTo(tables, codec, es, now, key, j)
      else forall j :: !LeadsTo(tables, codec, es, now, key, j)
  {
    i := |es| - 1;
    if es != [] && !LeadsTo(tables, codec, es, now, key, i) {
      var n := i;
      i := LoadingKeepsTheLast(tables, codec, es[..n], now, key);
      forall j | j != n
        ensures LeadsTo(tables, codec, es, now, key, j) <==> LeadsTo(tables, codec, es[..n], now, key, j)
      {
        LeadsToInInit(tables, codec, es, now, key, j);
      }
    }
  }

  // The places of the entries that are restored.
  function RestoredPlaces(codec: Codec, es: seq<Export>, now: int): set<int> {
    set i | 0 <= i < |es| && es[i].expiresAt > now && codec.unpack(es[i].bytes).Some?
  }

  lemma {:induction false} RestoredAreCounted(codec: Codec, es: seq<Export>, now: int)
    ensures RestoredCount(codec, es, now) == |RestoredPlaces(codec, es, now)|
  {
    if es != [] {
      var n, init := |es| - 1, es[..|es| - 1];
      RestoredAreCounted(codec, init, now);
      assert forall i :: 0 <= i < n ==> init[i] == es[i];
      assert RestoredPlaces(codec, es, now)
          == RestoredPlaces(codec, init, now) + if Restorable(codec, es[n], now) then {n} else {};
    }
  }

  // The table after storing messages between two clock readings, with nothing evicted.
  ghost predicate Fills(cfg: Config, loaded: map<string, Msg>, before: map<string, Stored>, after: map<string,
                        Stored>, from: int, to: int)
  {
    && (forall k :: k in after <==> k in before || k in loaded)
    && (forall k :: k in loaded ==> after[k].msg == loaded[k] && MadeBetween(cfg, after[k], from, to))
    && forall k :: k in before && k !in loaded ==> after[k] == before[k]
  }

  lemma FillsNothing(cfg: Config, table: map<string, Stored>, now: int)
    ensures Fills(cfg, map[], table, table, now, now)
  {
  }

  lemma FillsOneMore(cfg: Config, loaded: map<string, Msg>, before: map<string, Stored>, table: map<string, Stored>,
                     from: int, at: int, to: int, key: string, e: Stored)
    requires Fills(cfg, loaded, before, table, from, at) && from <= at <= to && MadeBetween(cfg, e, at, to)
    ensures Fills(cfg, loaded[key := e.msg], before, table[key := e], from, to)
  {
    var loaded2, table2 := loaded[key := e.msg], table[key := e];
    forall k | k in loaded2
      ensures table2[k].msg == loaded2[k] && MadeBetween(cfg, table2[k], from, to)
    {
      assert k != key ==> k in loaded;
    }
  }

  // The last writes of a run, after some messages have been Set on top of another run.
  ghost predicate SetsOnTop(loaded: map<string, Msg>, before: Run, after: Run) {
    forall k :: if k in loaded then k in Latest(after) && Latest(after)[k].msg == loaded[k]
                else Lookup(Latest(after), k) == Lookup(Latest(before), k)
  }

  lemma SetsOneMore(loaded: map<string, Msg>, before: Run, after: Run, key: string, e: Stored, gone: set<string>,
                    now: int)
    requires SetsOnTop(loaded, before, after)
    ensures SetsOnTop(loaded[key := e.msg], before, Then(after, Set(key, e, gone, now)))
  {
    var r := Then(after, Set(key, e, gone, now));
    assert Latest(r) == Latest(after)[key := e];
    forall k
      ensures if k in loaded[key := e.msg] then k in Latest(r) && Latest(r)[k].msg == loaded[key := e.msg][k]
              else Lookup(Latest(r), k) == Lookup(Latest(before), k)
    {
      assert if k in loaded then k in Latest(after) && Latest(after)[k].msg == loaded[k]
             else Lookup(Latest(after), k) == Lookup(Latest(before), k);
    }
  }

  // A number of entries restored on top of a table: with room for them all, nothing is evicted.
  ghost predicate Restores(cfg: Config, loaded: map<string, Msg>, count: nat, before: map<string, Stored>,
                           table: map<string, Stored>, from: int, to: int)
  {
    |before| + count <= cfg.maxSize ==> |table| <= |before| + count && Fills(cfg, loaded, before, table, from, to)
  }

  lemma RestoresOneMore(cfg: Config, loaded: map<string, Msg>, count: nat, before: map<string, Stored>,
                        table: map<string, Stored>,
                        from: int, at: int, to: int, key: string, e: Stored, gone: set<string>)
    requires Restores(cfg, loaded, count, before, table, from, at) && from <= at <= to && MadeBetween(cfg, e, at, to)
    requires |table| < cfg.maxSize ==> gone == {}
    ensures Restores(cfg, loaded[key := e.msg], count + 1, before, (table - gone)[key := e], from, to)
  {
    if |before| + count + 1 <= cfg.maxSize {
      FillsOneMore(cfg, loaded, before, table, from, at, to, key, e);
      assert table - {} == table;
      Putting(table, key, e);
    }
  }

  // ---------- What the resolver puts in the cache ----------

  ghost predicate FromResolver(tables: Tables, key: string, msg: Msg) {
    exists q: Question :: key == CacheKey(tables, q.name, q.qtype, q.qclass) && IsClean(q, msg)
  }

  ghost predicate ResolverFilled(tables: Tables, table: map<string, Stored>) {
    forall k :: k in table ==> FromResolver(tables, k, table[k].msg)
  }

  // Every Set of the run is a write of the resolver.
  ghost predicate ResolverWrites(cfg: Config, r: Run) {
    r.Then? ==> ResolverWrites(cfg, r.past) && (r.act.Set? ==> FromResolver(cfg.tables, r.act.key, r.act.entry.msg))
  }

  lemma {:induction false} LastWriteIsTheResolvers(cfg: Config, r: Run, key: string)
    requires ResolverWrites(cfg, r) && key in Latest(r)
    ensures FromResolver(cfg.tables, key, Latest(r)[key].msg)
  {
    if !(r.act.Set? && r.act.key == key) {
      LastWriteIsTheResolvers(cfg, r.past, key);
    }
  }

  lemma ResolverRunsFill(cfg: Config, r: Run)
    requires ResolverWrites(cfg, r)
    ensures ResolverFilled(cfg.tables, After(r).table)
  {
    forall k | k in After(r).table
      ensures FromResolver(cfg.tables, k, After(r).table[k].msg)
    {
      TableHoldsLastWrites(r, k);
      LastWriteIsTheResolvers(cfg, r, k);
    }
  }

  // The question of the message leads back to the key.
  predicate Regenerates(tables: Tables, key: string, msg: Msg) {
    msg.question != [] &&
    var q := msg.question[0];
    CacheKey(tables, q.name, q.qtype, q.qclass) == key
  }

  // A resolver-cached message regenerates its key exactly when it was asked for in class IN.
  lemma RegeneratesExactlyInClassIN(tables: Tables, q: Question, msg: Msg)
    requires ProperTables(tables) && IsClean(q, msg)
    ensures Regenerates(tables, CacheKey(tables, q.name, q.qtype, q.qclass), msg) <==> q.qclass == CLASS_INET
  {
    var asked := msg.question[0];
    CanonicalNameIsStable(q.name);
    NamesCompareWithoutCase(asked.name, q.name);
    CacheKeysCollideExactly(tables, asked, q);
  }

  // ---------- The round trip ----------

  // A restart: a table is exported between two clock readings, in some order, and saved over
  // an older file, if there is one; the file is loaded between two later readings.
  datatype Trip = Trip(
    table: map<string, Stored>,
    from: int,
    to: int,
    order: seq<string>,
    exported: seq<Export>,
    savedAt: int,
    older: Option<seq<Export>>,
    writable: bool,
    readable: bool,
    loadedAt: int,
    end: int,
    restored: map<string, Stored>)

  // An empty export is not written, and a file that cannot be written leaves the older one.
  predicate Written(t: Trip) {
    t.exported != [] && t.writable
  }

  function FileOf(t: Trip): Option<seq<Export>> {
    if Written(t) then Some(KeepLive(t.exported, t.savedAt)) else t.older
  }

  // The entries that are read back.
  function EntriesOf(t: Trip): seq<Export> {
    if t.readable && FileOf(t).Some? then FileOf(t).value else []
  }

  // The entries that ought to survive: exportable, and alive when the file is loaded.
  function Survivors(codec: Codec, table: map<string, Stored>, loadedAt: int): set<string> {
    set k | k in table && codec.pack(table[k].msg).Some? && table[k].msg.question != []
            && table[k].expiresAt > loadedAt
  }

  ghost predicate Saves(codec: Codec, t: Trip) {
    && Exports(codec, t.table, t.from, t.to, t.order, t.exported)
    && t.from <= t.to <= t.savedAt <= t.loadedAt <= t.end
  }

  // A restart into an empty cache with room.
  ghost predicate RoundTrip(cfg: Config, codec: Codec, t: Trip) {
    && Saves(codec, t)
    && Fills(cfg, Loaded(cfg.tables, codec, EntriesOf(t), t.loadedAt), map[], t.restored, t.loadedAt, t.end)
  }

  lemma {:induction false} DistinctFits(keys: seq<string>, all: set<string>)
    requires Distinct(keys) && forall i :: 0 <= i < |keys| ==> keys[i] in all
    ensures |keys| <= |all|
  {
    if keys != [] {
      var last := keys[|keys| - 1];
      DistinctFits(keys[..|keys| - 1], all - {last});
    }
  }

  lemma {:induction false} NoMoreThanListed(some: set<string>, keys: seq<string>)
    requires forall k :: k in some ==> k in keys
    ensures |some| <= |keys|
  {
    if keys == [] {
      assert some == {};
    } else {
      var init, last := keys[..|keys| - 1], keys[|keys| - 1];
      assert keys == init + [last];
      NoMoreThanListed(some - {last}, init);
      assert |some| <= |some - {last}| + 1 by {
        assert some <= some - {last} + {last};
        assert last !in some ==> some - {last} == some;
      }
    }
  }

  lemma {:induction false} RestoresNoMoreThanSaved(codec: Codec, es: seq<Export>, savedAt: int, now: int)
    ensures RestoredCount(codec, KeepLive(es, savedAt), now) <= |KeepLive(es, savedAt)| <= |es|
  {
    if es != [] {
      RestoresNoMoreThanSaved(codec, es[..|es| - 1], savedAt, now);
      var kept := KeepLive(es, savedAt);
      if es[|es| - 1].expiresAt > savedAt {
        assert kept[..|kept| - 1] == KeepLive(es[..|es| - 1], savedAt);
      } else {
        assert kept == KeepLive(es[..|es| - 1], savedAt);
      }
    }
  }

  // A cache that is restarted with the same size has room for what was saved of it.  An older
  // file has to fit.
  lemma RestartIsARoundTrip(cfg: Config, codec: Codec, t: Trip)
    requires Saves(codec, t) && |t.table| <= cfg.maxSize
    requires Restores(cfg, Loaded(cfg.tables, codec, EntriesOf(t), t.loadedAt),
                      RestoredCount(codec, EntriesOf(t), t.loadedAt), map[], t.restored, t.loadedAt, t.end)
    requires !Written(t) ==> RestoredCount(codec, EntriesOf(t), t.loadedAt) <= cfg.maxSize
    ensures RoundTrip(cfg, codec, t)
  {
    DistinctFits(t.order, t.table.Keys);
    RestoresNoMoreThanSaved(codec, t.exported, t.savedAt, t.loadedAt);
  }

  // ---------- What comes back ----------

  // Some entry that is read back is alive and leads to the key.
  ghost predicate Named(cfg: Config, codec: Codec, t: Trip, key: string) {
    exists x :: x in EntriesOf(t) && Restorable(codec, x, t.loadedAt) && KeyOf(cfg.tables, x) == key
  }

  lemma RestoredExactlyWhenNamed(cfg: Config, codec: Codec, t: Trip, key: string)
    requires RoundTrip(cfg, codec, t)
    ensures key in t.restored <==> Named(cfg, codec, t, key)
  {
    if key in t.restored {
      var x := LoadedComesFromTheFile(cfg.tables, codec, EntriesOf(t), t.loadedAt, key);
    }
    if x :| x in EntriesOf(t) && Restorable(codec, x, t.loadedAt) && KeyOf(cfg.tables, x) == key {
      RestorableIsLoaded(cfg.tables, codec, EntriesOf(t), t.loadedAt, x);
    }
  }

  lemma SurvivorIsLoaded(cfg: Config, codec: Codec, t: Trip, k: string)
    requires Inverse(codec) && RoundTrip(cfg, codec, t) && Written(t) && t.readable
    requires k in Survivors(codec, t.table, t.loadedAt) && k in t.order
    ensures KeyOf(cfg.tables, ExportOf(codec, t.table[k])) in t.restored
  {
    var x := ExportOf(codec, t.table[k]);
    var i :| 0 <= i < |t.order| && t.order[i] == k;
    assert x == t.exported[i];
    KeepLiveExactly(t.exported, t.savedAt, x);
    RestorableIsLoaded(cfg.tables, codec, EntriesOf(t), t.loadedAt, x);
  }

  lemma RestoredHasASource(cfg: Config, codec: Codec, t: Trip, key: string) returns (k: string)
    requires Inverse(codec) && RoundTrip(cfg, codec, t) && Written(t) && key in t.restored
    ensures k in Survivors(codec, t.table, t.loadedAt) && k in t.order
    ensures Regenerates(cfg.tables, key, t.table[k].msg)
    ensures t.restored[key].msg == t.table[k].msg && MadeBetween(cfg, t.restored[key], t.loadedAt, t.end)
  {
    var x := LoadedComesFromTheFile(cfg.tables, codec, EntriesOf(t), t.loadedAt, key);
    KeepLiveExactly(t.exported, t.savedAt, x);
    var i :| 0 <= i < |t.exported| && t.exported[i] == x;
    k := t.order[i];
  }

  // A key that some resolver-cached message regenerates is one of class IN, so the message
  // under it regenerates it too.
  lemma OnlyClassINRegenerates(tables: Tables, key: string, msg: Msg, otherKey: string, other: Msg)
    requires ProperTables(tables) && FromResolver(tables, key, msg) && FromResolver(tables, otherKey, other)
    requires Regenerates(tables, key, other)
    ensures Regenerates(tables, key, msg)
  {
    var q: Question :| key == CacheKey(tables, q.name, q.qtype, q.qclass) && IsClean(q, msg);
    var asked := other.question[0];
    CacheKeysCollideExactly(tables, asked, q);
    RegeneratesExactlyInClassIN(tables, q, msg);
  }

  // An entry that was exported and leads back to its own key.
  predicate Returns(cfg: Config, t: Trip, k: string)
    requires k in t.table
  {
    k in t.order && Regenerates(cfg.tables, k, t.table[k].msg)
  }

  lemma RestoredKeyReturns(cfg: Config, codec: Codec, t: Trip, key: string)
    requires Inverse(codec) && ProperTables(cfg.tables) && ResolverFilled(cfg.tables, t.table)
    requires RoundTrip(cfg, codec, t) && Written(t) && t.restored.Keys == Survivors(codec, t.table, t.loadedAt)
    requires key in t.restored
    ensures Returns(cfg, t, key)
  {
    var k := RestoredHasASource(cfg, codec, t, key);
    var source := RestoredHasASource(cfg, codec, t, k);
    OnlyClassINRegenerates(cfg.tables, key, t.table[key].msg, k, t.table[k].msg);
    OnlyClassINRegenerates(cfg.tables, k, t.table[k].msg, source, t.table[source].msg);
  }

  lemma WrittenFileRestoresExactly(cfg: Config, codec: Codec, t: Trip)
    requires Inverse(codec) && ProperTables(cfg.tables) && ResolverFilled(cfg.tables, t.table)
    requires RoundTrip(cfg, codec, t) && Written(t) && t.readable
    ensures t.restored.Keys == Survivors(codec, t.table, t.loadedAt)
       <==> forall k :: k in Survivors(codec, t.table, t.loadedAt) ==> Returns(cfg, t, k)
  {
    var survivors := Survivors(codec, t.table, t.loadedAt);
    if t.restored.Keys == survivors {
      forall k | k in survivors
        ensures Returns(cfg, t, k)
      {
        RestoredKeyReturns(cfg, codec, t, k);
      }
    }
    if forall k :: k in survivors ==> Returns(cfg, t, k) {
      forall key | key in t.restored
        ensures key in survivors
      {
        var k := RestoredHasASource(cfg, codec, t, key);
        assert Returns(cfg, t, k) && k == key;
      }
      forall k | k in survivors
        ensures k in t.restored
      {
        assert Returns(cfg, t, k);
        SurvivorIsLoaded(cfg, codec, t, k);
      }
    }
  }

  lemma SurvivorsAreExported(codec: Codec, t: Trip, k: string)
    requires Saves(codec, t) && |t.exported| < EXPORT_LIMIT && k in Survivors(codec, t.table, t.loadedAt)
    ensures k in t.order
  {
  }

  lemma EmptyExportHasNoSurvivors(codec: Codec, t: Trip)
    requires Saves(codec, t) && t.exported == []
    ensures Survivors(codec, t.table, t.loadedAt) == {}
  {
    if k :| k in Survivors(codec, t.table, t.loadedAt) {
      SurvivorsAreExported(codec, t, k);
      assert false;
    }
  }

  // When a restart brings back the keys that survive, no more and no less.
  ghost predicate ComesBack(cfg: Config, codec: Codec, t: Trip) {
    var survivors := Survivors(codec, t.table, t.loadedAt);
    if !t.readable then survivors == {}
    else if t.exported == [] then forall x :: x in EntriesOf(t) ==> !Restorable(codec, x, t.loadedAt)
    else if t.writable then forall k :: k in survivors ==> Returns(cfg, t, k)
    else forall k :: k in survivors <==> Named(cfg, codec, t, k)
  }

  lemma NothingNamedExactly(cfg: Config, codec: Codec, t: Trip)
    ensures (forall key :: !Named(cfg, codec, t, key))
       <==> forall x :: x in EntriesOf(t) ==> !Restorable(codec, x, t.loadedAt)
  {
    forall x | x in EntriesOf(t) && Restorable(codec, x, t.loadedAt)
      ensures Named(cfg, codec, t, KeyOf(cfg.tables, x))
    {
    }
  }

  // Of what the resolver cached, a restart brings back exactly what survives if and only if:
  // the file cannot be read and nothing survives; or nothing was exported and the older file,
  // which stays in place, has nothing alive in it; or the file was written, and all survivors
  // were exported and lead back to their keys, that is, fit the limit of an export and were
  // asked for in class IN; or it could not be written, and the older file names just them.
  lemma RestoresExactlyTheSurvivors(cfg: Config, codec: Codec, t: Trip)
    requires Inverse(codec) && ProperTables(cfg.tables) && ResolverFilled(cfg.tables, t.table)
    requires RoundTrip(cfg, codec, t)
    ensures t.restored.Keys == Survivors(codec, t.table, t.loadedAt) <==> ComesBack(cfg, codec, t)
  {
    if t.readable && Written(t) {
      WrittenFileRestoresExactly(cfg, codec, t);
    } else {
      forall key
        ensures key in t.restored <==> Named(cfg, codec, t, key)
      {
        RestoredExactlyWhenNamed(cfg, codec, t, key);
      }
      if t.readable && t.exported == [] {
        EmptyExportHasNoSurvivors(codec, t);
        NothingNamedExactly(cfg, codec, t);
      }
    }
  }

  // A cache of no more entries than the limit of an export is exported whole.
  lemma SmallCachesAreExportedWhole(codec: Codec, t: Trip, k: string)
    requires Saves(codec, t) && |t.table| <= 100_000 && k in Survivors(codec, t.table, t.loadedAt)
    ensures k in t.order
  {
    if k !in t.order {
      DistinctFits(t.order, t.table.Keys - {k});
    }
  }

  // Of more survivors than that some are lost.
  lemma TooManySurvivorsAreNotRestored(cfg: Config, codec: Codec, t: Trip)
    requires Inverse(codec) && ProperTables(cfg.tables) && ResolverFilled(cfg.tables, t.table)
    requires RoundTrip(cfg, codec, t) && t.writable && |Survivors(codec, t.table, t.loadedAt)| > 100_000
    ensures t.restored.Keys != Survivors(codec, t.table, t.loadedAt)
  {
    RestoresExactlyTheSurvivors(cfg, codec, t);
    if t.exported == [] {
      EmptyExportHasNoSurvivors(codec, t);
    } else if ComesBack(cfg, codec, t) && t.readable {
      forall k | k in Survivors(codec, t.table, t.loadedAt)
        ensures k in t.order
      {
        assert Returns(cfg, t, k);
      }
      NoMoreThanListed(Survivors(codec, t.table, t.loadedAt), t.order);
    }
  }

  // ---------- Caches that do not come back ----------

  lemma LoadsAlone(tables: Tables, codec: Codec, x: Export, msg: Msg, now: int)
    requires x.expiresAt > now && codec.unpack(x.bytes) == Some(msg)
    ensures KeepLive([x], now) == [x] && Loaded(tables, codec, [x], now) == map[KeyOf(tables, x) := msg]
  {
    assert [x][..0] == [];
    assert KeepLive([x][..0], now) == [];
    assert Loaded(tables, codec, [x][..0], now) == map[];
  }

  // A message cached alone and saved comes back, at once, under the key of its question.
  lemma ComesBackAlone(cfg: Config, codec: Codec, key: string, msg: Msg) returns (t: Trip)
    requires Inverse(codec) && CanExport(codec, EntryAt(cfg, msg, 0)) && StoredTtl(cfg, msg) > 0
    ensures RoundTrip(cfg, codec, t) && t.loadedAt == 0
    ensures t.table == map[key := EntryAt(cfg, msg, 0)]
    ensures t.restored.Keys == {KeyOf(cfg.tables, ExportOf(codec, EntryAt(cfg, msg, 0)))}
  {
    var e := EntryAt(cfg, msg, 0);
    var x := ExportOf(codec, e);
    t := Trip(map[key := e], 0, 0, [key], [x], 0, None, true, true, 0, 0, map[KeyOf(cfg.tables, x) := e]);
    LoadsAlone(cfg.tables, codec, x, msg, 0);
    assert Walked(codec, t.table, t.table.Keys, 0, 0, t.order, t.exported);
  }

  // A message asked for in another class than IN, cached alone, comes back under another key.
  lemma OtherClassesAreLost(cfg: Config, codec: Codec, q: Question, msg: Msg) returns (t: Trip)
    requires Inverse(codec) && ProperTables(cfg.tables)
    requires IsClean(q, msg) && q.qclass != CLASS_INET
    requires codec.pack(msg).Some? && StoredTtl(cfg, msg) > 0
    ensures ResolverFilled(cfg.tables, t.table) && |t.table| == 1 && RoundTrip(cfg, codec, t)
    ensures t.restored.Keys != Survivors(codec, t.table, t.loadedAt)
  {
    var key := CacheKey(cfg.tables, q.name, q.qtype, q.qclass);
    t := ComesBackAlone(cfg, codec, key, msg);
    assert FromResolver(cfg.tables, key, msg);
    RegeneratesExactlyInClassIN(cfg.tables, q, msg);
    assert key in Survivors(codec, t.table, 0) && key !in t.restored.Keys;
  }

  lemma SetsAgain(cfg: Config, r: Run, key: string, msg: Msg) returns (again: Run)
    requires Legal(cfg, r) && After(r).clock == 0 && key in After(r).table && |After(r).table| == 1
    ensures Legal(cfg, again) && again.Then? && again.past == r && After(again).clock == 0
    ensures After(again).table == map[key := EntryAt(cfg, msg, 0)]
  {
    OnlyKey(After(r).table, key);
    var gone := if cfg.maxSize <= 1 then {key} else {};
    assert cfg.maxSize <= 1 ==> MakesRoom(After(r).table, gone, 0, 0);
    again := Then(r, Set(key, EntryAt(cfg, msg, 0), gone, 0));
  }

  // One message is Set, and another, with a shorter life, in its place; and that is cleaned up.
  lemma CacheDrains(cfg: Config, key: string, long: Msg, short: Msg) returns (first: Run, drained: Run)
    requires 0 <= StoredTtl(cfg, short)
    ensures first == Then(Start(0), Set(key, EntryAt(cfg, long, 0), {}, 0)) && Legal(cfg, first)
    ensures After(first).table == map[key := EntryAt(cfg, long, 0)]
    ensures Legal(cfg, drained) && drained.Then? && drained.past.Then? && drained.past.past == first
    ensures After(drained).table == map[] && After(drained).clock == StoredTtl(cfg, short) + 1
  {
    var now := StoredTtl(cfg, short) + 1;
    first := SetAlone(cfg, key, long);
    OnlyKey(After(first).table, key);
    assert After(first).table == map[key := EntryAt(cfg, long, 0)];
    var replaced := SetsAgain(cfg, first, key, short);
    assert Purges(After(replaced).table, {key}, 0, now);
    drained := Then(replaced, Clean({key}, now));
  }

  lemma CleanMessagesRegenerate(tables: Tables, k: string, msg: Msg, key: string)
    requires FromResolver(tables, k, msg) && Regenerates(tables, key, msg)
    ensures FromResolver(tables, key, msg)
  {
    var q: Question :| k == CacheKey(tables, q.name, q.qtype, q.qclass) && IsClean(q, msg);
    assert IsClean(msg.question[0], msg);
  }

  // What is restored from a file that was written has the message it had and the lifetime it
  // had, counted from the load.
  lemma RestoredEntriesAreTheSame(cfg: Config, codec: Codec, t: Trip, k: string)
    requires Inverse(codec) && RoundTrip(cfg, codec, t) && Written(t) && k in t.restored
    requires forall j :: j in Survivors(codec, t.table, t.loadedAt) ==> Regenerates(cfg.tables, j, t.table[j].msg)
    requires forall j :: j in t.table ==> t.table[j].ttl == StoredTtl(cfg, t.table[j].msg)
    ensures k in t.table && t.restored[k].msg == t.table[k].msg && t.restored[k].ttl == t.table[k].ttl
    ensures t.loadedAt <= t.restored[k].expiresAt - t.restored[k].ttl <= t.end
  {
    var source := RestoredHasASource(cfg, codec, t, k);
    assert source == k;
  }

  // ---------- Files ----------

  // Every message of the file is one of the resolver's, and its question leads to the key it
  // will be given.
  ghost predicate FileFromResolver(tables: Tables, codec: Codec, es: seq<Export>) {
    forall x :: x in es && codec.unpack(x.bytes).Some? ==>
      && FromResolver(tables, KeyOf(tables, x), codec.unpack(x.bytes).value)
      && Regenerates(tables, KeyOf(tables, x), codec.unpack(x.bytes).value)
  }

  // So is the file of a cache that the resolver filled; and so is what loading it Sets.
  lemma SavedFileIsFromResolver(tables: Tables, codec: Codec, t: Trip)
    requires Inverse(codec) && ResolverFilled(tables, t.table) && Saves(codec, t)
    requires t.older.Some? ==> FileFromResolver(tables, codec, t.older.value)
    ensures FileOf(t).Some? ==> FileFromResolver(tables, codec, FileOf(t).value)
  {
    forall x | x in KeepLive(t.exported, t.savedAt) && codec.unpack(x.bytes).Some?
      ensures FromResolver(tables, KeyOf(tables, x), codec.unpack(x.bytes).value)
      ensures Regenerates(tables, KeyOf(tables, x), codec.unpack(x.bytes).value)
    {
      KeepLiveExactly(t.exported, t.savedAt, x);
      var i :| 0 <= i < |t.exported| && t.exported[i] == x;
      var k := t.order[i];
      CleanMessagesRegenerate(tables, k, t.table[k].msg, KeyOf(tables, x));
    }
  }

  // What is restored is again as the resolver would have put it, so the next save is sound too.
  lemma RestoredIsResolverFilled(cfg: Config, codec: Codec, t: Trip)
    requires Inverse(codec) && ResolverFilled(cfg.tables, t.table) && RoundTrip(cfg, codec, t)
    requires t.older.Some? ==> FileFromResolver(cfg.tables, codec, t.older.value)
    ensures ResolverFilled(cfg.tables, t.restored)
    ensures forall k :: k in t.restored ==> Regenerates(cfg.tables, k, t.restored[k].msg)
  {
    SavedFileIsFromResolver(cfg.tables, codec, t);
    forall key | key in t.restored
      ensures FromResolver(cfg.tables, key, t.restored[key].msg)
      ensures Regenerates(cfg.tables, key, t.restored[key].msg)
    {
      var x := LoadedComesFromTheFile(cfg.tables, codec, EntriesOf(t), t.loadedAt, key);
    }
  }

  // What comes back after a save that wrote nothing is from the older file, with the whole of
  // its lifetime again.
  lemma OlderEntriesComeBack(cfg: Config, codec: Codec, t: Trip, key: string) returns (x: Export)
    requires RoundTrip(cfg, codec, t) && !Written(t) && key in t.restored
    ensures t.readable && t.older.Some? && x in t.older.value
    ensures Restorable(codec, x, t.loadedAt) && KeyOf(cfg.tables, x) == key
    ensures t.restored[key].msg == codec.unpack(x.bytes).value
    ensures MadeBetween(cfg, t.restored[key], t.loadedAt, t.end)
  {
    x := LoadedComesFromTheFile(cfg.tables, codec, EntriesOf(t), t.loadedAt, key);
  }

  // They do come back: a message is cached and saved; another takes its place, and the cache
  // drains; the save that follows has nothing to write; the restart brings back the first.
  lemma DrainedCacheComesBack(cfg: Config, codec: Codec, key: string, long: Msg, short: Msg)
    returns (saved: Run, drained: Run, t: Trip)
    requires Inverse(codec) && CanExport(codec, EntryAt(cfg, long, 0))
    requires 0 <= StoredTtl(cfg, short) && StoredTtl(cfg, short) + 1 < StoredTtl(cfg, long)
    ensures Legal(cfg, saved) && After(saved).table == map[key := EntryAt(cfg, long, 0)]
    ensures Legal(cfg, drained) && drained.Then? && drained.past.Then? && drained.past.past == saved
    ensures t.older == Some([ExportOf(codec, EntryAt(cfg, long, 0))])
    ensures t.table == After(drained).table == map[] && t.exported == [] && t.writable && t.readable
    ensures RoundTrip(cfg, codec, t) && Survivors(codec, t.table, t.loadedAt) == {}
    ensures t.restored.Keys == {KeyOf(cfg.tables, ExportOf(codec, EntryAt(cfg, long, 0)))}
  {
    saved, drained := CacheDrains(cfg, key, long, short);
    var x, now := ExportOf(codec, EntryAt(cfg, long, 0)), StoredTtl(cfg, short) + 1;
    var restored := map[KeyOf(cfg.tables, x) := EntryAt(cfg, long, now)];
    t := Trip(map[], now, now, [], [], now, Some([x]), true, true, now, now, restored);
    LoadsAlone(cfg.tables, codec, x, long, now);
    assert Walked(codec, t.table, t.table.Keys, now, now, t.order, t.exported);
  }
}
