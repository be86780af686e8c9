// Saving the cache to a file and restoring it: internal/persistence/persistence.go.
module Persistence {
  import opened Options
  import opened Dns
  import CacheSteps
  import opened Snapshots
  import C = Cache

  // The new cache has room for what is read back.
  predicate Fits(cfg: CacheSteps.Config, codec: Codec, t: Trip) {
    && |t.table| <= cfg.maxSize
    && (!Written(t) ==> RestoredCount(codec, EntriesOf(t), t.loadedAt) <= cfg.maxSize)
  }

  // Loading starts from a run and its table, at a clock reading.
  datatype Loading = Loading(
    cfg: CacheSteps.Config,
    codec: Codec,
    run: CacheSteps.Run,
    table: map<string, CacheSteps.Stored>,
    now: int)

  // Some entries of the file have been gone through.
  ghost predicate SoFar(l: Loading, es: seq<Export>, restored: nat, run: CacheSteps.Run,
                        table: map<string, CacheSteps.Stored>, clock: int)
  {
    && l.now <= clock
    && restored == RestoredCount(l.codec, es, l.now)
    && SetsOnTop(Loaded(l.cfg.tables, l.codec, es, l.now), l.run, run)
    && Restores(l.cfg, Loaded(l.cfg.tables, l.codec, es, l.now), restored, l.table, table, l.now, clock)
    && (ResolverWrites(l.cfg, l.run) && FileFromResolver(l.cfg.tables, l.codec, es) ==> ResolverWrites(l.cfg, run))
  }

  lemma NothingRestored(l: Loading)
    ensures SoFar(l, [], 0, l.run, l.table, l.now)
  {
    FillsNothing(l.cfg, l.table, l.now);
  }

  lemma OneMoreSkipped(l: Loading, es: seq<Export>, restored: nat, run: CacheSteps.Run,
                       table: map<string, CacheSteps.Stored>, clock: int, e: Export)
    requires SoFar(l, es, restored, run, table, clock) && !Restorable(l.codec, e, l.now)
    ensures SoFar(l, es + [e], restored, run, table, clock)
  {
    assert (es + [e])[..|es|] == es;
    assert FileFromResolver(l.cfg.tables, l.codec, es + [e]) ==> FileFromResolver(l.cfg.tables, l.codec, es);
  }

  lemma OneMoreRestored(l: Loading, es: seq<Export>, restored: nat, run: CacheSteps.Run,
                        table: map<string, CacheSteps.Stored>, at: int, now: int, e: Export,
                        stored: CacheSteps.Stored, gone: set<string>)
    requires SoFar(l, es, restored, run, table, at) && Restorable(l.codec, e, l.now)
    requires stored.msg == l.codec.unpack(e.bytes).value && at <= now
    requires CacheSteps.MadeBetween(l.cfg, stored, at, now) && (|table| < l.cfg.maxSize ==> gone == {})
    ensures var key := KeyOf(l.cfg.tables, e);
            SoFar(l, es + [e], restored + 1, CacheSteps.Then(run, CacheSteps.Set(key, stored, gone, now)),
                  (table - gone)[key := stored], now)
  {
    var key, loaded := KeyOf(l.cfg.tables, e), Loaded(l.cfg.tables, l.codec, es, l.now);
    assert (es + [e])[..|es|] == es;
    RestoresOneMore(l.cfg, loaded, restored, l.table, table, l.now, at, now, key, stored, gone);
    SetsOneMore(loaded, l.run, run, key, stored, gone, now);
    if FileFromResolver(l.cfg.tables, l.codec, es + [e]) {
      assert e in es + [e];
      assert FileFromResolver(l.cfg.tables, l.codec, es);
    }
  }

  // What a restart guarantees of a cache with this run.
  lemma TripObeysTheLaws(cfg: CacheSteps.Config, codec: Codec, t: Trip, run: CacheSteps.Run)
    requires Saves(codec, t) && t.table == CacheSteps.After(run).table
    requires Restores(cfg, Loaded(cfg.tables, codec, EntriesOf(t), t.loadedAt),
                      RestoredCount(codec, EntriesOf(t), t.loadedAt), map[], t.restored, t.loadedAt, t.end)
    ensures Fits(cfg, codec, t) ==> RoundTrip(cfg, codec, t)
    ensures Fits(cfg, codec, t) && Inverse(codec) && ProperTables(cfg.tables) && ResolverFilled(cfg.tables, t.table)
      ==> (t.restored.Keys == Survivors(codec, t.table, t.loadedAt) <==> ComesBack(cfg, codec, t))
    ensures Inverse(codec) && ResolverWrites(cfg, run)
        && (t.older.Some? ==> FileFromResolver(cfg.tables, codec, t.older.value))
        && FileOf(t).Some?
      ==> FileFromResolver(cfg.tables, codec, FileOf(t).value)
  {
    if Fits(cfg, codec, t) {
      RestartIsARoundTrip(cfg, codec, t);
      if Inverse(codec) && ProperTables(cfg.tables) && ResolverFilled(cfg.tables, t.table) {
        RestoresExactlyTheSurvivors(cfg, codec, t);
      }
    }
    if Inverse(codec) && ResolverWrites(cfg, run) {
      ResolverRunsFill(cfg, run);
      if t.older.Some? ==> FileFromResolver(cfg.tables, codec, t.older.value) {
        SavedFileIsFromResolver(cfg.tables, codec, t);
      }
    }
  }

  class Persistence {
    const enabled: bool
    const codec: Codec
    // What is at the file path.
    var file: Option<seq<Export>>

    constructor (enabled: bool, codec: Codec)
      ensures this.enabled == enabled && this.codec == codec
    {
      this.enabled, this.codec := enabled, codec;
    }

    // A file that cannot be written leaves the old one in place; so does an empty export.
    method Save(source: C.Cache?, writable: bool)
      returns (ok: bool, ghost order: seq<string>, ghost exported: seq<Export>, ghost exportedAt: int)
      requires source != null ==> source.Valid()
      modifies this, source
      ensures source != null ==>
                source.Valid() && source.entries == old(source.entries) && source.run == old(source.run)
      ensures !enabled || source == null ==> ok && file == old(file)
      ensures enabled && source != null ==>
        && old(source.clock) <= exportedAt <= source.clock
        && Exports(codec, C.Table(source.entries), old(source.clock), exportedAt, order, exported)
        && ok == (exported == [] || writable)
        && file == if exported != [] && writable then Some(KeepLive(exported, source.clock)) else old(file)
    {
      order, exported, exportedAt := [], [], 0;
      if !enabled || source == null {
        return true, order, exported, exportedAt;
      }
      var entries;
      entries, order := source.ExportEntries(codec);
      exported, exportedAt := entries, source.clock;
      if |entries| == 0 {
        return true, order, exported, exportedAt;
      }
      var now := source.Now();
      var valid := [];
      for i := 0 to |entries|
        invariant valid == KeepLive(entries[..i], now)
      {
        assert entries[..i + 1][..i] == entries[..i];
        if entries[i].expiresAt > now {
          valid := valid + [entries[i]];
        }
      }
      assert entries[..|entries|] == entries;
      if writable {
        file := Some(valid);
      }
      ok := writable;
    }

    // One entry restored on top of others.
    method Restore(cache: C.Cache, e: Export, msg: Msg, ghost l: Loading, ghost es: seq<Export>, ghost restored: nat)
      requires cache.Valid() && l.cfg == cache.cfg && l.codec == codec
      requires SoFar(l, es, restored, cache.run, C.Table(cache.entries), cache.clock)
      requires e.expiresAt > l.now && codec.unpack(e.bytes) == Some(msg)
      modifies cache
      ensures cache.Valid()
      ensures SoFar(l, es + [e], restored + 1, cache.run, C.Table(cache.entries), cache.clock)
    {
      ghost var table, run, at := C.Table(cache.entries), cache.run, cache.clock;
      ghost var gone, stored := cache.Set(e.name, e.qtype, e.qclass, Some(msg));
      OneMoreRestored(l, es, restored, run, table, at, cache.clock, e, stored, gone);
    }

    // Every entry alive at one clock reading is Set again; with room for them all, nothing is
    // evicted.
    method Load(cache: C.Cache, readable: bool) returns (restored: nat, ok: bool, ghost loadedAt: int)
      requires cache.Valid()
      modifies cache
      ensures cache.Valid()
      ensures ok == (!enabled || readable)
      ensures restored == if enabled && ok && file.Some? then RestoredCount(codec, file.value, loadedAt) else 0
      ensures !(enabled && ok && file.Some?) ==> cache.entries == old(cache.entries) && cache.run == old(cache.run)
      ensures enabled && ok && file.Some? ==>
        var loaded := Loaded(cache.cfg.tables, codec, file.value, loadedAt);
        && old(cache.clock) <= loadedAt <= cache.clock
        && SetsOnTop(loaded, old(cache.run), cache.run)
        && Restores(cache.cfg, loaded, restored, C.Table(old(cache.entries)), C.Table(cache.entries),
                    loadedAt, cache.clock)
      ensures ResolverWrites(cache.cfg, old(cache.run))
          && (file.Some? ==> FileFromResolver(cache.cfg.tables, codec, file.value))
        ==> ResolverWrites(cache.cfg, cache.run)
    {
      restored, ok, loadedAt := 0, true, 0;
      if !enabled {
        return;
      }
      if !readable || file.None? {
        // A missing file is not an error.
        ok := readable;
        return;
      }
      var entries := file.value;
      var now := cache.Now();
      loadedAt := now;
      ghost var l := Loading(cache.cfg, codec, cache.run, C.Table(cache.entries), now);
      NothingRestored(l);
      for i := 0 to |entries|
        invariant cache.Valid()
        invariant SoFar(l, entries[..i], restored, cache.run, C.Table(cache.entries), cache.clock)
      {
        assert entries[..i + 1] == entries[..i] + [entries[i]];
        var e := entries[i];
        if e.expiresAt > now {
          var msg := codec.unpack(e.bytes);
          if msg.Some? {
            Restore(cache, e, msg.value, l, entries[..i], restored);
            restored := restored + 1;
            continue;
          }
        }
        OneMoreSkipped(l, entries[..i], restored, cache.run, C.Table(cache.entries), cache.clock, e);
      }
      assert entries[..|entries|] == entries;
    }
  }

  // Stopping the server and starting it again: the cache is saved, and a new one of the same
  // configuration is filled from the file.
  method Restart(p: Persistence, source: C.Cache, writable: bool, readable: bool)
    returns (cache: C.Cache, ghost t: Trip)
    requires p.enabled && source.Valid()
    modifies p, source
    ensures fresh(cache) && cache.Valid() && cache.cfg == source.cfg
    ensures t.table == C.Table(old(source.entries)) && t.restored == C.Table(cache.entries)
    ensures t.older == old(p.file) && p.file == FileOf(t) && t.writable == writable && t.readable == readable
    ensures Fits(cache.cfg, p.codec, t) ==> RoundTrip(cache.cfg, p.codec, t)
    ensures Fits(cache.cfg, p.codec, t) && Inverse(p.codec) && ProperTables(cache.cfg.tables)
        && ResolverFilled(cache.cfg.tables, t.table)
      ==> (t.restored.Keys == Survivors(p.codec, t.table, t.loadedAt) <==> ComesBack(cache.cfg, p.codec, t))
    ensures Inverse(p.codec) && ResolverWrites(source.cfg, old(source.run))
        && (old(p.file).Some? ==> FileFromResolver(source.cfg.tables, p.codec, old(p.file).value))
      ==> ResolverWrites(cache.cfg, cache.run)
          && (p.file.Some? ==> FileFromResolver(source.cfg.tables, p.codec, p.file.value))
  {
    ghost var older, from, table := p.file, source.clock, C.Table(source.entries);
    var ok;
    ghost var order, exported, exportedAt;
    ok, order, exported, exportedAt := p.Save(source, writable);
    ghost var savedAt := source.clock;
    cache := new C.Cache(source.cfg, source.clock);
    ghost var loadedAt;
    var restored;
    restored, ok, loadedAt := p.Load(cache, readable);
    if !(readable && p.file.Some?) {
      loadedAt := cache.clock;
    }
    t := Trip(table, from, exportedAt, order, exported, savedAt, older, writable, readable,
              loadedAt, cache.clock, C.Table(cache.entries));
    assert |table| == |source.entries| by {
      assert table.Keys == source.entries.Keys;
    }
    TripObeysTheLaws(cache.cfg, p.codec, t, source.run);
  }
}
