// How long entries live and how hits age, in seconds and in the records themselves.
module Lifetimes {
  import opened Options
  import opened Dns
  import opened CacheSteps
  import opened CacheLaws

  // ---------- How long an entry lives ----------

  // The seconds a message is good for: the least TTL of its answer and authority, at most an hour.
  predicate LeastSeconds(msg: Msg, s: int) {
    && 0 <= s <= 3600
    && (forall rr :: rr in msg.answer + msg.ns ==> s <= rr.hdr.ttl)
    && (s == 3600 || exists rr :: rr in msg.answer + msg.ns && rr.hdr.ttl == s)
  }

  // So many seconds, thirty if there are none, between the configured bounds, of which the upper wins.
  predicate IsBounded(cfg: Config, s: int, ttl: int) {
    var asked := (if s == 0 then 30 else s) * 1_000_000_000;
    var raised := if asked < cfg.minTTL then cfg.minTTL else asked;
    ttl == if raised > cfg.maxTTL then cfg.maxTTL else raised
  }

  // A refusal or an empty answer lives for the configured time, any other message for its seconds.
  ghost predicate LivesFor(cfg: Config, msg: Msg, ttl: int) {
    if msg.rcode == 3 || (msg.rcode == 0 && msg.answer == []) then ttl == cfg.negativeTTL
    else exists s :: LeastSeconds(msg, s) && IsBounded(cfg, s, ttl)
  }

  lemma {:induction false} LeastTtlIsLeast(rrs: seq<RR>, bound: u32)
    ensures var r := LeastTtl(rrs, bound);
            && r <= bound && (forall rr :: rr in rrs ==> r <= rr.hdr.ttl)
            && (r == bound || exists rr :: rr in rrs && r == rr.hdr.ttl)
  {
    if rrs != [] {
      LeastTtlIsLeast(rrs[..|rrs| - 1], bound);
    }
  }

  lemma MessageHasItsSeconds(msg: Msg)
    ensures LeastSeconds(msg, LeastTtl(msg.ns, LeastTtl(msg.answer, 3600)))
  {
    var inAnswer := LeastTtl(msg.answer, 3600);
    LeastTtlIsLeast(msg.answer, 3600);
    LeastTtlIsLeast(msg.ns, inAnswer);
    if LeastTtl(msg.ns, inAnswer) < inAnswer {
      var rr :| rr in msg.ns && rr.hdr.ttl == LeastTtl(msg.ns, inAnswer);
      assert rr in msg.answer + msg.ns;
    } else if inAnswer < 3600 {
      var rr :| rr in msg.answer && rr.hdr.ttl == inAnswer;
      assert rr in msg.answer + msg.ns;
    }
  }

  lemma SecondsAreUnique(msg: Msg, s: int, t: int)
    requires LeastSeconds(msg, s) && LeastSeconds(msg, t)
    ensures s == t
  {
  }

  lemma LifetimeExactly(cfg: Config, msg: Msg, ttl: int)
    ensures ttl == StoredTtl(cfg, msg) <==> LivesFor(cfg, msg, ttl)
  {
    var least := LeastTtl(msg.ns, LeastTtl(msg.answer, 3600));
    MessageHasItsSeconds(msg);
    forall s | LeastSeconds(msg, s)
      ensures s == least
    {
      SecondsAreUnique(msg, s, least);
    }
  }

  // What a Set puts into the table: an entry made while it held the lock, that lives as long as
  // its message is to.
  lemma SetEntryLivesAsItShould(cfg: Config, r: Run, key: string, e: Stored, gone: set<string>, now: int)
    requires Legal(cfg, Then(r, Set(key, e, gone, now)))
    ensures LivesFor(cfg, e.msg, e.ttl)
    ensures e.negative <==> e.msg.rcode == 3 || (e.msg.rcode == 0 && e.msg.answer == [])
    ensures After(r).clock <= e.createdAt <= e.expiresAt - e.ttl <= now == After(Then(r, Set(key, e, gone, now))).clock
  {
    LifetimeExactly(cfg, e.msg, e.ttl);
  }

  // The message asks for its record to be kept longer than the record allows...
  ghost predicate Outlived(cfg: Config, msg: Msg, rr: RR) {
    rr in msg.answer + msg.ns && exists ttl :: LivesFor(cfg, msg, ttl) && rr.hdr.ttl * SECOND < ttl
  }

  // ...if the record has TTL zero, or less than the configured minimum, the maximum permitting.
  predicate OffersLess(cfg: Config, msg: Msg, rr: RR) {
    && rr in msg.answer + msg.ns && rr.hdr.ttl * SECOND < cfg.maxTTL
    && (rr.hdr.ttl == 0 || rr.hdr.ttl * SECOND < cfg.minTTL)
  }

  // A positive answer outlives some record of its own exactly when some record offers less.
  lemma OutlivesARecordExactly(cfg: Config, msg: Msg)
    requires msg.rcode != 3 && (msg.rcode != 0 || msg.answer != [])
    ensures (exists rr :: Outlived(cfg, msg, rr)) <==> exists rr :: OffersLess(cfg, msg, rr)
  {
    var least := LeastTtl(msg.ns, LeastTtl(msg.answer, 3600));
    MessageHasItsSeconds(msg);
    LifetimeExactly(cfg, msg, StoredTtl(cfg, msg));
    if rr :| Outlived(cfg, msg, rr) {
      var ttl :| LivesFor(cfg, msg, ttl) && rr.hdr.ttl * SECOND < ttl;
      LifetimeExactly(cfg, msg, ttl);
      if least == 0 {
        var zero :| zero in msg.answer + msg.ns && zero.hdr.ttl == 0;
        assert OffersLess(cfg, msg, zero);
      } else {
        assert least <= rr.hdr.ttl;
        assert OffersLess(cfg, msg, rr);
      }
    }
    if rr :| OffersLess(cfg, msg, rr) {
      assert least <= rr.hdr.ttl;
      assert Outlived(cfg, msg, rr);
    }
  }

  // ---------- What a hit serves ----------

  ghost predicate SameButTtl(rrs: seq<RR>, was: seq<RR>) {
    && |rrs| == |was|
    && forall j :: 0 <= j < |rrs| ==> rrs[j] == was[j].(hdr := was[j].hdr.(ttl := rrs[j].hdr.ttl))
  }

  // The same message but for TTLs; OPT records keep even those.
  ghost predicate SameMessage(msg: Msg, was: Msg) {
    && msg.(answer := [], ns := [], extra := []) == was.(answer := [], ns := [], extra := [])
    && SameButTtl(msg.answer, was.answer) && SameButTtl(msg.ns, was.ns) && SameButTtl(msg.extra, was.extra)
    && forall j :: 0 <= j < |msg.extra| && was.extra[j].hdr.rrtype == 41 ==> msg.extra[j] == was.extra[j]
  }

  lemma OnlyTtlsChange(msg: Msg, ttl: u32)
    ensures SameMessage(Refreshed(msg, ttl), msg)
  {
  }

  // The records of a message whose TTL a hit sets.
  predicate Ages(msg: Msg, rr: RR) {
    rr in msg.answer || rr in msg.ns || (rr in msg.extra && rr.hdr.rrtype != 41)
  }

  // A hit: the message last Set for the key when the getter read it, unexpired when tested,
  // the same but for TTLs.
  lemma HitIsTheLastSetAtItsRead(cfg: Config, r: Run, i: nat, at: int, later: int)
    requires Legal(cfg, Then(r, Hit(i, at, later)))
    ensures var e := At(After(r), i).entry;
            && IsLatest(ReadBy(r, i), KeyRead(r, i), e)
            && TestedAt(r, i) <= e.expiresAt && TestedAt(r, i) <= at
            && SameMessage(Refreshed(e.msg, ServedTtl(cfg, e, at)), e.msg)
  {
    GettersFollowTheirReads(cfg, r, i);
    OnlyTtlsChange(At(After(r), i).entry.msg, ServedTtl(cfg, At(After(r), i).entry, at));
  }

  // A TTL served at a time counts down to the expiry: with a second or more left it ends within
  // the second before the expiry; with less, less than a second after it, or a second after if
  // the reply was made at the very moment.
  predicate CountsDown(ttl: int, at: int, expiresAt: int) {
    && ttl >= 1
    && (at + 1_000_000_000 <= expiresAt ==> expiresAt - 1_000_000_000 < at + ttl * 1_000_000_000 <= expiresAt)
    && (at < expiresAt ==> at + ttl * 1_000_000_000 < expiresAt + 1_000_000_000)
    && (at >= expiresAt ==> ttl == 1)
  }

  lemma ServedTtlCountsDown(cfg: Config, e: Stored, at: int)
    requires e.expiresAt - at < U32_SIZE * SECOND
    ensures CountsDown(ServedTtl(cfg, e, at), at, e.expiresAt)
  {
  }

  lemma AllWithTtlHaveIt(rrs: seq<RR>, ttl: u32, rr: RR)
    requires rr in AllWithTtl(rrs, ttl) || (rr in ExtraWithTtl(rrs, ttl) && rr.hdr.rrtype != 41)
    ensures rr.hdr.ttl == ttl
  {
  }

  // The records of a hit carry a TTL of at least one second, and one that counts down to the
  // expiry of the entry while that is less than 2^32 seconds away.
  lemma HitsCountDown(cfg: Config, r: Run, i: nat, at: int, later: int, rr: RR)
    requires Legal(cfg, Then(r, Hit(i, at, later)))
    requires var e := At(After(r), i).entry; Ages(Refreshed(e.msg, ServedTtl(cfg, e, at)), rr)
    ensures rr.hdr.ttl >= 1
    ensures var e := At(After(r), i).entry;
            e.expiresAt - at < 0x1_0000_0000 * 1_000_000_000 ==> CountsDown(rr.hdr.ttl, at, e.expiresAt)
  {
    var e := At(After(r), i).entry;
    var ttl := ServedTtl(cfg, e, at);
    if rr in AllWithTtl(e.msg.answer, ttl) {
      AllWithTtlHaveIt(e.msg.answer, ttl, rr);
    } else if rr in AllWithTtl(e.msg.ns, ttl) {
      AllWithTtlHaveIt(e.msg.ns, ttl, rr);
    } else {
      AllWithTtlHaveIt(e.msg.extra, ttl, rr);
    }
    if e.expiresAt - at < U32_SIZE * SECOND {
      ServedTtlCountsDown(cfg, e, at);
    }
  }

  // Every lifetime fits the TTL field of a record.
  predicate ShortLived(cfg: Config) {
    cfg.maxTTL < U32_SIZE * SECOND && cfg.negativeTTL < U32_SIZE * SECOND
  }

  lemma HeldEntryIsLatest(cfg: Config, r: Run, i: nat)
    requires Legal(cfg, r) && At(After(r), i).Live?
    ensures Lookup(Latest(ReadBy(r, i)), KeyRead(r, i)) == Some(At(After(r), i).entry)
  {
    GettersFollowTheirReads(cfg, r, i);
  }

  lemma HeldTtlFits(cfg: Config, r: Run, i: nat, at: int)
    requires ShortLived(cfg) && Legal(cfg, r) && At(After(r), i).Live? && At(After(r), i).since <= at
    ensures At(After(r), i).entry.expiresAt - at < U32_SIZE * SECOND
  {
    HeldEntriesAreSound(cfg, r, i);
  }

  // No record has a longer TTL than the record in its place.
  ghost predicate NoLonger(rrs: seq<RR>, than: seq<RR>) {
    |rrs| == |than| && forall j :: 0 <= j < |rrs| ==> rrs[j].hdr.ttl <= than[j].hdr.ttl
  }

  lemma LessIsServed(msg: Msg, ttl: u32, less: u32)
    requires less <= ttl
    ensures var m, m2 := Refreshed(msg, ttl), Refreshed(msg, less);
            NoLonger(m2.answer, m.answer) && NoLonger(m2.ns, m.ns) && NoLonger(m2.extra, m.extra)
  {
  }

  lemma PrefetchStays(e: Stored, ratio: real, now: int, later: int)
    requires now <= later && ShouldPrefetch(e, ratio, now)
    ensures ShouldPrefetch(e, ratio, later)
  {
  }

  // Two hits, perhaps of runs that continue each other, on what one Set stored: no record of the
  // one that reads the clock later has a longer TTL, and it says prefetch if the earlier one did.
  lemma HitsAge(cfg: Config, r: Run, i: nat, at: int, later: int, r2: Run, j: nat, at2: int, later2: int)
    requires ShortLived(cfg) && Legal(cfg, Then(r, Hit(i, at, later))) && Legal(cfg, Then(r2, Hit(j, at2, later2)))
    requires KeyRead(r, i) == KeyRead(r2, j) && at <= at2 && later <= later2
    requires Lookup(Latest(ReadBy(r, i)), KeyRead(r, i)) == Lookup(Latest(ReadBy(r2, j)), KeyRead(r, i))
    ensures var e, e2 := At(After(r), i).entry, At(After(r2), j).entry;
            var m, m2 := Refreshed(e.msg, ServedTtl(cfg, e, at)), Refreshed(e2.msg, ServedTtl(cfg, e2, at2));
            && NoLonger(m2.answer, m.answer) && NoLonger(m2.ns, m.ns) && NoLonger(m2.extra, m.extra)
            && (ShouldPrefetch(e, cfg.prefetchRatio, later) ==> ShouldPrefetch(e2, cfg.prefetchRatio, later2))
  {
    HeldEntryIsLatest(cfg, r, i);
    HeldEntryIsLatest(cfg, r2, j);
    HeldTtlFits(cfg, r, i, at);
    var e := At(After(r), i).entry;
    LessIsServed(e.msg, ServedTtl(cfg, e, at), ServedTtl(cfg, e, at2));
    if ShouldPrefetch(e, cfg.prefetchRatio, later) {
      PrefetchStays(e, cfg.prefetchRatio, later, later2);
    }
  }

  // ---------- When a hit asks for a refresh ----------

  lemma ProductIsNonNegative(x: real, y: real)
    requires x >= 0.0 && y >= 0.0
    ensures x * y >= 0.0
  {
  }

  // The prefetch flag says that less than the given part of the lifetime is left: cutting the
  // threshold to whole nanoseconds changes nothing.
  lemma PrefetchThresholdIsExact(e: Stored, ratio: real, now: int)
    requires 0.0 <= ratio <= 1.0 && e.ttl >= 0
    ensures ShouldPrefetch(e, ratio, now) <==> (now - e.createdAt) as real > e.ttl as real * (1.0 - ratio)
  {
    ProductIsNonNegative(e.ttl as real, 1.0 - ratio);
  }

  // For other ratios and lifetimes the threshold is a whole number less than one nearer to zero.
  lemma PrefetchThresholdIsCut(e: Stored, ratio: real, now: int) returns (threshold: int)
    ensures ShouldPrefetch(e, ratio, now) <==> now - e.createdAt > threshold
    ensures var x := e.ttl as real * (1.0 - ratio);
            if x >= 0.0 then threshold as real <= x < threshold as real + 1.0
            else threshold as real - 1.0 < x <= threshold as real <= 0.0
  {
    var x := e.ttl as real * (1.0 - ratio);
    threshold := Trunc(x);
    assert ShouldPrefetch(e, ratio, now) <==> now - e.createdAt > Trunc(x);
  }
}
