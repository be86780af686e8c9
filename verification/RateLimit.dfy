// The per-IP token bucket of internal/ratelimit/ratelimit.go.  Clock readings are
// nanoseconds, token counts are reals.
module RateLimit {
  import opened Options

  const NANOS_PER_SECOND: int := 1_000_000_000

  datatype Config = Config(rate: int, burst: int, cleanup: int)

  datatype Bucket = Bucket(tokens: real, lastTime: int, blocked: nat)

  // What one client asked, and what it was told.
  datatype Visit = Visit(time: int, admitted: bool)

  // What happens to a limiter: a request, or a pass of the stale-bucket collector.
  datatype Event = Request(ip: string, time: int) | Sweep(time: int)

  datatype History = Nothing | Then(past: History, last: Event)

  // ---------- One bucket ----------

  function Seconds(nanos: int): real {
    nanos as real / NANOS_PER_SECOND as real
  }

  // n times x, kept away from the solver's nonlinear arithmetic.
  function Copies(n: int, x: real): real
    decreases if n < 0 then -n else n
  {
    if n == 0 then 0.0 else if n > 0 then Copies(n - 1, x) + x else Copies(n + 1, x) - x
  }

  lemma {:induction false} CopiesIsProduct(n: int, x: real)
    ensures Copies(n, x) == n as real * x
    decreases if n < 0 then -n else n
  {
    if n > 0 {
      CopiesIsProduct(n - 1, x);
    } else if n < 0 {
      CopiesIsProduct(n + 1, x);
    }
  }

  lemma {:induction false} CopiesAdd(n: int, x: real, y: real)
    ensures Copies(n, x + y) == Copies(n, x) + Copies(n, y)
    decreases if n < 0 then -n else n
  {
    if n > 0 {
      CopiesAdd(n - 1, x, y);
    } else if n < 0 {
      CopiesAdd(n + 1, x, y);
    }
  }

  // Tokens that accumulate between two instants.
  function Accrued(cfg: Config, from: int, to: int): real {
    Copies(cfg.rate, Seconds(to - from))
  }

  function CappedAt(cap: real, x: real): real {
    if x > cap then cap else x
  }

  // Tokens on hand when a request arrives: a new client gets a full bucket.
  function Available(cfg: Config, b: Option<Bucket>, now: int): real {
    match b
    case None => cfg.burst as real
    case Some(b) => CappedAt(cfg.burst as real, b.tokens + Accrued(cfg, b.lastTime, now))
  }

  function Decide(cfg: Config, b: Option<Bucket>, now: int): bool {
    Available(cfg, b, now) >= 1.0
  }

  function Serve(cfg: Config, b: Option<Bucket>, now: int): Bucket {
    var tokens := Available(cfg, b, now);
    var blocked := if b.Some? then b.value.blocked else 0;
    if tokens >= 1.0 then Bucket(tokens - 1.0, now, blocked) else Bucket(tokens, now, blocked + 1)
  }

  // The bucket of a client that asked at these times, and what it was told.
  function BucketAfter(cfg: Config, times: seq<int>): Option<Bucket> {
    if times == [] then None
    else Some(Serve(cfg, BucketAfter(cfg, times[..|times| - 1]), times[|times| - 1]))
  }

  function Visits(cfg: Config, times: seq<int>): (h: seq<Visit>)
    ensures |h| == |times|
    ensures forall i :: 0 <= i < |h| ==> h[i].time == times[i]
  {
    if times == [] then []
    else
      var before, now := times[..|times| - 1], times[|times| - 1];
      Visits(cfg, before) + [Visit(now, Decide(cfg, BucketAfter(cfg, before), now))]
  }

  function Admitted(h: seq<Visit>): nat {
    if h == [] then 0
    else Admitted(h[..|h| - 1]) + if h[|h| - 1].admitted then 1 else 0
  }

  // What the window from visit i up to `now` still has room for.
  function Headroom(cfg: Config, h: seq<Visit>, i: nat, now: int): real
    requires i < |h|
  {
    cfg.burst as real + Accrued(cfg, h[i].time, now) - Admitted(h[i..]) as real
  }

  // One more request at `now` breaks neither the burst nor any window opened earlier.
  ghost predicate FitsEveryWindow(cfg: Config, h: seq<Visit>, now: int) {
    && 1 <= cfg.burst
    && forall i :: 0 <= i < |h| ==> Headroom(cfg, h, i, now) >= 1.0
  }

  lemma AccruedAdds(cfg: Config, a: int, b: int, c: int)
    ensures Accrued(cfg, a, c) == Accrued(cfg, a, b) + Accrued(cfg, b, c)
  {
    CopiesAdd(cfg.rate, Seconds(b - a), Seconds(c - b));
    assert Seconds(c - a) == Seconds(b - a) + Seconds(c - b);
  }

  // Tokens accrue at the configured rate per second.
  lemma AccruesAtTheRate(cfg: Config, from: int, to: int)
    ensures Accrued(cfg, from, to) == cfg.rate as real * ((to - from) as real / 1_000_000_000.0)
  {
    CopiesIsProduct(cfg.rate, Seconds(to - from));
  }

  lemma NothingAccruesAtOnce(cfg: Config, now: int)
    ensures Accrued(cfg, now, now) == 0.0
  {
    AccruedAdds(cfg, now, now, now);
  }

  lemma {:induction false} CopiesNonNegative(n: nat, x: real)
    requires x >= 0.0
    ensures Copies(n, x) >= 0.0
  {
    if n > 0 {
      CopiesNonNegative(n - 1, x);
    }
  }

  lemma AccruedMonotone(cfg: Config, from: int, to: int)
    requires cfg.rate >= 0 && from <= to
    ensures Accrued(cfg, from, to) >= 0.0
  {
    CopiesNonNegative(cfg.rate, Seconds(to - from));
  }

  lemma HeadroomGrows(cfg: Config, h: seq<Visit>, i: nat, earlier: int, now: int)
    requires i < |h|
    ensures Headroom(cfg, h, i, now) == Headroom(cfg, h, i, earlier) + Accrued(cfg, earlier, now)
  {
    AccruedAdds(cfg, h[i].time, earlier, now);
  }

  lemma HeadroomAfterVisit(cfg: Config, h: seq<Visit>, v: Visit, i: nat)
    requires i < |h|
    ensures Headroom(cfg, h + [v], i, v.time) == Headroom(cfg, h, i, v.time) - if v.admitted then 1.0 else 0.0
  {
    assert (h + [v])[i..] == h[i..] + [v];
    assert (h[i..] + [v])[..|h[i..]|] == h[i..];
  }

  // The token count is the headroom of the tightest window.
  lemma {:induction false} TokensAreTightestHeadroom(cfg: Config, times: seq<int>) returns (tightest: nat)
    requires times != []
    ensures tightest < |times|
    ensures var h, b := Visits(cfg, times), BucketAfter(cfg, times).value;
      && b.lastTime == times[|times| - 1]
      && b.tokens == Headroom(cfg, h, tightest, b.lastTime)
      && forall i :: 0 <= i < |h| ==> b.tokens <= Headroom(cfg, h, i, b.lastTime)
  {
    var before, now := times[..|times| - 1], times[|times| - 1];
    var h, b := Visits(cfg, times), BucketAfter(cfg, times).value;
    var past, v := Visits(cfg, before), h[|h| - 1];
    assert h == past + [v];
    NothingAccruesAtOnce(cfg, now);
    assert h[|past|..] == [v] && [v][..0] == [] && Admitted([v][..0]) == 0;
    tightest := |past|;
    if before != [] {
      var t := TokensAreTightestHeadroom(cfg, before);
      var earlier := BucketAfter(cfg, before).value.lastTime;
      forall i | 0 <= i < |past|
        ensures Headroom(cfg, h, i, now)
             == Headroom(cfg, past, i, earlier) + Accrued(cfg, earlier, now) - if v.admitted then 1.0 else 0.0
      {
        HeadroomGrows(cfg, past, i, earlier, now);
        HeadroomAfterVisit(cfg, past, v, i);
      }
      if b.tokens != Headroom(cfg, h, tightest, now) {
        tightest := t;
      }
    }
  }

  // Exact law of admission, for every configuration and every history of one client.
  lemma AdmitsExactlyWhatFits(cfg: Config, times: seq<int>, now: int)
    ensures Decide(cfg, BucketAfter(cfg, times), now) <==> FitsEveryWindow(cfg, Visits(cfg, times), now)
  {
    if times != [] {
      var tightest := TokensAreTightestHeadroom(cfg, times);
      var h, b := Visits(cfg, times), BucketAfter(cfg, times).value;
      forall i | 0 <= i < |h|
        ensures Headroom(cfg, h, i, now) == Headroom(cfg, h, i, b.lastTime) + Accrued(cfg, b.lastTime, now)
      {
        HeadroomGrows(cfg, h, i, b.lastTime, now);
      }
    }
  }

  // ---------- The bound on every interval of time ----------

  ghost predicate NonDecreasing(times: seq<int>) {
    forall i, j :: 0 <= i < j < |times| ==> times[i] <= times[j]
  }

  function AdmittedBetween(h: seq<Visit>, from: int, to: int): nat {
    if h == [] then 0
    else
      var v := h[|h| - 1];
      AdmittedBetween(h[..|h| - 1], from, to) + if v.admitted && from <= v.time <= to then 1 else 0
  }

  // With an ordered history, the visits from an instant on are a suffix.
  lemma {:induction false} SuffixFrom(h: seq<Visit>, from: int, to: int) returns (i: nat)
    requires forall j, k :: 0 <= j < k < |h| ==> h[j].time <= h[k].time
    requires forall j :: 0 <= j < |h| ==> h[j].time <= to
    ensures i <= |h| && (i < |h| ==> from <= h[i].time)
    ensures forall j :: 0 <= j < i ==> h[j].time < from
    ensures AdmittedBetween(h, from, to) == Admitted(h[i..])
  {
    i := 0;
    if h != [] {
      var n := |h| - 1;
      var k := SuffixFrom(h[..n], from, to);
      if k == n && h[n].time < from {
        i := n + 1;
        assert h[i..] == [] && h[..n][k..] == [];
      } else {
        i := k;
        assert h[i..][..|h[i..]| - 1] == h[..n][i..];
      }
    }
  }

  lemma {:induction false} EveryIntervalIsBounded(cfg: Config, times: seq<int>, from: int, to: int)
    requires cfg.rate >= 0 && cfg.burst >= 0 && from <= to
    requires NonDecreasing(times)
    ensures AdmittedBetween(Visits(cfg, times), from, to) as real <= cfg.burst as real + Accrued(cfg, from, to)
  {
    AccruedMonotone(cfg, from, to);
    if times != [] {
      var before, now := times[..|times| - 1], times[|times| - 1];
      var h, past := Visits(cfg, times), Visits(cfg, before);
      assert h[..|h| - 1] == past;
      EveryIntervalIsBounded(cfg, before, from, to);
      if h[|h| - 1].admitted && from <= now <= to {
        AdmitsExactlyWhatFits(cfg, before, now);
        var i := SuffixFrom(past, from, to);
        var start := if i < |past| then past[i].time else now;
        AccruedAdds(cfg, from, start, to);
        AccruedAdds(cfg, start, now, to);
        AccruedMonotone(cfg, from, start);
        AccruedMonotone(cfg, now, to);
        if i < |past| {
          assert Headroom(cfg, past, i, now) >= 1.0;
        } else {
          assert past[i..] == [];
        }
      }
    }
  }

  // ---------- The limiter ----------

  function Stale(cfg: Config, b: Bucket, now: int): bool {
    b.lastTime < now - cfg.cleanup * 2
  }

  function Swept(cfg: Config, buckets: map<string, Bucket>, now: int): map<string, Bucket> {
    map ip | ip in buckets && !Stale(cfg, buckets[ip], now) :: buckets[ip]
  }

  function Apply(cfg: Config, buckets: map<string, Bucket>, e: Event): map<string, Bucket> {
    match e
    case Request(ip, now) => buckets[ip := Serve(cfg, Lookup(buckets, ip), now)]
    case Sweep(now) => Swept(cfg, buckets, now)
  }

  // The bucket table after a run.
  function Run(cfg: Config, run: History): map<string, Bucket> {
    match run
    case Nothing => map[]
    case Then(past, e) => Apply(cfg, Run(cfg, past), e)
  }

  // The answer a request gets after a run, and the tokens it finds.
  function Answer(cfg: Config, run: History, ip: string, now: int): bool {
    Decide(cfg, Lookup(Run(cfg, run), ip), now)
  }

  function Tokens(cfg: Config, run: History, ip: string, now: int): real {
    Available(cfg, Lookup(Run(cfg, run), ip), now)
  }

  // The request times of one client in a run.
  function TimesOf(run: History, ip: string): seq<int> {
    match run
    case Nothing => []
    case Then(past, e) =>
      if e.Request? && e.ip == ip then TimesOf(past, ip) + [e.time] else TimesOf(past, ip)
  }

  // The same run on a limiter that never deletes a bucket.
  function WithoutSweeps(run: History): History {
    match run
    case Nothing => Nothing
    case Then(past, e) => if e.Sweep? then WithoutSweeps(past) else Then(WithoutSweeps(past), e)
  }

  predicate Sweepless(run: History) {
    run.Then? ==> run.last.Request? && Sweepless(run.past)
  }

  // Clock readings do not decrease, up to `now`.
  predicate Ordered(run: History, now: int) {
    run.Then? ==> run.last.time <= now && Ordered(run.past, run.last.time)
  }

  // ---------- Clients do not see each other ----------

  lemma OneMoreVisit(cfg: Config, times: seq<int>, now: int)
    ensures BucketAfter(cfg, times + [now]) == Some(Serve(cfg, BucketAfter(cfg, times), now))
    ensures Visits(cfg, times + [now])
         == Visits(cfg, times) + [Visit(now, Decide(cfg, BucketAfter(cfg, times), now))]
  {
    assert (times + [now])[..|times|] == times;
  }

  lemma {:induction false} OtherClientsNeverMatter(cfg: Config, run: History, ip: string)
    requires Sweepless(run)
    ensures Lookup(Run(cfg, run), ip) == BucketAfter(cfg, TimesOf(run, ip))
  {
    if run.Then? {
      OtherClientsNeverMatter(cfg, run.past, ip);
      OneMoreVisit(cfg, TimesOf(run.past, ip), run.last.time);
    }
  }

  // ---------- When the collector is invisible ----------

  // Buckets idle long enough to be collected are full again, or no request is ever admitted.
  predicate CollectorIsSafe(cfg: Config) {
    cfg.burst <= 0 || Accrued(cfg, 0, 2 * cfg.cleanup + 1) >= cfg.burst as real
  }

  // The condition in integers, as an operator would check it.
  lemma SafeInIntegers(cfg: Config)
    ensures CollectorIsSafe(cfg) <==>
      cfg.burst <= 0 || cfg.rate * (2 * cfg.cleanup + 1) >= cfg.burst * NANOS_PER_SECOND
  {
    var idle := 2 * cfg.cleanup + 1;
    CopiesIsProduct(cfg.rate, Seconds(idle));
    assert cfg.rate as real * Seconds(idle) == (cfg.rate * idle) as real / NANOS_PER_SECOND as real;
  }

  // On no run does the collector change an answer.
  ghost predicate CollectorIsInvisible(cfg: Config) {
    forall run, ip, now | Ordered(run, now) ::
      Answer(cfg, run, ip, now) == Answer(cfg, WithoutSweeps(run), ip, now)
  }

  lemma {:induction false} SweeplessShape(run: History, ip: string)
    ensures Sweepless(WithoutSweeps(run))
    ensures TimesOf(WithoutSweeps(run), ip) == TimesOf(run, ip)
  {
    if run.Then? {
      SweeplessShape(run.past, ip);
    }
  }

  // The swept table agrees with the unswept one, up to buckets that have filled up again.
  ghost predicate SameButForFull(cfg: Config, swept: Option<Bucket>, kept: Option<Bucket>, now: int) {
    if swept.Some? then
      kept.Some? && kept.value.tokens == swept.value.tokens && kept.value.lastTime == swept.value.lastTime
    else kept.None? || (kept.value.lastTime <= now && kept.value.tokens >= 0.0
                        && now - kept.value.lastTime >= 2 * cfg.cleanup + 1)
  }

  lemma FullAfterIdle(cfg: Config, b: Bucket, now: int)
    requires CollectorIsSafe(cfg) && 1 <= cfg.burst && 0 <= cfg.rate
    requires b.tokens >= 0.0 && now - b.lastTime >= 2 * cfg.cleanup + 1
    ensures Available(cfg, Some(b), now) == cfg.burst as real
  {
    var full := b.lastTime + 2 * cfg.cleanup + 1;
    AccruedAdds(cfg, b.lastTime, full, now);
    AccruedMonotone(cfg, full, now);
    assert Accrued(cfg, b.lastTime, full) == Accrued(cfg, 0, 2 * cfg.cleanup + 1);
  }

  lemma ServeKeepsTokensNonNegative(cfg: Config, b: Option<Bucket>, now: int)
    requires 1 <= cfg.burst && 0 <= cfg.rate
    requires b.Some? ==> b.value.lastTime <= now && b.value.tokens >= 0.0
    ensures Serve(cfg, b, now).tokens >= 0.0
  {
    if b.Some? {
      AccruedMonotone(cfg, b.value.lastTime, now);
    }
  }

  lemma ServeKeepsAgreement(cfg: Config, swept: Option<Bucket>, kept: Option<Bucket>, now: int)
    requires CollectorIsSafe(cfg) && 1 <= cfg.burst && 0 <= cfg.rate
    requires kept.Some? ==> kept.value.lastTime <= now && kept.value.tokens >= 0.0
    requires SameButForFull(cfg, swept, kept, now)
    ensures Available(cfg, swept, now) == Available(cfg, kept, now)
    ensures Serve(cfg, swept, now).tokens == Serve(cfg, kept, now).tokens >= 0.0
  {
    ServeKeepsTokensNonNegative(cfg, kept, now);
    if kept.Some? && swept.None? {
      FullAfterIdle(cfg, kept.value, now);
    }
  }

  lemma {:induction false} SweepsOnlyDropFullBuckets(cfg: Config, run: History, ip: string, now: int)
    requires CollectorIsSafe(cfg) && 1 <= cfg.burst && 0 <= cfg.rate && 0 < cfg.cleanup
    requires Ordered(run, now)
    ensures var kept := Lookup(Run(cfg, WithoutSweeps(run)), ip);
      && (kept.Some? ==> kept.value.lastTime <= now && kept.value.tokens >= 0.0)
      && SameButForFull(cfg, Lookup(Run(cfg, run), ip), kept, now)
  {
    if run.Then? {
      var e := run.last;
      SweepsOnlyDropFullBuckets(cfg, run.past, ip, e.time);
      if e.Request? && e.ip == ip {
        ServeKeepsAgreement(cfg, Lookup(Run(cfg, run.past), ip), Lookup(Run(cfg, WithoutSweeps(run.past)), ip), e.time);
      }
    }
  }

  lemma {:induction false} CopiesOpposite(n: int, x: real)
    requires n <= 0
    ensures Copies(-n, x) == -Copies(n, x)
    decreases -n
  {
    if n < 0 {
      CopiesOpposite(n + 1, x);
    }
  }

  lemma SafeRateIsPositive(cfg: Config)
    requires CollectorIsSafe(cfg) && 1 <= cfg.burst && 0 < cfg.cleanup
    ensures 0 < cfg.rate
  {
    if cfg.rate <= 0 {
      CopiesOpposite(cfg.rate, Seconds(2 * cfg.cleanup + 1));
      CopiesNonNegative(-cfg.rate, Seconds(2 * cfg.cleanup + 1));
    }
  }

  // Same tokens found by every request, hence the same answer.
  lemma SafeCollectorKeepsTokens(cfg: Config, run: History, ip: string, now: int)
    requires CollectorIsSafe(cfg) && 1 <= cfg.burst && 0 < cfg.cleanup
    requires Ordered(run, now)
    ensures Tokens(cfg, run, ip, now) == Tokens(cfg, WithoutSweeps(run), ip, now)
  {
    SafeRateIsPositive(cfg);
    SweepsOnlyDropFullBuckets(cfg, run, ip, now);
    ServeKeepsAgreement(cfg, Lookup(Run(cfg, run), ip), Lookup(Run(cfg, WithoutSweeps(run)), ip), now);
  }

  // The run continued by k requests of one client at one instant.
  function Volley(run: History, ip: string, now: int, k: nat): History {
    if k == 0 then run else Then(Volley(run, ip, now, k - 1), Request(ip, now))
  }

  lemma {:induction false} VolleyKeepsShape(run: History, ip: string, now: int, k: nat)
    requires Ordered(run, now)
    ensures Ordered(Volley(run, ip, now, k), now)
    ensures WithoutSweeps(Volley(run, ip, now, k)) == Volley(WithoutSweeps(run), ip, now, k)
  {
    if k > 0 {
      VolleyKeepsShape(run, ip, now, k - 1);
    }
  }

  // The volley of a new client is admitted while the burst lasts.
  lemma {:induction false} VolleySpendsBurst(cfg: Config, run: History, ip: string, now: int, k: nat)
    requires ip !in Run(cfg, run) && k <= cfg.burst
    ensures var b := Lookup(Run(cfg, Volley(run, ip, now, k)), ip);
      && (if k == 0 then b.None? else
            b.Some? && b.value.lastTime == now && b.value.tokens == (cfg.burst - k) as real)
      && Available(cfg, b, now) == (cfg.burst - k) as real
  {
    if k > 0 {
      VolleySpendsBurst(cfg, run, ip, now, k - 1);
      NothingAccruesAtOnce(cfg, now);
    }
  }

  // A client spends its burst, is collected as soon as it may be, and asks k more times.
  function SpendAndReturn(cfg: Config, ip: string, k: nat): History
    requires 1 <= cfg.burst
  {
    var now := 2 * cfg.cleanup + 1;
    Volley(Then(Volley(Nothing, ip, 0, cfg.burst), Sweep(now)), ip, now, k)
  }

  lemma SpendAndReturnShape(cfg: Config, ip: string, k: nat)
    requires 1 <= cfg.burst && 0 < cfg.cleanup
    ensures var now := 2 * cfg.cleanup + 1;
      && Ordered(SpendAndReturn(cfg, ip, k), now)
      && WithoutSweeps(SpendAndReturn(cfg, ip, k)) == Volley(Volley(Nothing, ip, 0, cfg.burst), ip, now, k)
  {
    var now := 2 * cfg.cleanup + 1;
    VolleyKeepsShape(Nothing, ip, 0, cfg.burst);
    VolleyKeepsShape(Then(Volley(Nothing, ip, 0, cfg.burst), Sweep(now)), ip, now, k);
  }

  // With the collector, the returning client is served a whole second burst.
  lemma CollectedClientIsServed(cfg: Config, ip: string, k: nat)
    requires 0 < cfg.cleanup && k < cfg.burst
    ensures Answer(cfg, SpendAndReturn(cfg, ip, k), ip, 2 * cfg.cleanup + 1)
  {
    var now := 2 * cfg.cleanup + 1;
    var first := Volley(Nothing, ip, 0, cfg.burst);
    VolleySpendsBurst(cfg, Nothing, ip, 0, cfg.burst);
    VolleySpendsBurst(cfg, Then(first, Sweep(now)), ip, now, k);
  }

  // Without it, one of those requests is refused.
  lemma {:induction false} KeptClientIsRefused(cfg: Config, run: History, ip: string, k: nat) returns (j: nat)
    requires k < cfg.burst && !CollectorIsSafe(cfg)
    requires var now := 2 * cfg.cleanup + 1;
      Tokens(cfg, Volley(run, ip, now, k), ip, now) == Accrued(cfg, 0, now) - k as real
    ensures j < cfg.burst && !Answer(cfg, Volley(run, ip, 2 * cfg.cleanup + 1, j), ip, 2 * cfg.cleanup + 1)
    decreases cfg.burst - k
  {
    var now := 2 * cfg.cleanup + 1;
    j := k;
    if Answer(cfg, Volley(run, ip, now, k), ip, now) {
      NothingAccruesAtOnce(cfg, now);
      j := KeptClientIsRefused(cfg, run, ip, k + 1);
    }
  }

  // The exact condition under which collecting stale buckets never changes an answer.
  lemma CollectorInvisibleExactlyWhenSafe(cfg: Config)
    requires 0 < cfg.cleanup
    ensures CollectorIsInvisible(cfg) <==> CollectorIsSafe(cfg)
  {
    if CollectorIsSafe(cfg) {
      forall run, ip, now | Ordered(run, now)
        ensures Answer(cfg, run, ip, now) == Answer(cfg, WithoutSweeps(run), ip, now)
      {
        if 1 <= cfg.burst {
          SafeCollectorKeepsTokens(cfg, run, ip, now);
        }
      }
    } else {
      var ip := "192.0.2.1";
      VolleySpendsBurst(cfg, Nothing, ip, 0, cfg.burst);
      var k := KeptClientIsRefused(cfg, Volley(Nothing, ip, 0, cfg.burst), ip, 0);
      SpendAndReturnShape(cfg, ip, k);
      CollectedClientIsServed(cfg, ip, k);
    }
  }

  // ---------- The law of the whole limiter ----------

  // What one client was told during a run.
  function Told(cfg: Config, run: History, ip: string): seq<Visit> {
    match run
    case Nothing => []
    case Then(past, e) =>
      if e.Request? && e.ip == ip then Told(cfg, past, ip) + [Visit(e.time, Answer(cfg, past, ip, e.time))]
      else Told(cfg, past, ip)
  }

  lemma SafeAnswerIsOwnAnswer(cfg: Config, run: History, ip: string, now: int)
    requires CollectorIsSafe(cfg) && 0 < cfg.cleanup && Ordered(run, now)
    ensures Answer(cfg, run, ip, now) == Decide(cfg, BucketAfter(cfg, TimesOf(run, ip)), now)
  {
    if 1 <= cfg.burst {
      SafeCollectorKeepsTokens(cfg, run, ip, now);
    }
    SweeplessShape(run, ip);
    OtherClientsNeverMatter(cfg, WithoutSweeps(run), ip);
  }

  lemma {:induction false} ToldIsOwnHistory(cfg: Config, run: History, ip: string, now: int)
    requires CollectorIsSafe(cfg) && 0 < cfg.cleanup && Ordered(run, now)
    ensures Told(cfg, run, ip) == Visits(cfg, TimesOf(run, ip))
  {
    if run.Then? {
      ToldIsOwnHistory(cfg, run.past, ip, run.last.time);
      SafeAnswerIsOwnAnswer(cfg, run.past, ip, run.last.time);
      OneMoreVisit(cfg, TimesOf(run.past, ip), run.last.time);
    }
  }

  lemma {:induction false} TimesAreOrdered(run: History, ip: string, now: int)
    requires Ordered(run, now)
    ensures NonDecreasing(TimesOf(run, ip))
    ensures forall i :: 0 <= i < |TimesOf(run, ip)| ==> TimesOf(run, ip)[i] <= now
  {
    if run.Then? {
      TimesAreOrdered(run.past, ip, run.last.time);
    }
  }

  // A request is admitted exactly when it breaks no window over what its own client was told,
  // whatever other clients did and whenever the collector ran.
  lemma LimiterAdmitsExactlyWhatFits(cfg: Config, run: History, ip: string, now: int)
    requires CollectorIsSafe(cfg) && 0 < cfg.cleanup && Ordered(run, now)
    ensures Answer(cfg, run, ip, now) <==> FitsEveryWindow(cfg, Told(cfg, run, ip), now)
  {
    SafeAnswerIsOwnAnswer(cfg, run, ip, now);
    ToldIsOwnHistory(cfg, run, ip, now);
    AdmitsExactlyWhatFits(cfg, TimesOf(run, ip), now);
  }

  // No client gets more than the burst plus the accrued rate in any interval of time.
  lemma LimiterBoundsEveryInterval(cfg: Config, run: History, ip: string, now: int, from: int, to: int)
    requires CollectorIsSafe(cfg) && 0 < cfg.cleanup && Ordered(run, now)
    requires cfg.rate >= 0 && cfg.burst >= 0 && from <= to
    ensures AdmittedBetween(Told(cfg, run, ip), from, to) as real <= cfg.burst as real + Accrued(cfg, from, to)
  {
    ToldIsOwnHistory(cfg, run, ip, now);
    TimesAreOrdered(run, ip, now);
    EveryIntervalIsBounded(cfg, TimesOf(run, ip), from, to);
  }

  // ---------- When every interval is bounded ----------

  ghost predicate BoundsEveryInterval(cfg: Config) {
    forall run, ip, now, from, to | Ordered(run, now) && from <= to ::
      AdmittedBetween(Told(cfg, run, ip), from, to) as real <= cfg.burst as real + Accrued(cfg, from, to)
  }

  lemma OneMoreTold(h: seq<Visit>, v: Visit, from: int, to: int)
    ensures AdmittedBetween(h + [v], from, to)
         == AdmittedBetween(h, from, to) + if v.admitted && from <= v.time <= to then 1 else 0
  {
    assert (h + [v])[..|h|] == h;
  }

  // The whole volley of a client without a bucket is admitted, up to the burst.
  lemma {:induction false} VolleyIsAdmitted(cfg: Config, run: History, ip: string, now: int, k: nat, from: int, to: int)
    requires ip !in Run(cfg, run) && k <= cfg.burst && from <= now <= to
    ensures AdmittedBetween(Told(cfg, Volley(run, ip, now, k), ip), from, to)
         == AdmittedBetween(Told(cfg, run, ip), from, to) + k
  {
    if k > 0 {
      var before := Volley(run, ip, now, k - 1);
      VolleyIsAdmitted(cfg, run, ip, now, k - 1, from, to);
      VolleySpendsBurst(cfg, run, ip, now, k - 1);
      OneMoreTold(Told(cfg, before, ip), Visit(now, Answer(cfg, before, ip, now)), from, to);
    }
  }

  lemma SpentBucketIsCollected(cfg: Config, ip: string)
    requires 0 < cfg.cleanup && 1 <= cfg.burst
    ensures ip !in Run(cfg, Then(Volley(Nothing, ip, 0, cfg.burst), Sweep(2 * cfg.cleanup + 1)))
  {
    VolleySpendsBurst(cfg, Nothing, ip, 0, cfg.burst);
  }

  // A client that spends its burst, is collected and returns is admitted two bursts.
  lemma TwoBurstsAreAdmitted(cfg: Config, ip: string)
    requires 0 < cfg.cleanup && 1 <= cfg.burst
    ensures AdmittedBetween(Told(cfg, SpendAndReturn(cfg, ip, cfg.burst), ip), 0, 2 * cfg.cleanup + 1) == 2 * cfg.burst
  {
    var now := 2 * cfg.cleanup + 1;
    var first := Volley(Nothing, ip, 0, cfg.burst);
    var swept := Then(first, Sweep(now));
    VolleyIsAdmitted(cfg, Nothing, ip, 0, cfg.burst, 0, now);
    assert Told(cfg, swept, ip) == Told(cfg, first, ip) && Told(cfg, Nothing, ip) == [];
    SpentBucketIsCollected(cfg, ip);
    VolleyIsAdmitted(cfg, swept, ip, now, cfg.burst, 0, now);
    assert SpendAndReturn(cfg, ip, cfg.burst) == Volley(swept, ip, now, cfg.burst);
  }

  // The limiter bounds every interval of every run exactly when its collector is safe.
  lemma BoundsEveryIntervalExactlyWhenSafe(cfg: Config)
    requires 0 < cfg.cleanup && cfg.rate >= 0 && cfg.burst >= 0
    ensures BoundsEveryInterval(cfg) <==> CollectorIsSafe(cfg)
  {
    if CollectorIsSafe(cfg) {
      forall run, ip, now, from, to | Ordered(run, now) && from <= to
        ensures AdmittedBetween(Told(cfg, run, ip), from, to) as real <= cfg.burst as real + Accrued(cfg, from, to)
      {
        LimiterBoundsEveryInterval(cfg, run, ip, now, from, to);
      }
    } else {
      var ip, now := "192.0.2.1", 2 * cfg.cleanup + 1;
      TwoBurstsAreAdmitted(cfg, ip);
      SpendAndReturnShape(cfg, ip, cfg.burst);
      assert !(AdmittedBetween(Told(cfg, SpendAndReturn(cfg, ip, cfg.burst), ip), 0, now) as real
               <= cfg.burst as real + Accrued(cfg, 0, now));
    }
  }

  // ---------- The law of any configuration ----------

  // The bucket of a client seen last at this time is collected.
  predicate Collected(cfg: Config, last: int, now: int) {
    last < now - cfg.cleanup * 2
  }

  // The request times of a client since its bucket was last collected.
  function TimesSince(cfg: Config, run: History, ip: string): seq<int> {
    match run
    case Nothing => []
    case Then(past, Request(other, now)) =>
      if other == ip then TimesSince(cfg, past, ip) + [now] else TimesSince(cfg, past, ip)
    case Then(past, Sweep(now)) =>
      var times := TimesSince(cfg, past, ip);
      if times != [] && Collected(cfg, times[|times| - 1], now) then [] else times
  }

  // What it was told since then.
  function ToldSince(cfg: Config, run: History, ip: string): seq<Visit> {
    match run
    case Nothing => []
    case Then(past, Request(other, now)) =>
      if other == ip then ToldSince(cfg, past, ip) + [Visit(now, Answer(cfg, past, ip, now))]
      else ToldSince(cfg, past, ip)
    case Then(past, Sweep(now)) =>
      var h := ToldSince(cfg, past, ip);
      if h != [] && Collected(cfg, h[|h| - 1].time, now) then [] else h
  }

  lemma {:induction false} BucketIsOfTimesSince(cfg: Config, run: History, ip: string)
    ensures Lookup(Run(cfg, run), ip) == BucketAfter(cfg, TimesSince(cfg, run, ip))
  {
    if run.Then? {
      BucketIsOfTimesSince(cfg, run.past, ip);
      if run.last.Request? {
        OneMoreVisit(cfg, TimesSince(cfg, run.past, ip), run.last.time);
      }
    }
  }

  lemma {:induction false} ToldSinceIsOwnHistory(cfg: Config, run: History, ip: string)
    ensures ToldSince(cfg, run, ip) == Visits(cfg, TimesSince(cfg, run, ip))
  {
    if run.Then? {
      ToldSinceIsOwnHistory(cfg, run.past, ip);
      if run.last.Request? {
        BucketIsOfTimesSince(cfg, run.past, ip);
        OneMoreVisit(cfg, TimesSince(cfg, run.past, ip), run.last.time);
      }
    }
  }

  // For every configuration, every run and every clock: a request is admitted exactly when it
  // breaks no window over what its client was told since its bucket was last collected.
  lemma AdmitsExactlyWhatFitsSinceCollection(cfg: Config, run: History, ip: string, now: int)
    ensures Answer(cfg, run, ip, now) <==> FitsEveryWindow(cfg, ToldSince(cfg, run, ip), now)
  {
    BucketIsOfTimesSince(cfg, run, ip);
    ToldSinceIsOwnHistory(cfg, run, ip);
    AdmitsExactlyWhatFits(cfg, TimesSince(cfg, run, ip), now);
  }

  lemma {:induction false} RefusedIsTheRest(cfg: Config, times: seq<int>)
    requires times != []
    ensures BucketAfter(cfg, times).value.blocked + Admitted(Visits(cfg, times)) == |times|
    ensures BucketAfter(cfg, times).value.lastTime == times[|times| - 1]
  {
    var before, now := times[..|times| - 1], times[|times| - 1];
    OneMoreVisit(cfg, before, now);
    assert times == before + [now];
    var h := Visits(cfg, times);
    assert h[..|h| - 1] == Visits(cfg, before);
    if before != [] {
      RefusedIsTheRest(cfg, before);
    }
  }

  // The count of a bucket is the number of requests refused since its client was last collected,
  // and its time that of the last request.
  lemma BlockedCountsTheRefused(cfg: Config, run: History, ip: string)
    ensures Lookup(Run(cfg, run), ip).Some? <==> ToldSince(cfg, run, ip) != []
    ensures ToldSince(cfg, run, ip) != [] ==>
      var b, told := Lookup(Run(cfg, run), ip).value, ToldSince(cfg, run, ip);
      b.blocked == |told| - Admitted(told) && b.lastTime == told[|told| - 1].time
  {
    BucketIsOfTimesSince(cfg, run, ip);
    ToldSinceIsOwnHistory(cfg, run, ip);
    if TimesSince(cfg, run, ip) != [] {
      RefusedIsTheRest(cfg, TimesSince(cfg, run, ip));
    }
  }

  // ---------- The object ----------

  class Limiter {
    const cfg: Config
    var buckets: map<string, Bucket>
    var clock: int
    ghost var log: History

    ghost predicate Valid()
      reads this
    {
      buckets == Run(cfg, log) && Ordered(log, clock)
    }

    constructor (requestsPerSec: int, burstSize: int, cleanupInterval: int)
      ensures Valid() && log == Nothing
      ensures cfg == Config(requestsPerSec, burstSize, cleanupInterval)
    {
      cfg := Config(requestsPerSec, burstSize, cleanupInterval);
      buckets := map[];
      log := Nothing;
    }

    method Now() returns (now: int)
      modifies this`clock
      ensures old(clock) <= clock == now
    {
      var passed: int := *;
      if passed > 0 {
        clock := clock + passed;
      }
      now := clock;
    }

    // Tokens earned since the last request, as the code computes them.
    method Earned(lastTime: int, now: int) returns (earned: real)
      ensures earned == Accrued(cfg, lastTime, now)
    {
      var elapsed := Seconds(now - lastTime);
      earned := elapsed * cfg.rate as real;
      CopiesIsProduct(cfg.rate, elapsed);
    }

    method Take(ip: string, now: int) returns (allowed: bool)
      requires buckets == Run(cfg, log)
      modifies this`buckets, this`log
      ensures buckets == Run(cfg, log) && log == Then(old(log), Request(ip, now))
      ensures allowed == Answer(cfg, old(log), ip, now)
    {
      NothingAccruesAtOnce(cfg, now);
      var b := Bucket(cfg.burst as real, now, 0);
      if ip in buckets {
        b := buckets[ip];
      }
      var earned := Earned(b.lastTime, now);
      b := b.(tokens := b.tokens + earned);
      if b.tokens > cfg.burst as real {
        b := b.(tokens := cfg.burst as real);
      }
      b := b.(lastTime := now);
      allowed := b.tokens >= 1.0;
      if allowed {
        b := b.(tokens := b.tokens - 1.0);
      } else {
        b := b.(blocked := b.blocked + 1);
      }
      buckets := buckets[ip := b];
      log := Then(log, Request(ip, now));
    }

    method Allow(ip: string) returns (allowed: bool)
      requires Valid()
      modifies this
      ensures Valid() && log == Then(old(log), Request(ip, clock)) && old(clock) <= clock
      ensures allowed == Answer(cfg, old(log), ip, clock)
      ensures allowed <==> FitsEveryWindow(cfg, ToldSince(cfg, old(log), ip), clock)
      ensures CollectorIsSafe(cfg) && 0 < cfg.cleanup ==>
                (allowed <==> FitsEveryWindow(cfg, Told(cfg, old(log), ip), clock))
    {
      var now := Now();
      if CollectorIsSafe(cfg) && 0 < cfg.cleanup {
        LimiterAdmitsExactlyWhatFits(cfg, log, ip, now);
      }
      AdmitsExactlyWhatFitsSinceCollection(cfg, log, ip, now);
      allowed := Take(ip, now);
    }

    method CleanupStale()
      requires Valid()
      modifies this
      ensures Valid() && log == Then(old(log), Sweep(clock)) && old(clock) <= clock
    {
      var now := Now();
      var threshold := now + -cfg.cleanup * 2;
      var keys := buckets.Keys;
      while keys != {}
        invariant keys <= buckets.Keys <= old(buckets).Keys
        invariant forall ip :: ip in buckets ==> buckets[ip] == old(buckets)[ip]
        invariant forall ip :: ip in old(buckets) && ip !in keys ==>
          (ip in buckets <==> !Stale(cfg, old(buckets)[ip], now))
        invariant log == old(log) && clock == now
        decreases keys
      {
        var ip :| ip in keys;
        keys := keys - {ip};
        if buckets[ip].lastTime < threshold {
          buckets := buckets - {ip};
        }
      }
      log := Then(log, Sweep(now));
      assert buckets == Swept(cfg, old(buckets), now);
    }
  }
}
