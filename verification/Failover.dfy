// Falling back on upstream resolvers: internal/failover/failover.go.
module Failover {
  import opened Options
  import opened Selections
  import opened Arithmetic
  import opened Dns

  function Healthy(healthy: map<string, bool>, upstream: string): bool {
    upstream in healthy && healthy[upstream]
  }

  function WithHealth(healthy: map<string, bool>, upstreams: seq<string>, health: bool): seq<string> {
    if upstreams == [] then []
    else
      var last := upstreams[|upstreams| - 1];
      var before := WithHealth(healthy, upstreams[..|upstreams| - 1], health);
      if Healthy(healthy, last) == health then before + [last] else before
  }

  // The order in which upstreams are asked.
  function Ordered(healthy: map<string, bool>, upstreams: seq<string>): seq<string> {
    WithHealth(healthy, upstreams, true) + WithHealth(healthy, upstreams, false)
  }

  function Failed(healthy: map<string, bool>, upstreams: seq<string>): map<string, bool> {
    if upstreams == [] then healthy
    else Failed(healthy, upstreams[..|upstreams| - 1])[upstreams[|upstreams| - 1] := false]
  }

  lemma {:induction false} FailedExactly(healthy: map<string, bool>, upstreams: seq<string>, upstream: string)
    ensures Healthy(Failed(healthy, upstreams), upstream) <==> Healthy(healthy, upstream) && upstream !in upstreams
  {
    if upstreams != [] {
      var init, last := upstreams[..|upstreams| - 1], upstreams[|upstreams| - 1];
      FailedExactly(healthy, init, upstream);
      assert upstreams == init + [last];
    }
  }

  // ---------- The order ----------

  lemma {:induction false} WithHealthExactly(healthy: map<string, bool>, upstreams: seq<string>, health: bool,
                                             u: string)
    ensures multiset(WithHealth(healthy, upstreams, health))[u]
         == if Healthy(healthy, u) == health then multiset(upstreams)[u] else 0
  {
    if upstreams != [] {
      var init, last := upstreams[..|upstreams| - 1], upstreams[|upstreams| - 1];
      WithHealthExactly(healthy, init, health, u);
      assert upstreams == init + [last];
    }
  }

  // Every upstream is asked as often as it is configured.
  lemma OrderIsAPermutation(healthy: map<string, bool>, upstreams: seq<string>)
    ensures multiset(Ordered(healthy, upstreams)) == multiset(upstreams)
  {
    forall u
      ensures multiset(Ordered(healthy, upstreams))[u] == multiset(upstreams)[u]
    {
      WithHealthExactly(healthy, upstreams, true, u);
      WithHealthExactly(healthy, upstreams, false, u);
    }
  }

  lemma InOrder(healthy: map<string, bool>, upstreams: seq<string>, u: string)
    ensures u in Ordered(healthy, upstreams) <==> u in upstreams
    ensures u in WithHealth(healthy, upstreams, true) <==> u in upstreams && Healthy(healthy, u)
    ensures u in WithHealth(healthy, upstreams, false) <==> u in upstreams && !Healthy(healthy, u)
  {
    WithHealthExactly(healthy, upstreams, true, u);
    WithHealthExactly(healthy, upstreams, false, u);
    assert u in upstreams <==> multiset(upstreams)[u] > 0;
    assert u in WithHealth(healthy, upstreams, true) <==> multiset(WithHealth(healthy, upstreams, true))[u] > 0;
    assert u in WithHealth(healthy, upstreams, false) <==> multiset(WithHealth(healthy, upstreams, false))[u] > 0;
  }

  ghost predicate Before(s: seq<string>, u: string, v: string) {
    exists i, j :: 0 <= i < j < |s| && s[i] == u && s[j] == v
  }

  lemma BeforeInSum(a: seq<string>, b: seq<string>, u: string, v: string)
    ensures Before(a + b, u, v) <==> Before(a, u, v) || Before(b, u, v) || (u in a && v in b)
  {
    var s := a + b;
    if i, j :| 0 <= i < j < |s| && s[i] == u && s[j] == v {
      if |a| <= i {
        assert b[i - |a|] == u && b[j - |a|] == v;
      }
    }
    if i, j :| 0 <= i < j < |a| && a[i] == u && a[j] == v {
      assert s[i] == u && s[j] == v;
    }
    if i, j :| 0 <= i < j < |b| && b[i] == u && b[j] == v {
      assert s[|a| + i] == u && s[|a| + j] == v;
    }
    if u in a && v in b {
      var i :| 0 <= i < |a| && a[i] == u;
      var j :| 0 <= j < |b| && b[j] == v;
      assert s[i] == u && s[|a| + j] == v;
    }
  }

  lemma {:induction false} WithHealthKeepsOrder(healthy: map<string, bool>, upstreams: seq<string>, health: bool,
                                                u: string, v: string)
    ensures Before(WithHealth(healthy, upstreams, health), u, v) <==>
              Before(upstreams, u, v) && Healthy(healthy, u) == health && Healthy(healthy, v) == health
  {
    if upstreams != [] {
      var init, last := upstreams[..|upstreams| - 1], upstreams[|upstreams| - 1];
      WithHealthKeepsOrder(healthy, init, health, u, v);
      BeforeInSum(init, [last], u, v);
      assert upstreams == init + [last];
      InOrder(healthy, init, u);
      BeforeInSum(WithHealth(healthy, init, health), if Healthy(healthy, last) == health then [last] else [], u, v);
    }
  }

  // Healthy upstreams come first, and otherwise the configured order is kept.
  lemma OrderIsStableHealthyFirst(healthy: map<string, bool>, upstreams: seq<string>, u: string, v: string)
    ensures Before(Ordered(healthy, upstreams), u, v) <==>
              if Healthy(healthy, u) == Healthy(healthy, v) then Before(upstreams, u, v)
              else Healthy(healthy, u) && u in upstreams && v in upstreams
  {
    BeforeInSum(WithHealth(healthy, upstreams, true), WithHealth(healthy, upstreams, false), u, v);
    WithHealthKeepsOrder(healthy, upstreams, true, u, v);
    WithHealthKeepsOrder(healthy, upstreams, false, u, v);
    InOrder(healthy, upstreams, u);
    InOrder(healthy, upstreams, v);
  }

  // ---------- Stickiness ----------

  // u occurs before v occurs at all.
  ghost predicate Leads(s: seq<string>, u: string, v: string) {
    exists i :: 0 <= i < |s| && s[i] == u && v !in s[..i]
  }

  lemma LeadsInSum(a: seq<string>, b: seq<string>, u: string, v: string)
    ensures Leads(a + b, u, v) <==> Leads(a, u, v) || (v !in a && Leads(b, u, v))
  {
    var s := a + b;
    if i :| 0 <= i < |s| && s[i] == u && v !in s[..i] {
      if i < |a| {
        assert s[..i] == a[..i] && a[i] == u;
      } else {
        assert s[..i] == a + b[..i - |a|] && b[i - |a|] == u;
      }
    }
    if i :| 0 <= i < |a| && a[i] == u && v !in a[..i] {
      assert s[..i] == a[..i] && s[i] == u;
    }
    if v !in a {
      if i :| 0 <= i < |b| && b[i] == u && v !in b[..i] {
        assert s[..|a| + i] == a + b[..i] && s[|a| + i] == u;
      }
    }
  }

  lemma LeadsAlone(last: string, u: string, v: string)
    ensures Leads([last], u, v) <==> last == u
  {
    assert [last][..0] == [];
  }

  lemma {:induction false} WithHealthKeepsLead(healthy: map<string, bool>, upstreams: seq<string>, u: string, v: string)
    requires Healthy(healthy, v)
    ensures Leads(WithHealth(healthy, upstreams, true), u, v) <==> Leads(upstreams, u, v) && Healthy(healthy, u)
  {
    if upstreams != [] {
      var init, last := upstreams[..|upstreams| - 1], upstreams[|upstreams| - 1];
      WithHealthKeepsLead(healthy, init, u, v);
      LeadsInSum(init, [last], u, v);
      LeadsAlone(last, u, v);
      assert upstreams == init + [last];
      InOrder(healthy, init, v);
      LeadsInSum(WithHealth(healthy, init, true), if Healthy(healthy, last) then [last] else [], u, v);
    }
  }

  // After the upstream at place k has served a call, those asked before it are unhealthy, and
  // it is the first the next call asks.
  lemma ServerIsAskedFirst(healthy: map<string, bool>, upstreams: seq<string>, k: nat)
    requires k < |Ordered(healthy, upstreams)|
    ensures var order := Ordered(healthy, upstreams);
            var after := Failed(healthy, order[..k])[order[k] := true];
            && (forall i :: 0 <= i < k && order[i] != order[k] ==> !Healthy(after, order[i]))
            && Ordered(after, upstreams) != [] && Ordered(after, upstreams)[0] == order[k]
  {
    var order := Ordered(healthy, upstreams);
    var u := order[k];
    var after := Failed(healthy, order[..k])[u := true];
    forall i | 0 <= i < k && order[i] != u
      ensures !Healthy(after, order[i])
    {
      assert order[i] == order[..k][i];
      FailedExactly(healthy, order[..k], order[i]);
    }
    InOrder(healthy, upstreams, u);
    InOrder(after, upstreams, u);
    var first := WithHealth(after, upstreams, true)[0];
    assert first in WithHealth(after, upstreams, true);
    if first != u {
      InOrder(after, upstreams, first);
      InOrder(healthy, upstreams, first);
      FailedExactly(healthy, order[..k], first);
      LeadsInSum(WithHealth(healthy, upstreams, true), WithHealth(healthy, upstreams, false), u, first);
      assert Leads(order, u, first);
      WithHealthKeepsLead(healthy, upstreams, u, first);
      WithHealthKeepsLead(after, upstreams, u, first);
      assert false;
    }
  }

  // ---------- The object ----------

  datatype Outcome = Served(resp: Msg) | GaveUp | Cancelled

  // A call's outcome, with the upstreams it went through in order: it gave up on the first k.
  ghost predicate SettlesAlong(order: seq<string>, before: map<string, bool>, after: map<string, bool>, k: nat,
                               out: Outcome)
  {
    match out
    case Served(resp) =>
      k < |order| && resp.rcode != RCODE_SERVER_FAILURE && after == Failed(before, order[..k])[order[k] := true]
    case GaveUp => k == |order| && after == Failed(before, order)
    case Cancelled => k < |order| && after == Failed(before, order[..k])
  }

  ghost predicate Settles(upstreams: seq<string>, before: map<string, bool>, after: map<string, bool>, k: nat,
                          out: Outcome)
  {
    SettlesAlong(Ordered(before, upstreams), before, after, k, out)
  }

  // nil without an error is both the answer of a disabled fallback and of one that gave up.
  function OutcomeOf(resp: Option<Msg>, err: bool): Outcome {
    if resp.Some? then Served(resp.value) else if err then Cancelled else GaveUp
  }

  function Attempts(maxRetries: int): nat {
    if maxRetries < 0 then 0 else maxRetries + 1
  }

  // A call that gives up was not cancelled, and leaves every upstream unhealthy.
  lemma GivingUpLeavesNoneHealthy(upstreams: seq<string>, before: map<string, bool>, after: map<string, bool>, k: nat,
                                  u: string)
    requires Settles(upstreams, before, after, k, GaveUp) && u in upstreams
    ensures !Healthy(after, u)
  {
    InOrder(before, upstreams, u);
    FailedExactly(before, Ordered(before, upstreams), u);
  }

  // After a call an upstream is healthy if it served the call, or if it was healthy before and the
  // call did not give up on it.
  lemma HealthAfterACall(upstreams: seq<string>, before: map<string, bool>, after: map<string, bool>, k: nat,
                         out: Outcome, u: string)
    requires Settles(upstreams, before, after, k, out)
    ensures var order := Ordered(before, upstreams);
      && k <= |order|
      && (Healthy(after, u) <==>
            (out.Served? && k < |order| && u == order[k]) || (Healthy(before, u) && u !in order[..k]))
  {
    var order := Ordered(before, upstreams);
    FailedExactly(before, order[..k], u);
    assert order[..|order|] == order;
  }

  // A call that is served sticks to the upstream that served it.
  lemma ServedCallSticks(upstreams: seq<string>, before: map<string, bool>, after: map<string, bool>, k: nat, resp: Msg)
    requires Settles(upstreams, before, after, k, Served(resp))
    ensures var order := Ordered(before, upstreams);
            && (forall i :: 0 <= i < k && order[i] != order[k] ==> !Healthy(after, order[i]))
            && Ordered(after, upstreams) != [] && Ordered(after, upstreams)[0] == order[k]
  {
    ServerIsAskedFirst(before, upstreams, k);
  }

  // A query sent to an upstream, and what came back.
  datatype Sent = Sent(upstream: string, query: Msg, reply: Option<Msg>)

  // All attempts at an upstream were made, and none brought a usable reply.
  ghost predicate InVain(part: seq<Sent>, upstream: string, query: Msg, each: nat) {
    && |part| == each
    && forall n :: 0 <= n < |part| ==>
         && part[n].upstream == upstream && part[n].query == query
         && (part[n].reply.None? || part[n].reply.value.rcode == 2)
  }

  // The last of some attempts at an upstream, and no earlier one, brought this usable reply.
  ghost predicate Serves(part: seq<Sent>, upstream: string, query: Msg, each: nat, resp: Msg) {
    && 0 < |part| <= each && InVain(part[..|part| - 1], upstream, query, |part| - 1)
    && part[|part| - 1] == Sent(upstream, query, Some(resp)) && resp.rcode != 2
  }

  // The exchanges of a call that gave up on the first k upstreams: all attempts at each, in vain,
  // and if it was served, those at the next one.
  ghost predicate Accounted(order: seq<string>, query: Msg, each: nat, k: nat, parts: seq<seq<Sent>>, out: Outcome) {
    && k <= |order| && |parts| == (if out.Served? then k + 1 else k)
    && (forall i :: 0 <= i < k ==> InVain(parts[i], order[i], query, each))
    && (out.Served? ==> k < |order| && Serves(parts[k], order[k], query, each, out.resp))
  }

  lemma {:induction false} AttemptsAddUp(parts: seq<seq<Sent>>, each: nat)
    requires forall i :: 0 <= i < |parts| ==> |parts[i]| <= each
    ensures |Joined(parts)| <= Multiple(|parts|, each)
  {
    if parts != [] {
      AttemptsAddUp(parts[..|parts| - 1], each);
    }
  }

  // A call makes no more exchanges than there are upstreams times attempts.
  lemma ExchangesAreBounded(order: seq<string>, query: Msg, each: nat, k: nat, parts: seq<seq<Sent>>, out: Outcome)
    requires Accounted(order, query, each, k, parts, out)
    ensures |Joined(parts)| <= |order| * each
  {
    AttemptsAddUp(parts, each);
    MultipleMonotone(|parts|, |order|, each);
    MultipleIsProduct(|order|, each);
  }

  // The query of the fallback: the question of the call, with recursion desired.
  function FallbackQuery(name: string, qtype: u16): Msg {
    NewRootQuery(name, qtype).(recursionDesired := true)
  }

  lemma FallbackAsksTheQuestion(name: string, qtype: u16)
    ensures var query := FallbackQuery(name, qtype);
      && query.question == [Question(if EndsInDot(name) then name else name + ".", qtype, 1)]
      && query.recursionDesired && !query.response
  {
    QualifiedEndsInDot(name);
  }

  // The root's name servers: what the probe asks for.
  function ProbeQuery(): Msg {
    FallbackQuery(".", TYPE_NS)
  }

  // A probe of each of some upstreams, once.
  ghost predicate Probes(some: set<string>, probes: seq<Sent>) {
    && (forall i :: 0 <= i < |probes| ==>
          && probes[i].upstream in some
          && probes[i].query.question == [Question(".", 2, 1)] && probes[i].query.recursionDesired)
    && (forall i, j :: 0 <= i < j < |probes| ==> probes[i].upstream != probes[j].upstream)
    && forall u :: u in some ==> exists i :: 0 <= i < |probes| && probes[i].upstream == u
  }

  // An upstream answered its probe with success.
  ghost predicate Recovered(probes: seq<Sent>, u: string) {
    exists i :: 0 <= i < |probes| && probes[i].upstream == u
      && probes[i].reply.Some? && probes[i].reply.value.rcode == 0
  }

  lemma ProbesOneMore(some: set<string>, probes: seq<Sent>, u: string, reply: Option<Msg>)
    requires Probes(some, probes) && u !in some
    ensures var more := probes + [Sent(u, ProbeQuery(), reply)];
      && Probes(some + {u}, more)
      && forall v :: Recovered(more, v) <==>
           Recovered(probes, v) || (v == u && reply.Some? && reply.value.rcode == RCODE_SUCCESS)
  {
    var more := probes + [Sent(u, ProbeQuery(), reply)];
    forall v
      ensures v in some + {u} ==> exists i :: 0 <= i < |more| && more[i].upstream == v
      ensures Recovered(more, v) <==>
                Recovered(probes, v) || (v == u && reply.Some? && reply.value.rcode == RCODE_SUCCESS)
    {
      assert more[|probes|] == Sent(u, ProbeQuery(), reply);
      assert forall i :: 0 <= i < |probes| ==> more[i] == probes[i];
    }
  }

  lemma FailsOneMore(healthy: map<string, bool>, order: seq<string>, i: nat)
    requires i < |order|
    ensures Failed(healthy, order[..i + 1]) == Failed(healthy, order[..i])[order[i] := false]
  {
    assert order[..i + 1][..i] == order[..i];
  }

  class Failover {
    const enabled: bool
    const upstreams: seq<string>
    const maxRetries: int
    var healthy: map<string, bool>
    var contextDone: bool
    // The queries sent to upstreams so far.
    ghost var sent: seq<Sent>

    constructor (enabled: bool, upstreams: seq<string>, maxRetries: int)
      ensures this.enabled == enabled && this.upstreams == upstreams && this.maxRetries == maxRetries
      ensures forall u :: u in upstreams <==> u in healthy
      ensures forall u :: u in upstreams ==> Healthy(healthy, u)
      ensures sent == []
    {
      this.enabled, this.upstreams, this.maxRetries := enabled, upstreams, maxRetries;
      contextDone, sent := false, [];
      new;
      healthy := map[];
      for i := 0 to |upstreams|
        invariant forall j :: 0 <= j < i ==> Healthy(healthy, upstreams[j])
        invariant forall u :: u in healthy ==> u in upstreams
        invariant sent == []
      {
        healthy := healthy[upstreams[i] := true];
      }
    }

    // Whether the context has ended is up to the caller, who cannot take it back.
    method ContextDone() returns (done: bool)
      modifies this`contextDone
      ensures done == contextDone && (old(contextDone) ==> contextDone)
    {
      var ended: bool := *;
      contextDone := contextDone || ended;
      done := contextDone;
    }

    // What comes back is up to the network.
    method ExchangeContext(upstream: string, query: Msg) returns (reply: Option<Msg>)
      modifies this`sent
      ensures sent == old(sent) + [Sent(upstream, query, reply)]
    {
      reply := *;
      sent := sent + [Sent(upstream, query, reply)];
    }

    method GetOrderedUpstreams() returns (order: seq<string>)
      ensures order == Ordered(healthy, upstreams)
    {
      var up, down := [], [];
      for i := 0 to |upstreams|
        invariant up == WithHealth(healthy, upstreams[..i], true) && down == WithHealth(healthy, upstreams[..i], false)
      {
        assert upstreams[..i + 1][..i] == upstreams[..i];
        if upstreams[i] in healthy && healthy[upstreams[i]] {
          up := up + [upstreams[i]];
        } else {
          down := down + [upstreams[i]];
        }
      }
      assert upstreams[..|upstreams|] == upstreams;
      order := up + down;
    }

    // One upstream, with its retries.
    method Ask(upstream: string, query: Msg) returns (resp: Option<Msg>, ghost part: seq<Sent>)
      modifies this`sent
      ensures sent == old(sent) + part
      ensures if resp.Some? then Serves(part, upstream, query, Attempts(maxRetries), resp.value)
              else InVain(part, upstream, query, Attempts(maxRetries))
    {
      part := [];
      var retry := 0;
      while retry <= maxRetries
        invariant 0 <= retry <= Attempts(maxRetries)
        invariant sent == old(sent) + part && InVain(part, upstream, query, retry)
      {
        resp := ExchangeContext(upstream, query);
        ghost var tried := part;
        part := part + [Sent(upstream, query, resp)];
        assert part[..|part| - 1] == tried;
        if resp.Some? && resp.value.rcode != RCODE_SERVER_FAILURE {
          return;
        }
        retry := retry + 1;
      }
      resp := None;
    }

    method TryInOrder(order: seq<string>, query: Msg)
      returns (resp: Option<Msg>, err: bool, ghost k: nat, ghost parts: seq<seq<Sent>>)
      modifies this`healthy, this`sent, this`contextDone
      ensures SettlesAlong(order, old(healthy), healthy, k, OutcomeOf(resp, err))
      ensures sent == old(sent) + Joined(parts)
      ensures Accounted(order, query, Attempts(maxRetries), k, parts, OutcomeOf(resp, err))
      ensures resp.Some? ==> !err
      ensures (err ==> contextDone) && (old(contextDone) && order != [] ==> err && parts == [])
    {
      resp, err, k, parts := None, false, 0, [];
      for i := 0 to |order|
        invariant healthy == Failed(old(healthy), order[..i]) && resp == None && !err
        invariant sent == old(sent) + Joined(parts)
        invariant Accounted(order, query, Attempts(maxRetries), i, parts, GaveUp)
        invariant old(contextDone) ==> contextDone && i == 0
      {
        k := i;
        var done := ContextDone();
        if done {
          err := true;
          return;
        }
        ghost var part;
        resp, part := Ask(order[i], query);
        JoinsOneMore(parts, part);
        parts := parts + [part];
        if resp.Some? {
          healthy := healthy[order[i] := true];
          return;
        }
        FailsOneMore(old(healthy), order, i);
        healthy := healthy[order[i] := false];
      }
      assert order[..|order|] == order;
      k := |order|;
    }

    method Resolve(name: string, qtype: u16)
      returns (resp: Option<Msg>, err: bool, ghost k: nat, ghost parts: seq<seq<Sent>>)
      modifies this`healthy, this`sent, this`contextDone
      ensures !enabled ==> resp == None && !err && healthy == old(healthy) && sent == old(sent)
      ensures enabled ==>
        && Settles(upstreams, old(healthy), healthy, k, OutcomeOf(resp, err))
        && sent == old(sent) + Joined(parts)
        && Accounted(Ordered(old(healthy), upstreams), FallbackQuery(name, qtype),
                     if maxRetries < 0 then 0 else maxRetries + 1, k, parts, OutcomeOf(resp, err))
        && (err ==> contextDone) && (old(contextDone) && upstreams != [] ==> err && parts == [])
      ensures resp.Some? ==> !err
    {
      resp, err, k, parts := None, false, 0, [];
      if !enabled {
        return;
      }
      var query := FallbackQuery(name, qtype);
      var order := GetOrderedUpstreams();
      OrderIsAPermutation(healthy, upstreams);
      assert |order| == |multiset(order)| == |upstreams|;
      resp, err, k, parts := TryInOrder(order, query);
    }

    // The background probe asks each unhealthy upstream once, and marks healthy exactly those that
    // answer it with success.
    method CheckUnhealthy() returns (ghost probes: seq<Sent>)
      modifies this`healthy, this`sent
      ensures sent == old(sent) + probes && Probes((set u | u in old(healthy) && !old(healthy)[u]), probes)
      ensures healthy.Keys == old(healthy).Keys
      ensures forall u :: Healthy(healthy, u) <==> Healthy(old(healthy), u) || Recovered(probes, u)
    {
      probes := [];
      var toCheck := set u | u in healthy && !healthy[u];
      ghost var unhealthy := toCheck;
      while toCheck != {}
        invariant toCheck <= unhealthy && healthy.Keys == old(healthy).Keys
        invariant sent == old(sent) + probes && Probes(unhealthy - toCheck, probes)
        invariant forall u :: u in healthy ==> healthy[u] == (u !in unhealthy || Recovered(probes, u))
      {
        ghost var left := toCheck;
        var u :| u in toCheck;
        toCheck := toCheck - {u};
        assert unhealthy - toCheck == unhealthy - left + {u};
        var reply := ExchangeContext(u, ProbeQuery());
        ProbesOneMore(unhealthy - left, probes, u, reply);
        probes := probes + [Sent(u, ProbeQuery(), reply)];
        if reply.Some? && reply.value.rcode == RCODE_SUCCESS {
          healthy := healthy[u := true];
        }
      }
      assert unhealthy - {} == unhealthy;
    }
  }
}
