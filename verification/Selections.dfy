// A selection: the results of a partial function on the elements of a sequence, in order.
module Selections {
  import opened Options

  ghost predicate Increasing(places: seq<nat>) {
    forall j, k :: 0 <= j < k < |places| ==> places[j] < places[k]
  }

  // The k-th result is that of the element at the k-th place.
  ghost predicate SelectedAt<A, B>(xs: seq<A>, out: seq<B>, pick: A -> Option<B>, places: seq<nat>) {
    && |places| == |out| && Increasing(places)
    && (forall k :: 0 <= k < |out| ==> places[k] < |xs| && pick(xs[places[k]]) == Some(out[k]))
    && forall i :: 0 <= i < |xs| && pick(xs[i]).Some? ==> i in places
  }

  ghost predicate Selects<A, B>(xs: seq<A>, out: seq<B>, pick: A -> Option<B>) {
    exists places: seq<nat> :: SelectedAt(xs, out, pick, places)
  }

  lemma SelectsNone<A, B>(pick: A -> Option<B>)
    ensures Selects([], [], pick)
  {
    assert SelectedAt([], [], pick, []);
  }

  lemma SelectsPast<A, B>(xs: seq<A>, x: A, out: seq<B>, pick: A -> Option<B>)
    requires Selects(xs, out, pick) && pick(x).None?
    ensures Selects(xs + [x], out, pick)
  {
    var places: seq<nat> :| SelectedAt(xs, out, pick, places);
    assert SelectedAt(xs + [x], out, pick, places);
  }

  lemma SelectsOneMore<A, B>(xs: seq<A>, x: A, out: seq<B>, pick: A -> Option<B>)
    requires Selects(xs, out, pick) && pick(x).Some?
    ensures Selects(xs + [x], out + [pick(x).value], pick)
  {
    var places: seq<nat> :| SelectedAt(xs, out, pick, places);
    var more: seq<nat> := places + [|xs|];
    var ys, longer := xs + [x], out + [pick(x).value];
    forall k | 0 <= k < |longer|
      ensures more[k] < |ys| && pick(ys[more[k]]) == Some(longer[k])
    {
      if k < |out| {
        assert places[k] < |xs| && pick(xs[places[k]]) == Some(out[k]);
      }
    }
    forall i | 0 <= i < |ys| && pick(ys[i]).Some?
      ensures i in more
    {
      if i < |xs| {
        assert i in places;
      } else {
        assert more[|places|] == i;
      }
    }
    assert SelectedAt(ys, longer, pick, more);
  }

  // One more element, with its result if it has one.
  lemma SelectsNext<A, B>(xs: seq<A>, out: seq<B>, pick: A -> Option<B>)
    requires xs != [] && Selects(xs[..|xs| - 1], out, pick)
    ensures var x := xs[|xs| - 1]; Selects(xs, out + if pick(x).Some? then [pick(x).value] else [], pick)
  {
    var init, x := xs[..|xs| - 1], xs[|xs| - 1];
    assert xs == init + [x];
    if pick(x).Some? {
      SelectsOneMore(init, x, out, pick);
    } else {
      SelectsPast(init, x, out, pick);
      assert out + [] == out;
    }
  }

  // The results of the lists one after the other.
  function Joined<B>(parts: seq<seq<B>>): seq<B> {
    if parts == [] then [] else Joined(parts[..|parts| - 1]) + parts[|parts| - 1]
  }

  lemma JoinsOneMore<B>(parts: seq<seq<B>>, part: seq<B>)
    ensures Joined(parts + [part]) == Joined(parts) + part
  {
    assert (parts + [part])[..|parts|] == parts;
  }
}
