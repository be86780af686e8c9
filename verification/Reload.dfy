// Reloading the lists of the filter while names are being looked up: LoadBlocklists and
// IsBlocked of internal/filter/filter.go.  A reload parses line by line into a table of its
// own and swaps it in under the lock; a lookup holds the lock throughout.  All of these
// interleave, and several reloads may run at once.
module Reload {
  import opened Selections
  import opened Filter

  // A reload begins with the lists it will get to read: what its sources reply, and the local
  // files.
  datatype Event =
    | Begin(i: nat, lists: seq<seq<string>>)
    | Line(i: nat, line: string)
    | Swap(i: nat)
    | Lookup(domain: string, whitelist: set<string>, blacklist: set<string>, yes: bool)

  datatype Run = Start(blocked: set<string>) | Then(past: Run, e: Event)

  // The reload has begun and not yet swapped.
  predicate Loading(r: Run, i: nat) {
    match r
    case Start(_) => false
    case Then(past, Begin(j, _)) => i == j || Loading(past, i)
    case Then(past, Swap(j)) => i != j && Loading(past, i)
    case Then(past, _) => Loading(past, i)
  }

  // The lists of a reload.
  function Lists(r: Run, i: nat): seq<seq<string>> {
    match r
    case Start(_) => []
    case Then(past, Begin(j, lists)) => if i == j then lists else Lists(past, i)
    case Then(past, _) => Lists(past, i)
  }

  // The lines a reload has read since it began.
  function Read(r: Run, i: nat): seq<string> {
    match r
    case Start(_) => []
    case Then(past, Begin(j, _)) => if i == j then [] else Read(past, i)
    case Then(past, Line(j, line)) => if i == j then Read(past, i) + [line] else Read(past, i)
    case Then(past, _) => Read(past, i)
  }

  // The table a reload is building.
  function Building(isIP: string -> bool, r: Run, i: nat): set<string> {
    match r
    case Start(_) => {}
    case Then(past, Begin(j, _)) => if i == j then {} else Building(isIP, past, i)
    case Then(past, Line(j, line)) =>
      if i == j && Named(isIP, line).Some? then Building(isIP, past, i) + {Named(isIP, line).value}
      else Building(isIP, past, i)
    case Then(past, _) => Building(isIP, past, i)
  }

  // The table lookups use.
  function Table(isIP: string -> bool, r: Run): set<string> {
    match r
    case Start(blocked) => blocked
    case Then(past, Swap(i)) => Building(isIP, past, i)
    case Then(past, _) => Table(isIP, past)
  }

  ghost predicate Enabled(isIP: string -> bool, r: Run, e: Event) {
    match e
    case Begin(i, _) => !Loading(r, i)
    case Line(i, line) => Loading(r, i) && Read(r, i) + [line] <= Joined(Lists(r, i))
    case Swap(i) => Loading(r, i) && Read(r, i) == Joined(Lists(r, i))
    case Lookup(domain, whitelist, blacklist, yes) =>
      yes == Blocks(true, whitelist, blacklist, Table(isIP, r), domain)
  }

  ghost predicate Legal(isIP: string -> bool, r: Run) {
    r.Then? ==> Legal(isIP, r.past) && Enabled(isIP, r.past, r.e)
  }

  // ---------- What a reload installs ----------

  lemma {:induction false} NamesAdd(isIP: string -> bool, a: seq<string>, b: seq<string>)
    ensures NamesIn(isIP, a + b) == NamesIn(isIP, a) + NamesIn(isIP, b)
  {
    if b == [] {
      assert a + b == a;
    } else {
      var init, last := b[..|b| - 1], b[|b| - 1];
      NamesAdd(isIP, a, init);
      assert (a + b)[..|a + b| - 1] == a + init;
    }
  }

  lemma {:induction false} LinesNameWhatListsName(isIP: string -> bool, lists: seq<seq<string>>)
    ensures NamesIn(isIP, Joined(lists)) == NamesInAll(isIP, lists)
  {
    if lists != [] {
      LinesNameWhatListsName(isIP, lists[..|lists| - 1]);
      NamesAdd(isIP, Joined(lists[..|lists| - 1]), lists[|lists| - 1]);
    }
  }

  lemma {:induction false} BuildsWhatItRead(isIP: string -> bool, r: Run, i: nat)
    ensures Building(isIP, r, i) == NamesIn(isIP, Read(r, i))
  {
    if r.Then? {
      BuildsWhatItRead(isIP, r.past, i);
      if r.e.Line? && r.e.i == i {
        var lines := Read(r, i);
        assert lines[..|lines| - 1] == Read(r.past, i);
      }
    }
  }

  lemma SwapInstallsItsLists(isIP: string -> bool, r: Run, i: nat)
    requires Enabled(isIP, r, Swap(i))
    ensures Building(isIP, r, i) == NamesInAll(isIP, Lists(r, i))
  {
    BuildsWhatItRead(isIP, r, i);
    LinesNameWhatListsName(isIP, Lists(r, i));
  }

  // The run up to its last swap, or its start.
  function LastSwap(r: Run): (s: Run)
    ensures s.Then? ==> s.e.Swap?
  {
    if r.Start? || r.e.Swap? then r else LastSwap(r.past)
  }

  // However reloads interleave, lookups use the first table or what the lists of some one
  // reload name.
  lemma {:induction false} TableIsOfOneReload(isIP: string -> bool, r: Run)
    requires Legal(isIP, r)
    ensures var swap := LastSwap(r);
            Table(isIP, r) == if swap.Start? then swap.blocked else NamesInAll(isIP, Lists(swap.past, swap.e.i))
  {
    if r.Then? {
      if r.e.Swap? {
        SwapInstallsItsLists(isIP, r.past, r.e.i);
      } else {
        TableIsOfOneReload(isIP, r.past);
      }
    }
  }

  // The run goes on from a start with one reload, and no other swaps meanwhile.
  predicate ReloadsOnce(r: Run, start: Run, i: nat, lists: seq<seq<string>>) {
    || r == Then(start, Begin(i, lists))
    || (r.Then? && ReloadsOnce(r.past, start, i, lists)
        && (r.e.Begin? ==> r.e.i != i) && (r.e.Swap? ==> r.e.i == i))
  }

  // A lookup beside a reload sees all of the old table until the swap, and then all of the new.
  lemma {:induction false} ReloadIsAllOrNothing(isIP: string -> bool, r: Run, start: Run, i: nat,
                                                lists: seq<seq<string>>)
    requires Legal(isIP, r) && ReloadsOnce(r, start, i, lists)
    ensures Lists(r, i) == lists
    ensures Table(isIP, r) == if Loading(r, i) then Table(isIP, start) else NamesInAll(isIP, lists)
  {
    if r != Then(start, Begin(i, lists)) {
      ReloadIsAllOrNothing(isIP, r.past, start, i, lists);
      if r.e.Swap? {
        SwapInstallsItsLists(isIP, r.past, i);
      }
    }
  }

  lemma LookupSeesOldOrNew(isIP: string -> bool, r: Run, start: Run, i: nat, lists: seq<seq<string>>)
    requires Legal(isIP, r) && r.Then? && r.e.Lookup? && ReloadsOnce(r.past, start, i, lists)
    ensures r.e.yes == Blocks(true, r.e.whitelist, r.e.blacklist,
                              if Loading(r.past, i) then Table(isIP, start) else NamesInAll(isIP, lists),
                              r.e.domain)
  {
    ReloadIsAllOrNothing(isIP, r.past, start, i, lists);
  }

  // After the swap, the old table is not seen again.
  predicate Continues(r: Run, from: Run, i: nat) {
    r == from || (r.Then? && Continues(r.past, from, i) && (r.e.Begin? ==> r.e.i != i))
  }

  lemma {:induction false} NewStaysNew(r: Run, swapped: Run, i: nat)
    requires Continues(r, swapped, i) && !Loading(swapped, i)
    ensures !Loading(r, i)
  {
    if r != swapped {
      NewStaysNew(r.past, swapped, i);
    }
  }

  // ---------- A reload by itself ----------

  function ReadOut(r: Run, i: nat, lines: seq<string>): Run {
    if lines == [] then r else Then(ReadOut(r, i, lines[..|lines| - 1]), Line(i, lines[|lines| - 1]))
  }

  lemma {:induction false} ReadsOut(isIP: string -> bool, start: Run, i: nat, lists: seq<seq<string>>,
                                    lines: seq<string>)
    requires Legal(isIP, start) && !Loading(start, i) && lines <= Joined(lists)
    ensures var r := ReadOut(Then(start, Begin(i, lists)), i, lines);
            && Legal(isIP, r) && ReloadsOnce(r, start, i, lists)
            && Loading(r, i) && Lists(r, i) == lists && Read(r, i) == lines
  {
    if lines != [] {
      ReadsOut(isIP, start, i, lists, lines[..|lines| - 1]);
      assert lines == lines[..|lines| - 1] + [lines[|lines| - 1]];
    }
  }

  // Reading the lists from beginning to end and swapping is a run, and leaves the table that
  // LoadBlocklists leaves.
  lemma LoadingIsARun(isIP: string -> bool, start: Run, i: nat, lists: seq<seq<string>>) returns (r: Run)
    requires Legal(isIP, start) && !Loading(start, i)
    ensures Legal(isIP, r) && ReloadsOnce(r, start, i, lists) && !Loading(r, i)
    ensures Table(isIP, r) == NamesInAll(isIP, lists)
  {
    var before := ReadOut(Then(start, Begin(i, lists)), i, Joined(lists));
    ReadsOut(isIP, start, i, lists, Joined(lists));
    r := Then(before, Swap(i));
    ReloadIsAllOrNothing(isIP, r, start, i, lists);
  }
}
