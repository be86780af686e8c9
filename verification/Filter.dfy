// The domain filter of internal/filter/filter.go: the hosts-file parser and the matcher that
// walks up the parents of a name.
module Filter {
  import opened Options
  import opened Dns
  import opened Text
  import opened Counters

  const MAX_COUNTED: nat := 10000

  // ---------- What a list line names ----------

  // A line of a list names at most one domain: its only word, or the second word after the
  // address 0.0.0.0 or 127.0.0.1.
  function Candidate(words: seq<string>): Option<string> {
    if words == [] || words[0] == "" || words[0][0] == '#' || words[0][0] == '!' then None
    else if |words| == 1 then Some(words[0])
    else if words[0] == "0.0.0.0" || words[0] == "127.0.0.1" then Some(words[1])
    else None
  }

  predicate Listable(isIP: string -> bool, domain: string) {
    domain != "localhost" && domain != "localhost.localdomain" && !isIP(domain)
  }

  // The canonical name that a line adds to the list.
  function Named(isIP: string -> bool, line: string): Option<string> {
    match Candidate(Fields(line))
    case None => None
    case Some(word) => if Listable(isIP, Lower(word)) then Some(CanonicalName(word)) else None
  }

  function NamesIn(isIP: string -> bool, lines: seq<string>): set<string> {
    if lines == [] then {}
    else
      var name := Named(isIP, lines[|lines| - 1]);
      NamesIn(isIP, lines[..|lines| - 1]) + if name.Some? then {name.value} else {}
  }

  function CountIn(isIP: string -> bool, lines: seq<string>): nat {
    if lines == [] then 0
    else CountIn(isIP, lines[..|lines| - 1]) + if Named(isIP, lines[|lines| - 1]).Some? then 1 else 0
  }

  function NamesInAll(isIP: string -> bool, lists: seq<seq<string>>): set<string> {
    if lists == [] then {} else NamesInAll(isIP, lists[..|lists| - 1]) + NamesIn(isIP, lists[|lists| - 1])
  }

  function CountInAll(isIP: string -> bool, lists: seq<seq<string>>): nat {
    if lists == [] then 0 else CountInAll(isIP, lists[..|lists| - 1]) + CountIn(isIP, lists[|lists| - 1])
  }

  ghost predicate SomeLineNames(isIP: string -> bool, lines: seq<string>, name: string) {
    exists i :: 0 <= i < |lines| && Named(isIP, lines[i]) == Some(name)
  }

  lemma OneMoreLine(isIP: string -> bool, lines: seq<string>, name: string)
    requires lines != []
    ensures SomeLineNames(isIP, lines, name) <==>
              SomeLineNames(isIP, lines[..|lines| - 1], name) || Named(isIP, lines[|lines| - 1]) == Some(name)
  {
    var n := |lines| - 1;
    if i :| 0 <= i < |lines| && Named(isIP, lines[i]) == Some(name) && i < n {
      assert lines[..n][i] == lines[i];
    }
    if i :| 0 <= i < n && Named(isIP, lines[..n][i]) == Some(name) {
      assert lines[..n][i] == lines[i];
    }
  }

  lemma {:induction false} NamesInExactly(isIP: string -> bool, lines: seq<string>, name: string)
    ensures name in NamesIn(isIP, lines) <==> SomeLineNames(isIP, lines, name)
  {
    if lines != [] {
      NamesInExactly(isIP, lines[..|lines| - 1], name);
      OneMoreLine(isIP, lines, name);
    }
  }

  // The lists that could be read, in order.
  function Received(replies: seq<Option<seq<string>>>): seq<seq<string>> {
    if replies == [] then []
    else
      var last := replies[|replies| - 1];
      Received(replies[..|replies| - 1]) + if last.Some? then [last.value] else []
  }

  lemma OneMoreList(isIP: string -> bool, lists: seq<seq<string>>, list: seq<string>)
    ensures NamesInAll(isIP, lists + [list]) == NamesInAll(isIP, lists) + NamesIn(isIP, list)
    ensures CountInAll(isIP, lists + [list]) == CountInAll(isIP, lists) + CountIn(isIP, list)
  {
    assert (lists + [list])[..|lists|] == lists;
  }

  lemma ReceivesOneMore(isIP: string -> bool, replies: seq<Option<seq<string>>>, i: nat)
    requires i < |replies|
    ensures var lists := Received(replies[..i]);
            Received(replies[..i + 1]) == if replies[i].Some? then lists + [replies[i].value] else lists
    ensures replies[i].Some? ==>
      var before, after := Received(replies[..i]), Received(replies[..i + 1]);
      && NamesInAll(isIP, after) == NamesInAll(isIP, before) + NamesIn(isIP, replies[i].value)
      && CountInAll(isIP, after) == CountInAll(isIP, before) + CountIn(isIP, replies[i].value)
  {
    assert replies[..i + 1][..i] == replies[..i];
    if replies[i].Some? {
      OneMoreList(isIP, Received(replies[..i]), replies[i].value);
    }
  }

  lemma AddsOneMoreFile(isIP: string -> bool, before: seq<seq<string>>, local: seq<seq<string>>, i: nat)
    requires i < |local|
    ensures var lists, more := before + local[..i], before + local[..i + 1];
      && NamesInAll(isIP, more) == NamesInAll(isIP, lists) + NamesIn(isIP, local[i])
      && CountInAll(isIP, more) == CountInAll(isIP, lists) + CountIn(isIP, local[i])
  {
    assert before + local[..i + 1] == before + local[..i] + [local[i]];
    OneMoreList(isIP, before + local[..i], local[i]);
  }

  lemma {:induction false} NamesInAllExactly(isIP: string -> bool, lists: seq<seq<string>>, name: string)
    ensures name in NamesInAll(isIP, lists) <==> exists i :: 0 <= i < |lists| && name in NamesIn(isIP, lists[i])
  {
    if lists != [] {
      var n := |lists| - 1;
      NamesInAllExactly(isIP, lists[..n], name);
      if i :| 0 <= i < |lists| && name in NamesIn(isIP, lists[i]) && i < n {
        assert lists[..n][i] == lists[i];
      }
    }
  }

  // ---------- Which names are blocked ----------

  predicate EndsWith(s: string, t: string) {
    |t| <= |s| && s[|s| - |t|..] == t
  }

  // A listed name covers itself and every name below it.
  predicate Covers(name: string, domain: string) {
    name == domain || (name != "" && EndsWith(domain, "." + name))
  }

  ghost predicate Blocks(enabled: bool, whitelist: set<string>, blacklist: set<string>, blocked: set<string>,
                         domain: string)
  {
    && enabled && domain !in whitelist
    && (domain in blacklist || exists name :: name in blocked && Covers(name, domain))
  }

  lemma DotAndRest(t: string, j: nat)
    requires j < |t| && t[j] == '.'
    ensures (t + ".")[j..] == "." + (t[j + 1..] + ".")
  {
    assert t[j..] == "." + t[j + 1..];
    assert (t + ".")[j..] == t[j..] + ".";
  }

  // The parents the matcher looks up are the names, other than the domain, that cover it.
  lemma ParentCovers(domain: string, i: nat)
    requires IsFqdn(domain) && 1 <= i < |Split(TrimDot(domain))|
    ensures Covers(Join(Split(TrimDot(domain))[i..]) + ".", domain)
  {
    var t := TrimDot(domain);
    JoinedPartsAreATail(t, i);
    var j := TailFollowsADot(t, i);
    assert domain == t + ".";
    DotAndRest(t, j);
    assert |domain| - |"." + (t[j + 1..] + ".")| == j;
  }

  lemma CoverIsAParent(domain: string, name: string) returns (i: nat)
    requires IsFqdn(domain) && Covers(name, domain) && name != domain
    ensures 1 <= i < |Split(TrimDot(domain))| && Join(Split(TrimDot(domain))[i..]) + "." == name
  {
    var t := TrimDot(domain);
    var j := |domain| - |name| - 1;
    assert ("." + name)[0] == '.' && domain[j..][0] == '.';
    assert ("." + name)[1..] == name && domain[j..][1..] == domain[j + 1..];
    assert domain == t + ".";
    assert domain[j + 1..] == t[j + 1..] + ".";
    i := DotStartsATail(t, j);
    JoinedPartsAreATail(t, i);
  }

  // Every listed name is in the form the matcher looks up.
  lemma NamedIsCanonical(isIP: string -> bool, line: string)
    ensures var name := Named(isIP, line);
            name.Some? ==> IsFqdn(name.value) && CanonicalName(name.value) == name.value && NoSpace(name.value)
  {
    var words := Fields(line);
    WordsHaveNoSpace(line);
    if Candidate(words).Some? {
      var word := Candidate(words).value;
      assert word in words;
      CanonicalNameIsStable(word);
    }
  }

  // ---------- The object ----------

  class Filter {
    const isIP: string -> bool
    var enabled: bool
    var sources: seq<string>
    var blocked: set<string>
    var whitelist: set<string>
    var blacklist: set<string>
    var totalBlocked: nat
    var totalAllowed: nat
    var blocklistSize: nat
    var blockedCounts: map<string, nat>
    ghost var tally: Tally

    ghost predicate Valid()
      reads this
    {
      && blockedCounts == Counts(tally) && totalBlocked == Length(tally)
      && |blockedCounts| <= MAX_COUNTED && "" !in blockedCounts
    }

    constructor (isIP: string -> bool, enabled: bool, sources: seq<string>)
      ensures Valid() && this.isIP == isIP && this.enabled == enabled && this.sources == sources
      ensures blocked == {} && whitelist == {} && blacklist == {} && tally == Nothing
    {
      this.isIP, this.enabled, this.sources := isIP, enabled, sources;
      blocked, whitelist, blacklist := {}, {}, {};
      totalBlocked, totalAllowed, blocklistSize := 0, 0, 0;
      blockedCounts, tally := map[], Nothing;
    }

    // ---------- The matcher ----------

    // The exact match, then the walk up the parents.
    method IsListed(domain: string) returns (yes: bool)
      requires IsFqdn(domain)
      ensures yes <==> exists name :: name in blocked && Covers(name, domain)
    {
      if domain in blocked {
        assert Covers(domain, domain);
        return true;
      }
      var parts := Split(TrimDot(domain));
      var i := 1;
      while i < |parts|
        invariant 1 <= i
        invariant forall k :: 1 <= k < i && k < |parts| ==> Join(parts[k..]) + "." !in blocked
      {
        var parent := Join(parts[i..]) + ".";
        if parent in blocked {
          ParentCovers(domain, i);
          return true;
        }
        i := i + 1;
      }
      forall listed | listed in blocked
        ensures !Covers(listed, domain)
      {
        if Covers(listed, domain) {
          var k := CoverIsAParent(domain, listed);
        }
      }
      yes := false;
    }

    method FindLowest(counts: map<string, nat>) returns (lowest: string)
      requires |counts| > 0
      ensures IsLowest(counts, lowest)
    {
      var lowestCount, first := 0, true;
      lowest := "";
      var todo := counts.Keys;
      while todo != {}
        invariant todo <= counts.Keys && LowestSoFar(counts, todo, first, lowest, lowestCount)
      {
        ghost var left := todo;
        var key :| key in todo;
        todo := todo - {key};
        LowestOfOneMore(counts, left, first, lowest, lowestCount, key);
        if first || counts[key] < lowestCount {
          lowest, lowestCount, first := key, counts[key], false;
        }
      }
      assert first ==> |counts.Keys| == 0;
    }

    method ForgetLowest()
      requires blockedCounts == Counts(tally) && |blockedCounts| == MAX_COUNTED + 1 && "" !in blockedCounts
      modifies this`blockedCounts, this`tally
      ensures blockedCounts == Counts(tally) && |blockedCounts| == MAX_COUNTED && "" !in blockedCounts
      ensures tally.Evicted? && tally.past == old(tally) && IsLowest(old(blockedCounts), tally.key)
    {
      var lowest := FindLowest(blockedCounts);
      if lowest != "" {
        CountsWithout(tally, blockedCounts, lowest);
        blockedCounts := blockedCounts - {lowest};
        tally := Evicted(tally, lowest);
      }
    }

    method CountOne(domain: string)
      requires blockedCounts == Counts(tally) && domain != "" && "" !in blockedCounts
      modifies this`totalBlocked, this`blockedCounts, this`tally
      ensures totalBlocked == old(totalBlocked) + 1 && tally == Counted(old(tally), domain)
      ensures blockedCounts == Counts(tally) && "" !in blockedCounts
      ensures |blockedCounts| == |old(blockedCounts)| + if domain in old(blockedCounts) then 0 else 1
    {
      totalBlocked := totalBlocked + 1;
      CountsOneMore(tally, blockedCounts, domain);
      blockedCounts := blockedCounts[domain := Of(blockedCounts, domain) + 1];
      tally := Counted(tally, domain);
    }

    // One more block counted, both in all and for the domain; beyond the limit a domain with
    // the lowest count is forgotten.
    method RecordBlocked(domain: string)
      requires Valid() && domain != ""
      modifies this`totalBlocked, this`blockedCounts, this`tally
      ensures Valid() && totalBlocked == old(totalBlocked) + 1 && |blockedCounts| <= 10000
      ensures if |old(blockedCounts)| + (if domain in old(blockedCounts) then 0 else 1) <= 10000 then
                tally == Counted(old(tally), domain)
              else
                && tally.Evicted? && tally.past == Counted(old(tally), domain)
                && var counts, gone := Counts(tally.past), tally.key;
                   gone in counts && forall k :: k in counts ==> counts[gone] <= counts[k]
      ensures Times(tally, domain) == Times(old(tally), domain) + 1
    {
      CountOne(domain);
      if |blockedCounts| > MAX_COUNTED {
        ForgetLowest();
      }
    }

    method IsBlocked(name: string) returns (yes: bool)
      requires Valid()
      modifies this`totalBlocked, this`totalAllowed, this`blockedCounts, this`tally
      ensures Valid()
      ensures yes == Blocks(enabled, whitelist, blacklist, blocked, CanonicalName(name))
      ensures totalBlocked == old(totalBlocked) + if yes then 1 else 0
      ensures totalAllowed == old(totalAllowed) + if enabled && !yes then 1 else 0
      ensures Times(tally, CanonicalName(name)) == Times(old(tally), CanonicalName(name)) + if yes then 1 else 0
    {
      if !enabled {
        return false;
      }
      var domain := Lower(CanonicalName(name));
      CanonicalNameIsStable(name);
      if domain in whitelist {
        totalAllowed := totalAllowed + 1;
        return false;
      }
      if domain in blacklist {
        RecordBlocked(domain);
        return true;
      }
      var listed := IsListed(domain);
      if listed {
        RecordBlocked(domain);
        return true;
      }
      totalAllowed := totalAllowed + 1;
      yes := false;
    }

    // ---------- Loading lists ----------

    method ParseLine(text: string) returns (name: Option<string>)
      ensures name == Named(isIP, text)
    {
      var line := TrimSpace(text);
      TrimKeepsFields(text);
      WordsHaveNoSpace(text);
      if line == "" || line[0] == '#' || line[0] == '!' {
        return None;
      }
      var fields := Fields(line);
      var domain;
      if |fields| >= 2 && (fields[0] == "0.0.0.0" || fields[0] == "127.0.0.1") {
        domain := fields[1];
      } else if |fields| == 1 {
        domain := fields[0];
      } else {
        return None;
      }
      assert domain in fields && NoSpace(domain);
      WordsAreTrimmed(domain);
      ghost var word := domain;
      domain := Lower(TrimSpace(domain));
      if domain == "" || domain == "localhost" || domain == "localhost.localdomain" {
        return None;
      }
      if isIP(domain) {
        return None;
      }
      if domain[|domain| - 1] != '.' {
        domain := domain + ".";
      }
      assert domain == CanonicalName(word);
      name := Some(domain);
    }

    method ParseHostsFile(lines: seq<string>, known: set<string>) returns (names: set<string>, count: nat)
      ensures names == known + NamesIn(isIP, lines) && count == CountIn(isIP, lines)
    {
      names, count := known, 0;
      for i := 0 to |lines|
        invariant names == known + NamesIn(isIP, lines[..i]) && count == CountIn(isIP, lines[..i])
      {
        assert lines[..i + 1][..i] == lines[..i];
        var name := ParseLine(lines[i]);
        if name.Some? {
          names := names + {name.value};
          count := count + 1;
        }
      }
      assert lines[..|lines|] == lines;
    }

    method LoadLocalFiles(local: seq<seq<string>>, known: set<string>, ghost before: seq<seq<string>>, ghost total: nat)
      returns (names: set<string>, count: nat)
      requires known == NamesInAll(isIP, before) && total == CountInAll(isIP, before)
      ensures names == NamesInAll(isIP, before + local) && total + count == CountInAll(isIP, before + local)
    {
      names, count := known, 0;
      assert before + local[..0] == before;
      for i := 0 to |local|
        invariant names == NamesInAll(isIP, before + local[..i])
        invariant total + count == CountInAll(isIP, before + local[..i])
      {
        AddsOneMoreFile(isIP, before, local, i);
        var c;
        names, c := ParseHostsFile(local[i], names);
        count := count + c;
      }
      assert local[..|local|] == local;
    }

    // The new table is built beside the old one, which stays as it is all the while.  What
    // each source replies, if it does, and the local files that can be read are given.
    method BuildBlocklist(replies: seq<Option<seq<string>>>, local: seq<seq<string>>)
      returns (newBlocked: set<string>, total: nat)
      requires |replies| == |sources|
      ensures newBlocked == NamesInAll(isIP, Received(replies) + local)
      ensures total == CountInAll(isIP, Received(replies) + local)
    {
      newBlocked, total := {}, 0;
      for i := 0 to |sources|
        invariant newBlocked == NamesInAll(isIP, Received(replies[..i]))
        invariant total == CountInAll(isIP, Received(replies[..i]))
      {
        ReceivesOneMore(isIP, replies, i);
        if replies[i].None? {
          continue;
        }
        var count;
        newBlocked, count := ParseHostsFile(replies[i].value, newBlocked);
        total := total + count;
      }
      assert replies[..|sources|] == replies;
      var localCount;
      newBlocked, localCount := LoadLocalFiles(local, newBlocked, Received(replies), total);
      total := total + localCount;
    }

    method LoadBlocklists(replies: seq<Option<seq<string>>>, local: seq<seq<string>>)
      requires Valid() && |replies| == |sources|
      modifies this`blocked, this`blocklistSize
      ensures Valid()
      ensures blocked == NamesInAll(isIP, Received(replies) + local)
      ensures blocklistSize == CountInAll(isIP, Received(replies) + local)
    {
      var newBlocked, total := BuildBlocklist(replies, local);
      blocked := newBlocked;
      blocklistSize := total;
    }

    // ---------- Lists kept by hand ----------

    method AddToWhitelist(name: string)
      requires Valid()
      modifies this`whitelist
      ensures Valid() && whitelist == old(whitelist) + {CanonicalName(name)}
    {
      CanonicalNameIsStable(name);
      whitelist := whitelist + {Lower(CanonicalName(name))};
    }

    method RemoveFromWhitelist(name: string)
      requires Valid()
      modifies this`whitelist
      ensures Valid() && whitelist == old(whitelist) - {CanonicalName(name)}
    {
      CanonicalNameIsStable(name);
      whitelist := whitelist - {Lower(CanonicalName(name))};
    }

    method AddToBlacklist(name: string)
      requires Valid()
      modifies this`blacklist
      ensures Valid() && blacklist == old(blacklist) + {CanonicalName(name)}
    {
      CanonicalNameIsStable(name);
      blacklist := blacklist + {Lower(CanonicalName(name))};
    }

    method RemoveFromBlacklist(name: string)
      requires Valid()
      modifies this`blacklist
      ensures Valid() && blacklist == old(blacklist) - {CanonicalName(name)}
    {
      CanonicalNameIsStable(name);
      blacklist := blacklist - {Lower(CanonicalName(name))};
    }
  }
}
