// What the filter's lists block, in terms of the text of their lines and of names as they are
// written: without regard to case and to a final dot.
module FilterLaws {
  import opened Options
  import opened Selections
  import opened Dns
  import opened Text
  import opened Filter

  // ---------- The words of a line ----------

  predicate IsBlank(c: char) {
    c == ' ' || c == '\t' || c == '\n' || c as int == 11 || c as int == 12 || c == '\r'
  }

  predicate AllBlank(s: string) {
    forall i :: 0 <= i < |s| ==> IsBlank(s[i])
  }

  predicate IsWord(s: string) {
    s != "" && forall i :: 0 <= i < |s| ==> !IsBlank(s[i])
  }

  lemma {:induction false} BlanksHaveNoWords(s: string)
    requires AllBlank(s)
    ensures Fields(s) == []
  {
    if s != "" {
      assert IsBlank(s[0]);
      BlanksHaveNoWords(s[1..]);
    }
  }

  lemma {:induction false} WordEndsAtBlank(word: string, rest: string)
    requires forall i :: 0 <= i < |word| ==> !IsBlank(word[i])
    requires rest == "" || IsBlank(rest[0])
    ensures WordEnd(word + rest) == |word|
  {
    if word == "" {
      assert word + rest == rest;
    } else {
      assert !IsBlank(word[0]) && (word + rest)[0] == word[0];
      assert (word + rest)[1..] == word[1..] + rest;
      WordEndsAtBlank(word[1..], rest);
    }
  }

  // The first word of a line is what stands after its leading blanks up to the next blank, and the
  // others are the words of the rest.
  lemma {:induction false} FirstWordComesFirst(blanks: string, word: string, rest: string)
    requires AllBlank(blanks) && IsWord(word) && (rest == "" || IsBlank(rest[0]))
    ensures Fields(blanks + word + rest) == [word] + Fields(rest)
  {
    var s := blanks + word + rest;
    if blanks == "" {
      assert s == word + rest && !IsBlank(word[0]) && s[0] == word[0];
      WordEndsAtBlank(word, rest);
      assert s[..|word|] == word && s[|word|..] == rest;
    } else {
      assert IsBlank(blanks[0]) && s[0] == blanks[0];
      assert s[1..] == blanks[1..] + word + rest;
      FirstWordComesFirst(blanks[1..], word, rest);
    }
  }

  // ---------- What a line lists ----------

  // A line lists its only word, or the second after one of the two addresses, unless it is a
  // comment, and unless the word is a name of the local host or an address.
  predicate Accepts(isIP: string -> bool, words: seq<string>, word: string) {
    && words != [] && words[0] != "" && words[0][0] != '#' && words[0][0] != '!'
    && (words == [word] || (|words| >= 2 && words[0] in ["0.0.0.0", "127.0.0.1"] && words[1] == word))
    && !SameText(word, "localhost") && !SameText(word, "localhost.localdomain") && !isIP(Lower(word))
  }

  lemma ListableExactly(isIP: string -> bool, word: string)
    ensures Listable(isIP, Lower(word)) <==>
              !SameText(word, "localhost") && !SameText(word, "localhost.localdomain") && !isIP(Lower(word))
  {
    LowerExactly(word, "localhost");
    LowerExactly(word, "localhost.localdomain");
  }

  lemma CandidateExactly(isIP: string -> bool, words: seq<string>, word: string)
    requires forall w :: w in words ==> w != ""
    ensures Candidate(words) == Some(word) && Listable(isIP, Lower(word)) <==> Accepts(isIP, words, word)
  {
    ListableExactly(isIP, word);
  }

  lemma LineListsExactly(isIP: string -> bool, line: string, name: string)
    ensures Named(isIP, line) == Some(name) <==>
              exists word :: Accepts(isIP, Fields(line), word) && name == CanonicalName(word)
  {
    var words := Fields(line);
    WordsHaveNoSpace(line);
    if Named(isIP, line) == Some(name) {
      CandidateExactly(isIP, words, Candidate(words).value);
    }
    if word :| Accepts(isIP, words, word) && name == CanonicalName(word) {
      CandidateExactly(isIP, words, word);
    }
  }

  // ---------- Names at or below others ----------

  // The name is the other one, or stands below it: the other one is what follows a dot in it.
  predicate AtOrBelow(name: string, above: string) {
    SameName(name, above) || exists k :: 0 <= k < |name| - 1 && name[k] == '.' && SameName(name[k + 1..], above)
  }

  lemma LowerOfTail(s: string, k: nat)
    requires k <= |s|
    ensures Lower(s)[k..] == Lower(s[k..])
  {
  }

  // The part of a canonical name after a dot is the canonical name of the part of the name.
  lemma TailOfCanonicalName(name: string, k: nat)
    requires k + 1 < |name|
    ensures CanonicalName(name)[k] == '.' <==> name[k] == '.'
    ensures CanonicalName(name)[k + 1..] == CanonicalName(name[k + 1..])
  {
    var full := Fqdn(name);
    assert full[k + 1..] == Fqdn(name[k + 1..]);
    LowerOfTail(full, k + 1);
  }

  // A dot before the end of a canonical name stands before the end of the name.
  lemma CoverIsProper(name: string, k: nat)
    requires k + 1 < |CanonicalName(name)| && CanonicalName(name)[k] == '.'
    ensures k + 1 < |name|
  {
  }

  lemma CoverIsAbove(name: string, above: string)
    requires Covers(CanonicalName(above), CanonicalName(name)) && CanonicalName(above) != CanonicalName(name)
    ensures AtOrBelow(name, above)
  {
    var upper, lower := CanonicalName(above), CanonicalName(name);
    CanonicalNameIsStable(above);
    var k := |lower| - |upper| - 1;
    assert lower[k..] == "." + upper;
    assert lower[k] == '.' && lower[k + 1..] == upper;
    CoverIsProper(name, k);
    TailOfCanonicalName(name, k);
    NamesCompareWithoutCase(name[k + 1..], above);
  }

  lemma AboveCovers(name: string, above: string, k: nat)
    requires k + 1 < |name| && name[k] == '.' && SameName(name[k + 1..], above)
    ensures Covers(CanonicalName(above), CanonicalName(name))
  {
    var lower := CanonicalName(name);
    TailOfCanonicalName(name, k);
    NamesCompareWithoutCase(name[k + 1..], above);
    assert lower[k..] == "." + lower[k + 1..];
    assert |lower| - |"." + lower[k + 1..]| == k;
  }

  lemma CoversExactly(name: string, above: string)
    ensures Covers(CanonicalName(above), CanonicalName(name)) <==> AtOrBelow(name, above)
  {
    NamesCompareWithoutCase(name, above);
    if Covers(CanonicalName(above), CanonicalName(name)) && CanonicalName(above) != CanonicalName(name) {
      CoverIsAbove(name, above);
    }
    if k :| 0 <= k < |name| - 1 && name[k] == '.' && SameName(name[k + 1..], above) {
      AboveCovers(name, above, k);
    }
  }

  // ---------- What is blocked ----------

  function Canonicals(names: set<string>): set<string> {
    set name | name in names :: CanonicalName(name)
  }

  lemma InCanonicals(names: set<string>, name: string)
    ensures CanonicalName(name) in Canonicals(names) <==> exists n :: n in names && SameName(name, n)
  {
    forall n | n in names
      ensures CanonicalName(n) == CanonicalName(name) <==> SameName(name, n)
    {
      NamesCompareWithoutCase(name, n);
    }
  }

  // The j-th line of the i-th list lists the word.
  ghost predicate ListedAt(isIP: string -> bool, lists: seq<seq<string>>, i: int, j: int, word: string) {
    0 <= i < |lists| && 0 <= j < |lists[i]| && Accepts(isIP, Fields(lists[i][j]), word)
  }

  lemma NamesOfListsExactly(isIP: string -> bool, lists: seq<seq<string>>, name: string)
    ensures name in NamesInAll(isIP, lists) <==>
              exists i, j, word :: ListedAt(isIP, lists, i, j, word) && name == CanonicalName(word)
  {
    NamesInAllExactly(isIP, lists, name);
    if name in NamesInAll(isIP, lists) {
      var i :| 0 <= i < |lists| && name in NamesIn(isIP, lists[i]);
      NamesInExactly(isIP, lists[i], name);
      var j :| 0 <= j < |lists[i]| && Named(isIP, lists[i][j]) == Some(name);
      LineListsExactly(isIP, lists[i][j], name);
      var word :| Accepts(isIP, Fields(lists[i][j]), word) && name == CanonicalName(word);
      assert ListedAt(isIP, lists, i, j, word);
    }
    if i, j, word :| ListedAt(isIP, lists, i, j, word) && name == CanonicalName(word) {
      LineListsExactly(isIP, lists[i][j], name);
      NamesInExactly(isIP, lists[i], name);
    }
  }

  // Parser and matcher together: a name is blocked, if the filter is enabled, exactly when it is
  // not one of the names allowed by hand, and is one of those denied by hand or stands at or
  // below a word that some line lists.
  lemma BlocksExactlyWhatIsListed(isIP: string -> bool, lists: seq<seq<string>>, allowed: set<string>,
                                  denied: set<string>, enabled: bool, name: string)
    ensures Blocks(enabled, Canonicals(allowed), Canonicals(denied), NamesInAll(isIP, lists), CanonicalName(name))
       <==> && enabled
            && !(exists n :: n in allowed && SameName(name, n))
            && (|| (exists n :: n in denied && SameName(name, n))
                || exists i, j, word :: ListedAt(isIP, lists, i, j, word) && AtOrBelow(name, word))
  {
    InCanonicals(allowed, name);
    InCanonicals(denied, name);
    var domain := CanonicalName(name);
    if listed :| listed in NamesInAll(isIP, lists) && Covers(listed, domain) {
      NamesOfListsExactly(isIP, lists, listed);
      var i, j, word :| ListedAt(isIP, lists, i, j, word) && listed == CanonicalName(word);
      CoversExactly(name, word);
    }
    if i, j, word :| ListedAt(isIP, lists, i, j, word) && AtOrBelow(name, word) {
      NamesOfListsExactly(isIP, lists, CanonicalName(word));
      CoversExactly(name, word);
    }
  }

  // ---------- How many lines are counted ----------

  ghost predicate IsAccepted(isIP: string -> bool, line: string) {
    exists word :: Accepts(isIP, Fields(line), word)
  }

  ghost function AcceptedPlaces(isIP: string -> bool, lines: seq<string>): set<int> {
    set i | 0 <= i < |lines| && IsAccepted(isIP, lines[i])
  }

  lemma AcceptedExactly(isIP: string -> bool, line: string)
    ensures IsAccepted(isIP, line) <==> Named(isIP, line).Some?
  {
    if Named(isIP, line).Some? {
      LineListsExactly(isIP, line, Named(isIP, line).value);
    }
    if word :| Accepts(isIP, Fields(line), word) {
      LineListsExactly(isIP, line, CanonicalName(word));
    }
  }

  lemma PlacesOneMore(isIP: string -> bool, lines: seq<string>, line: string)
    ensures |AcceptedPlaces(isIP, lines + [line])|
         == |AcceptedPlaces(isIP, lines)| + if IsAccepted(isIP, line) then 1 else 0
  {
    var n, all := |lines|, lines + [line];
    forall i
      ensures i in AcceptedPlaces(isIP, all) <==>
                i in AcceptedPlaces(isIP, lines) || (i == n && IsAccepted(isIP, line))
    {
      if 0 <= i < n {
        assert all[i] == lines[i];
      }
    }
    assert AcceptedPlaces(isIP, all) == AcceptedPlaces(isIP, lines) + if IsAccepted(isIP, line) then {n} else {};
  }

  // The count of a list is the number of its lines that are accepted...
  lemma {:induction false} AcceptedLinesAreCounted(isIP: string -> bool, lines: seq<string>)
    ensures CountIn(isIP, lines) == |AcceptedPlaces(isIP, lines)|
  {
    if lines != [] {
      var init, last := lines[..|lines| - 1], lines[|lines| - 1];
      AcceptedLinesAreCounted(isIP, init);
      AcceptedExactly(isIP, last);
      PlacesOneMore(isIP, init, last);
      assert lines == init + [last];
    }
  }

  lemma {:induction false} CountsAddUp(isIP: string -> bool, a: seq<string>, b: seq<string>)
    ensures CountIn(isIP, a + b) == CountIn(isIP, a) + CountIn(isIP, b)
  {
    if b == [] {
      assert a + b == a;
    } else {
      CountsAddUp(isIP, a, b[..|b| - 1]);
      assert (a + b)[..|a + b| - 1] == a + b[..|b| - 1];
    }
  }

  // ...and that of several lists the number of accepted lines in them together.
  lemma {:induction false} ListsAreCountedTogether(isIP: string -> bool, lists: seq<seq<string>>)
    ensures CountInAll(isIP, lists) == |AcceptedPlaces(isIP, Joined(lists))|
  {
    AcceptedLinesAreCounted(isIP, Joined(lists));
    if lists != [] {
      var init, last := lists[..|lists| - 1], lists[|lists| - 1];
      ListsAreCountedTogether(isIP, init);
      AcceptedLinesAreCounted(isIP, Joined(init));
      CountsAddUp(isIP, Joined(init), last);
    }
  }

  function WhatCame(reply: Option<seq<string>>): Option<seq<string>> {
    reply
  }

  // The lists are those of the sources that replied, in order.
  lemma {:induction false} ReceivedSelects(replies: seq<Option<seq<string>>>)
    ensures Selects(replies, Received(replies), WhatCame)
  {
    if replies == [] {
      SelectsNone(WhatCame);
    } else {
      ReceivedSelects(replies[..|replies| - 1]);
      SelectsNext(replies, Received(replies[..|replies| - 1]), WhatCame);
    }
  }
}
