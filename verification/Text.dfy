// The string functions the filter calls, over ASCII.
module Text {
  predicate IsSpace(c: char) {
    c == ' ' || '\t' <= c <= '\r'
  }

  predicate NoSpace(s: string) {
    forall i :: 0 <= i < |s| ==> !IsSpace(s[i])
  }

  function TrimLeft(s: string): string {
    if s != "" && IsSpace(s[0]) then TrimLeft(s[1..]) else s
  }

  function TrimRight(s: string): string {
    if s != "" && IsSpace(s[|s| - 1]) then TrimRight(s[..|s| - 1]) else s
  }

  function TrimSpace(s: string): string {
    TrimRight(TrimLeft(s))
  }

  function WordEnd(s: string): nat {
    if s == "" || IsSpace(s[0]) then 0 else 1 + WordEnd(s[1..])
  }

  lemma {:induction false} WordEndIsTheEnd(s: string)
    ensures WordEnd(s) <= |s| && NoSpace(s[..WordEnd(s)])
    ensures WordEnd(s) < |s| ==> IsSpace(s[WordEnd(s)])
  {
    if s != "" && !IsSpace(s[0]) {
      WordEndIsTheEnd(s[1..]);
      var n := WordEnd(s[1..]);
      assert s[..n + 1] == [s[0]] + s[1..][..n];
    }
  }

  // The words of a line.
  function Fields(s: string): seq<string>
    decreases |s|
  {
    if s == "" then []
    else if IsSpace(s[0]) then Fields(s[1..])
    else
      WordEndIsTheEnd(s);
      [s[..WordEnd(s)]] + Fields(s[WordEnd(s)..])
  }

  lemma {:induction false} WordsHaveNoSpace(s: string)
    ensures forall w :: w in Fields(s) ==> w != "" && NoSpace(w)
    decreases |s|
  {
    if s != "" {
      if IsSpace(s[0]) {
        WordsHaveNoSpace(s[1..]);
      } else {
        WordEndIsTheEnd(s);
        WordsHaveNoSpace(s[WordEnd(s)..]);
      }
    }
  }

  lemma {:induction false} FieldsIgnoreLeadingSpace(s: string)
    ensures Fields(TrimLeft(s)) == Fields(s)
  {
    if s != "" && IsSpace(s[0]) {
      FieldsIgnoreLeadingSpace(s[1..]);
    }
  }

  lemma {:induction false} WordEndBeforeSpace(s: string, c: char)
    requires IsSpace(c)
    ensures WordEnd(s + [c]) == WordEnd(s)
  {
    if s != "" && !IsSpace(s[0]) {
      WordEndBeforeSpace(s[1..], c);
      assert (s + [c])[1..] == s[1..] + [c];
    }
  }

  lemma {:induction false} FieldsIgnoreAFinalSpace(s: string, c: char)
    requires IsSpace(c)
    ensures Fields(s + [c]) == Fields(s)
    decreases |s|
  {
    var t := s + [c];
    if s == "" {
      assert t[1..] == "";
    } else if IsSpace(s[0]) {
      assert t[1..] == s[1..] + [c];
      FieldsIgnoreAFinalSpace(s[1..], c);
    } else {
      var n := WordEnd(s);
      WordEndIsTheEnd(s);
      WordEndBeforeSpace(s, c);
      assert t[..n] == s[..n] && t[n..] == s[n..] + [c];
      FieldsIgnoreAFinalSpace(s[n..], c);
    }
  }

  lemma {:induction false} FieldsIgnoreTrailingSpace(s: string)
    ensures Fields(TrimRight(s)) == Fields(s)
  {
    if s != "" && IsSpace(s[|s| - 1]) {
      FieldsIgnoreTrailingSpace(s[..|s| - 1]);
      FieldsIgnoreAFinalSpace(s[..|s| - 1], s[|s| - 1]);
      assert s == s[..|s| - 1] + [s[|s| - 1]];
    }
  }

  lemma {:induction false} TrimLeftStarts(s: string)
    ensures TrimLeft(s) != "" ==> !IsSpace(TrimLeft(s)[0])
  {
    if s != "" && IsSpace(s[0]) {
      TrimLeftStarts(s[1..]);
    }
  }

  lemma {:induction false} TrimRightKeepsStart(s: string)
    ensures TrimRight(s) != "" ==> s != "" && TrimRight(s)[0] == s[0]
  {
    if s != "" && IsSpace(s[|s| - 1]) {
      TrimRightKeepsStart(s[..|s| - 1]);
    }
  }

  lemma TrimmedStartsAWord(s: string)
    ensures TrimSpace(s) != "" ==> !IsSpace(TrimSpace(s)[0])
  {
    TrimLeftStarts(s);
    TrimRightKeepsStart(TrimLeft(s));
  }

  // Trimming a line keeps its words, and leaves it starting with the first of them.
  lemma TrimKeepsFields(s: string)
    ensures var t := TrimSpace(s);
            && Fields(t) == Fields(s)
            && (t == "" <==> Fields(s) == [])
            && (t != "" ==> Fields(s)[0] != "" && t[0] == Fields(s)[0][0])
  {
    FieldsIgnoreLeadingSpace(s);
    FieldsIgnoreTrailingSpace(TrimLeft(s));
    TrimmedStartsAWord(s);
    var t := TrimSpace(s);
    if t != "" {
      WordEndIsTheEnd(t);
    }
  }

  lemma WordsAreTrimmed(s: string)
    requires NoSpace(s)
    ensures TrimSpace(s) == s
  {
  }

  // ---------- Splitting at dots ----------

  function FirstDot(s: string): (r: nat)
    ensures r <= |s| && (r < |s| ==> s[r] == '.')
  {
    if s == "" || s[0] == '.' then 0 else 1 + FirstDot(s[1..])
  }

  lemma {:induction false} NoEarlierDot(s: string, j: nat)
    requires j < |s| && s[j] == '.'
    ensures FirstDot(s) <= j
  {
    if j > 0 && s[0] != '.' {
      NoEarlierDot(s[1..], j - 1);
    }
  }

  function Split(s: string): seq<string>
    decreases |s|
  {
    var n := FirstDot(s);
    if n == |s| then [s] else [s[..n]] + Split(s[n + 1..])
  }

  function Join(parts: seq<string>): string {
    if |parts| == 0 then ""
    else if |parts| == 1 then parts[0]
    else parts[0] + "." + Join(parts[1..])
  }

  function TrimDot(s: string): string {
    if s != "" && s[|s| - 1] == '.' then s[..|s| - 1] else s
  }

  lemma {:induction false} SplitThenJoin(s: string)
    ensures Split(s) != [] && Join(Split(s)) == s
    decreases |s|
  {
    var n := FirstDot(s);
    if n < |s| {
      SplitThenJoin(s[n + 1..]);
      assert s == s[..n] + "." + s[n + 1..];
      assert Split(s)[1..] == Split(s[n + 1..]);
    }
  }

  function Dots(s: string): nat
    decreases |s|
  {
    var n := FirstDot(s);
    if n == |s| then 0 else 1 + Dots(s[n + 1..])
  }

  // What follows the i-th dot.
  function Tail(s: string, i: nat): string
    requires i <= Dots(s)
    decreases |s|
  {
    if i == 0 then s else Tail(s[FirstDot(s) + 1..], i - 1)
  }

  lemma DropsOneMore(head: string, parts: seq<string>, i: nat)
    requires 0 < i <= |parts|
    ensures ([head] + parts)[i..] == parts[i - 1..]
  {
  }

  // Splitting and joining all parts but the first few gives such a tail.
  lemma {:induction false} JoinedPartsAreATail(s: string, i: nat)
    ensures |Split(s)| == Dots(s) + 1
    ensures i <= Dots(s) ==> Join(Split(s)[i..]) == Tail(s, i)
    decreases |s|
  {
    SplitThenJoin(s);
    var n := FirstDot(s);
    if n < |s| {
      var parts := Split(s[n + 1..]);
      JoinedPartsAreATail(s[n + 1..], if i == 0 then 0 else i - 1);
      if 0 < i <= Dots(s) {
        DropsOneMore(s[..n], parts, i);
      }
    }
    if i == 0 {
      assert Split(s)[0..] == Split(s);
    }
  }

  // The text is what follows the dot at j.
  predicate Follows(s: string, j: nat, tail: string) {
    j < |s| && s[j] == '.' && tail == s[j + 1..]
  }

  lemma FollowsLater(s: string, n: nat, k: nat, tail: string)
    requires n < |s| && Follows(s[n + 1..], k, tail)
    ensures Follows(s, n + 1 + k, tail)
  {
    assert s[n + 1..][k + 1..] == s[n + 1 + k + 1..];
  }

  // A tail follows some dot, and what follows any dot is a tail.
  lemma {:induction false} TailFollowsADot(s: string, i: nat) returns (j: nat)
    requires 1 <= i <= Dots(s)
    ensures Follows(s, j, Tail(s, i))
    decreases |s|
  {
    j := FirstDot(s);
    if i > 1 {
      var k := TailFollowsADot(s[j + 1..], i - 1);
      FollowsLater(s, j, k, Tail(s[j + 1..], i - 1));
      j := j + 1 + k;
    }
  }

  lemma {:induction false} DotStartsATail(s: string, j: nat) returns (i: nat)
    requires j < |s| && s[j] == '.'
    ensures 1 <= i <= Dots(s) && Tail(s, i) == s[j + 1..]
    decreases |s|
  {
    NoEarlierDot(s, j);
    var n := FirstDot(s);
    i := 1;
    if n < j {
      var k := DotStartsATail(s[n + 1..], j - n - 1);
      assert s[n + 1..][j - n..] == s[j + 1..];
      i := k + 1;
    }
  }
}
