// Names, records and messages, as far as the server looks into them, and the two keys it
// builds from a question.  Names are ASCII with unescaped labels.
module Dns {
  type u16 = x: int | 0 <= x < 0x1_0000
  type u32 = x: int | 0 <= x < 0x1_0000_0000

  const TYPE_A: u16 := 1
  const TYPE_NS: u16 := 2
  const TYPE_CNAME: u16 := 5
  const TYPE_OPT: u16 := 41
  const CLASS_INET: u16 := 1

  const RCODE_SUCCESS: nat := 0
  const RCODE_SERVER_FAILURE: nat := 2
  const RCODE_NAME_ERROR: nat := 3

  // The record type in the header and the Go type of the record are separate things.
  datatype Header = Header(name: string, rrtype: u16, class_: u16, ttl: u32)

  datatype RData =
    | A(ip: string)
    | AAAA(ip6: string)
    | NS(host: string)
    | CNAME(target: string)
    | OtherData(text: string)

  datatype RR = RR(hdr: Header, data: RData)

  datatype Question = Question(name: string, qtype: u16, qclass: u16)

  datatype Msg = Msg(
    question: seq<Question>,
    response: bool,
    authoritative: bool,
    truncated: bool,
    recursionDesired: bool,
    recursionAvailable: bool,
    rcode: nat,
    answer: seq<RR>,
    ns: seq<RR>,
    extra: seq<RR>)

  // ---------- Names ----------

  predicate IsFqdn(name: string) {
    name != "" && name[|name| - 1] == '.'
  }

  function Fqdn(name: string): string {
    if IsFqdn(name) then name else name + "."
  }

  function LowerChar(c: char): char {
    if 'A' <= c <= 'Z' then c - 'A' + 'a' else c
  }

  function Lower(s: string): string {
    seq(|s|, i requires 0 <= i < |s| => LowerChar(s[i]))
  }

  function CanonicalName(name: string): string {
    Lower(Fqdn(name))
  }

  lemma LowerIsIdempotent(s: string)
    ensures Lower(Lower(s)) == Lower(s)
  {
  }

  lemma CanonicalNameIsStable(name: string)
    ensures CanonicalName(Fqdn(name)) == CanonicalName(name)
    ensures IsFqdn(CanonicalName(name))
    ensures CanonicalName(CanonicalName(name)) == CanonicalName(name)
    ensures Lower(CanonicalName(name)) == CanonicalName(name)
  {
    LowerIsIdempotent(Fqdn(name));
  }

  // ---------- When two names are the same ----------

  predicate IsUpper(c: char) {
    'A' <= c <= 'Z'
  }

  // The same character, or the two cases of one ASCII letter.
  predicate SameLetter(c: char, d: char) {
    || c == d
    || (IsUpper(c) && d as int == c as int + 32)
    || (IsUpper(d) && c as int == d as int + 32)
  }

  predicate SameText(s: string, t: string) {
    |s| == |t| && forall i :: 0 <= i < |s| ==> SameLetter(s[i], t[i])
  }

  predicate EndsInDot(s: string) {
    s != "" && s[|s| - 1] == '.'
  }

  // The names agree but for case, and but for a final dot that one of them lacks.
  predicate SameName(a: string, b: string) {
    || SameText(a, b)
    || (!EndsInDot(a) && SameText(a + ".", b))
    || (!EndsInDot(b) && SameText(a, b + "."))
  }

  lemma QualifiedEndsInDot(name: string)
    ensures EndsInDot(Fqdn(name)) && Fqdn(name) == if EndsInDot(name) then name else name + "."
  {
  }

  // Lower-casing gives the one text that is the same and has no capital.
  lemma LowerExactly(s: string, t: string)
    ensures t == Lower(s) <==> SameText(s, t) && forall i :: 0 <= i < |t| ==> !IsUpper(t[i])
  {
    forall i | 0 <= i < |s|
      ensures SameLetter(s[i], Lower(s)[i]) && !IsUpper(Lower(s)[i])
    {
    }
    if SameText(s, t) && forall i :: 0 <= i < |t| ==> !IsUpper(t[i]) {
      forall i | 0 <= i < |s|
        ensures t[i] == Lower(s)[i]
      {
        assert SameLetter(s[i], t[i]) && !IsUpper(t[i]);
      }
    }
  }

  lemma LowerComparesText(s: string, t: string)
    ensures Lower(s) == Lower(t) <==> SameText(s, t)
  {
    if Lower(s) == Lower(t) {
      assert |s| == |Lower(s)| && |t| == |Lower(t)|;
      forall i | 0 <= i < |s|
        ensures SameLetter(s[i], t[i])
      {
        assert Lower(s)[i] == Lower(t)[i];
      }
    }
  }

  lemma LastLetterIsDot(s: string, t: string)
    requires SameText(s, t)
    ensures EndsInDot(s) <==> EndsInDot(t)
  {
    if s != "" {
      assert SameLetter(s[|s| - 1], t[|s| - 1]);
    }
  }

  lemma DotsMakeNoDifference(s: string, t: string)
    ensures SameText(s + ".", t + ".") <==> SameText(s, t)
  {
    if SameText(s + ".", t + ".") {
      forall i | 0 <= i < |s|
        ensures SameLetter(s[i], t[i])
      {
        assert SameLetter((s + ".")[i], (t + ".")[i]);
      }
    }
  }

  // Canonical names compare names without regard to case and a final dot.
  lemma NamesCompareWithoutCase(a: string, b: string)
    ensures CanonicalName(a) == CanonicalName(b) <==> SameName(a, b)
  {
    LowerComparesText(Fqdn(a), Fqdn(b));
    QualifiedEndsInDot(a);
    QualifiedEndsInDot(b);
    DotsMakeNoDifference(a, b);
    if SameText(a, b) {
      LastLetterIsDot(a, b);
    }
    if SameText(a + ".", b) {
      LastLetterIsDot(a + ".", b);
    }
    if SameText(a, b + ".") {
      LastLetterIsDot(a, b + ".");
    }
  }

  // ---------- Queries and replies ----------

  function NewRootQuery(name: string, qtype: u16): Msg {
    Msg([Question(Fqdn(name), qtype, CLASS_INET)], false, false, false, false, false, RCODE_SUCCESS, [], [], [])
  }

  // An empty successful reply to a query.
  function SetReply(query: Msg): Msg {
    Msg(if query.question == [] then [] else [query.question[0]],
        true, false, false, query.recursionDesired, false, RCODE_SUCCESS, [], [], [])
  }

  // ---------- Keys ----------

  predicate NoSlash(s: string) {
    '/' !in s
  }

  // A string splits at its last slash in one way only.
  lemma LastSlashIsUnique(a: string, b: string, c: string, d: string)
    requires NoSlash(b) && NoSlash(d)
    requires a + "/" + b == c + "/" + d
    ensures a == c && b == d
  {
    var s, t := a + "/" + b, c + "/" + d;
    assert s[|a|] == '/' && forall i :: |a| < i < |s| ==> s[i] == b[i - |a| - 1];
    assert t[|c|] == '/' && forall i :: |c| < i < |t| ==> t[i] == d[i - |c| - 1];
    assert |a| == |c|;
    assert a == s[..|a|] && c == t[..|c|];
    assert b == s[|a| + 1..] && d == t[|c| + 1..];
  }

  function Decimal(n: nat): (r: string)
    ensures r != "" && NoSlash(r)
  {
    var digit := ['0' + (n % 10) as char];
    if n < 10 then digit else Decimal(n / 10) + digit
  }

  lemma {:induction false} DecimalIsInjective(m: nat, n: nat)
    requires Decimal(m) == Decimal(n)
    ensures m == n
  {
    var s, t := Decimal(m), Decimal(n);
    assert s[|s| - 1] == '0' + (m % 10) as char;
    assert t[|t| - 1] == '0' + (n % 10) as char;
    assert m % 10 == n % 10;
    if 10 <= m && 10 <= n {
      assert s[..|s| - 1] == Decimal(m / 10) && t[..|t| - 1] == Decimal(n / 10);
      DecimalIsInjective(m / 10, n / 10);
    }
  }

  // The key of the in-flight table: case-sensitive name, numeric codes.
  function InflightKey(name: string, qtype: u16, qclass: u16): string {
    name + "/" + Decimal(qtype) + "/" + Decimal(qclass)
  }

  lemma InflightKeyIsInjective(q1: Question, q2: Question)
    requires InflightKey(q1.name, q1.qtype, q1.qclass) == InflightKey(q2.name, q2.qtype, q2.qclass)
    ensures q1 == q2
  {
    LastSlashIsUnique(q1.name + "/" + Decimal(q1.qtype), Decimal(q1.qclass),
                      q2.name + "/" + Decimal(q2.qtype), Decimal(q2.qclass));
    LastSlashIsUnique(q1.name, Decimal(q1.qtype), q2.name, Decimal(q2.qtype));
    DecimalIsInjective(q1.qtype, q2.qtype);
    DecimalIsInjective(q1.qclass, q2.qclass);
  }

  // The DNS library's mnemonic tables; a code without an entry prints as the empty string.
  datatype Tables = Tables(types: map<u16, string>, classes: map<u16, string>)

  function Mnemonic(table: map<u16, string>, code: u16): string {
    if code in table then table[code] else ""
  }

  ghost predicate ProperTable(table: map<u16, string>) {
    && (forall c | c in table :: table[c] != "" && NoSlash(table[c]))
    && forall c, d | c in table && d in table && table[c] == table[d] :: c == d
  }

  ghost predicate ProperTables(tables: Tables) {
    && ProperTable(tables.types) && ProperTable(tables.classes)
    && CLASS_INET in tables.classes
  }

  // The key of the cache: canonical name, mnemonics.
  function CacheKey(tables: Tables, name: string, qtype: u16, qclass: u16): (r: string)
    ensures r != ""
  {
    CanonicalName(name) + "/" + Mnemonic(tables.types, qtype) + "/" + Mnemonic(tables.classes, qclass)
  }

  // Codes are told apart when they are equal or at least one of them has a mnemonic.
  predicate SameCode(table: map<u16, string>, c: u16, d: u16) {
    c == d || (c !in table && d !in table)
  }

  // Exactly which questions share a cache slot: the names agree but for case and a final dot.
  lemma CacheKeysCollideExactly(tables: Tables, q1: Question, q2: Question)
    requires ProperTables(tables)
    ensures CacheKey(tables, q1.name, q1.qtype, q1.qclass) == CacheKey(tables, q2.name, q2.qtype, q2.qclass)
       <==> && SameName(q1.name, q2.name)
            && SameCode(tables.types, q1.qtype, q2.qtype)
            && SameCode(tables.classes, q1.qclass, q2.qclass)
  {
    var t1, t2 := Mnemonic(tables.types, q1.qtype), Mnemonic(tables.types, q2.qtype);
    var c1, c2 := Mnemonic(tables.classes, q1.qclass), Mnemonic(tables.classes, q2.qclass);
    var n1, n2 := CanonicalName(q1.name), CanonicalName(q2.name);
    NamesCompareWithoutCase(q1.name, q2.name);
    if n1 + "/" + t1 + "/" + c1 == n2 + "/" + t2 + "/" + c2 {
      LastSlashIsUnique(n1 + "/" + t1, c1, n2 + "/" + t2, c2);
      LastSlashIsUnique(n1, t1, n2, t2);
    }
  }
}
