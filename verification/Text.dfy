/** The little of Go's string handling the configuration and the token file rely on:
    strings.TrimSpace, strings.Split, strings.Cut, strconv.ParseInt and %d. */
module Text {
  import opened Prelude

  // ----- Spaces -----

  predicate IsSpace(c: char) {
    var u := c as int;
    || 9 <= u <= 13 || u == 32 || u == 0x85 || u == 0xA0 || u == 0x1680 || 0x2000 <= u <= 0x200A
    || u == 0x2028 || u == 0x2029 || u == 0x202F || u == 0x205F || u == 0x3000
  }

  function TrimLeft(s: string): string {
    if s != [] && IsSpace(s[0]) then TrimLeft(s[1..]) else s
  }

  function TrimRight(s: string): string {
    if s != [] && IsSpace(s[|s| - 1]) then TrimRight(s[..|s| - 1]) else s
  }

  function TrimSpace(s: string): string {
    TrimRight(TrimLeft(s))
  }

  /** Nothing to trim. */
  predicate Trimmed(s: string) {
    s == [] || (!IsSpace(s[0]) && !IsSpace(s[|s| - 1]))
  }

  lemma {:induction false} TrimLeftStarts(s: string)
    ensures TrimLeft(s) == [] || !IsSpace(TrimLeft(s)[0])
  {
    if s != [] {
      TrimLeftStarts(s[1..]);
    }
  }

  lemma {:induction false} TrimRightEnds(s: string)
    ensures TrimRight(s) <= s
    ensures TrimRight(s) == [] || !IsSpace(TrimRight(s)[|TrimRight(s)| - 1])
  {
    if s != [] {
      TrimRightEnds(s[..|s| - 1]);
    }
  }

  /** Trimming leaves no space at either end, and only text without any is a fixed point. */
  lemma TrimTrims(s: string)
    ensures Trimmed(TrimSpace(s))
    ensures TrimSpace(s) == s <==> Trimmed(s)
  {
    TrimLeftStarts(s);
    TrimRightEnds(TrimLeft(s));
  }

  // ----- Splitting -----

  function IndexOf(s: string, c: char): (i: nat)
    ensures i <= |s| && (i < |s| <==> c in s)
    ensures i < |s| ==> s[i] == c
    ensures c !in s[..i]
  {
    if s == [] || s[0] == c then 0
    else
      assert s == [s[0]] + s[1..];
      1 + IndexOf(s[1..], c)
  }

  function Split(s: string, sep: char): (parts: seq<string>)
    ensures |parts| >= 1
  {
    var i := IndexOf(s, sep);
    if i == |s| then [s] else [s[..i]] + Split(s[i + 1..], sep)
  }

  function Join(parts: seq<string>, sep: char): string
    requires parts != []
  {
    if |parts| == 1 then parts[0] else parts[0] + [sep] + Join(parts[1..], sep)
  }

  lemma {:induction false} IndexOfFirst(a: string, c: char, b: string)
    requires c !in a
    ensures IndexOf(a + [c] + b, c) == |a|
  {
    if a != [] {
      IndexOfFirst(a[1..], c, b);
      assert (a + [c] + b)[1..] == a[1..] + [c] + b;
    }
  }

  lemma SplitFirst(a: string, sep: char, rest: string)
    requires sep !in a
    ensures Split(a + [sep] + rest, sep) == [a] + Split(rest, sep)
  {
    IndexOfFirst(a, sep, rest);
    var s := a + [sep] + rest;
    assert s[..|a|] == a && s[|a| + 1..] == rest;
  }

  /** Splitting undoes joining of separator-free parts, and joining undoes splitting. */
  lemma {:induction false} SplitJoin(parts: seq<string>, sep: char)
    requires parts != [] && forall i :: 0 <= i < |parts| ==> sep !in parts[i]
    ensures Split(Join(parts, sep), sep) == parts
  {
    hide IndexOf;
    if |parts| == 1 {
      SplitNone(parts[0], sep);
    } else {
      hide Split;
      SplitFirst(parts[0], sep, Join(parts[1..], sep));
      SplitJoin(parts[1..], sep);
      assert parts == [parts[0]] + parts[1..];
    }
  }

  lemma SplitNone(s: string, sep: char)
    requires sep !in s
    ensures Split(s, sep) == [s]
  {
  }

  lemma {:induction false} JoinSplit(s: string, sep: char)
    ensures Join(Split(s, sep), sep) == s
    ensures forall i :: 0 <= i < |Split(s, sep)| ==> sep !in Split(s, sep)[i]
  {
    var i := IndexOf(s, sep);
    if i < |s| {
      JoinSplit(s[i + 1..], sep);
      assert s == s[..i] + [sep] + s[i + 1..];
      assert Split(s, sep)[1..] == Split(s[i + 1..], sep);
    }
  }

  datatype Pieces = Pieces(before: string, after: string, found: bool)

  function Cut(s: string, sep: char): Pieces {
    var i := IndexOf(s, sep);
    if i == |s| then Pieces(s, "", false) else Pieces(s[..i], s[i + 1..], true)
  }

  lemma CutAt(a: string, sep: char, b: string)
    requires sep !in a
    ensures Cut(a + [sep] + b, sep) == Pieces(a, b, true)
  {
    IndexOfFirst(a, sep, b);
    var s := a + [sep] + b;
    assert s[..|a|] == a && s[|a| + 1..] == b;
  }

  lemma CutJoins(s: string, sep: char)
    ensures var p := Cut(s, sep);
            if p.found then s == p.before + [sep] + p.after && sep !in p.before else sep !in s
  {
  }

  // ----- Numbers -----

  const INT64_LIMIT := 0x8000_0000_0000_0000

  predicate IsDigit(c: char) {
    '0' <= c <= '9'
  }

  predicate AllDigits(s: string) {
    forall i :: 0 <= i < |s| ==> IsDigit(s[i])
  }

  function Value(s: string): nat
    requires AllDigits(s)
  {
    if s == [] then 0 else Value(s[..|s| - 1]) * 10 + (s[|s| - 1] as int - '0' as int)
  }

  /** Base 10 into 64 bits: an optional sign, then digits, within range. */
  function ParseInt(s: string): Option<int> {
    var signed := s != [] && (s[0] == '+' || s[0] == '-');
    var digits := if signed then s[1..] else s;
    if digits == [] || !AllDigits(digits) then None
    else
      var v: int := Value(digits);
      if s[0] == '-' then (if v > INT64_LIMIT then None else Some(-v))
      else if v >= INT64_LIMIT then None else Some(v)
  }

  function Digits(n: nat): string {
    var last := ['0' + (n % 10) as char];
    if n < 10 then last else Digits(n / 10) + last
  }

  function FormatInt(n: int): string {
    if n < 0 then "-" + Digits(-n) else Digits(n)
  }

  lemma {:induction false} DigitsValue(n: nat)
    ensures Digits(n) != [] && AllDigits(Digits(n)) && Value(Digits(n)) == n
  {
    var last := '0' + (n % 10) as char;
    if n >= 10 {
      DigitsValue(n / 10);
      assert Digits(n) == Digits(n / 10) + [last];
      assert Digits(n)[..|Digits(n)| - 1] == Digits(n / 10);
    } else {
      assert [last][..0] == [];
    }
  }

  /** What parses fits 64 bits and is digits after at most one sign. */
  lemma {:induction false} ParseIntExactly(s: string, n: int)
    ensures ParseInt(s) == Some(n) ==> -0x8000_0000_0000_0000 <= n <= 0x7FFF_FFFF_FFFF_FFFF
    ensures ParseInt(s).Some? ==> s != [] && forall i :: 0 < i < |s| ==> IsDigit(s[i])
    ensures ParseInt(s).Some? ==> IsDigit(s[0]) || ((s[0] == '+' || s[0] == '-') && |s| > 1)
  {
    if ParseInt(s).Some? && !IsDigit(s[0]) {
      assert forall i :: 0 < i < |s| ==> s[i] == s[1..][i - 1];
    }
  }

  /** Every 64-bit integer survives formatting and parsing. */
  lemma ParseFormat(n: int)
    requires -INT64_LIMIT <= n < INT64_LIMIT
    ensures ParseInt(FormatInt(n)) == Some(n)
  {
    hide Digits, Value;
    if n < 0 {
      DigitsValue(-n);
      assert FormatInt(n)[1..] == Digits(-n);
    } else {
      DigitsValue(n);
      assert IsDigit(Digits(n)[0]);
    }
  }
}
