/** The PHP string functions the framework relies on: implode, trim, strtoupper, integer casts and strtr. */
module Strings {
  import opened Wrappers
  import opened PhpArrays

  // ---------------------------------------------------------------- implode

  /** implode(sep, parts) */
  function Join(parts: seq<string>, sep: string): string
  {
    if |parts| == 0 then ""
    else if |parts| == 1 then parts[0]
    else Join(parts[..|parts| - 1], sep) + sep + parts[|parts| - 1]
  }

  /** One more part adds the separator and that part at the end, and nothing else. */
  lemma JoinAppend(parts: seq<string>, x: string, sep: string)
    ensures Join(parts + [x], sep) == if parts == [] then x else Join(parts, sep) + sep + x
  {
    assert (parts + [x])[..|parts|] == parts;
  }

  lemma {:induction false} JoinConcat(a: seq<string>, b: seq<string>, sep: string)
    requires a != [] && b != []
    ensures Join(a + b, sep) == Join(a, sep) + sep + Join(b, sep)
    decreases |b|
  {
    var n := |b| - 1;
    if n == 0 {
      JoinAppend(a, b[0], sep);
      assert a + b == a + [b[0]];
    } else {
      var b' := b[..n];
      assert a + b == (a + b') + [b[n]];
      assert b == b' + [b[n]];
      JoinAppend(a + b', b[n], sep);
      JoinAppend(b', b[n], sep);
      JoinConcat(a, b', sep);
    }
  }

  // ---------------------------------------------------------------- trim

  /** The characters PHP's trim strips by default: " \t\n\r\0\x0B". */
  const WHITESPACE: set<char> := {' ', '\t', '\n', '\r', 0 as char, 11 as char}

  /** ltrim(s, cs) */
  function TrimLeft(s: string, cs: set<char>): (r: string)
  {
    if s != [] && s[0] in cs then TrimLeft(s[1..], cs) else s
  }

  /** rtrim(s, cs) */
  function TrimRight(s: string, cs: set<char>): (r: string)
  {
    if s != [] && s[|s| - 1] in cs then TrimRight(s[..|s| - 1], cs) else s
  }

  /** trim(s): strips PHP whitespace from both ends. */
  function Trim(s: string): string
  {
    TrimRight(TrimLeft(s, WHITESPACE), WHITESPACE)
  }

  /** ltrim keeps a suffix, which does not start with `cs`, and strips only characters of `cs`. */
  lemma {:induction false} TrimLeftShape(s: string, cs: set<char>)
    ensures var r := TrimLeft(s, cs);
      && |r| <= |s| && r == s[|s| - |r|..]
      && (r != [] ==> r[0] !in cs)
      && (forall i :: 0 <= i < |s| - |r| ==> s[i] in cs)
    decreases |s|
  {
    if s != [] && s[0] in cs {
      TrimLeftShape(s[1..], cs);
      var r := TrimLeft(s, cs);
      forall i | 0 < i < |s| - |r| ensures s[i] in cs {
        assert s[i] == s[1..][i - 1];
      }
    }
  }

  /** rtrim keeps a prefix, which does not end with `cs`, and strips only characters of `cs`. */
  lemma {:induction false} TrimRightShape(s: string, cs: set<char>)
    ensures var r := TrimRight(s, cs);
      && |r| <= |s| && r == s[..|r|]
      && (r != [] ==> r[|r| - 1] !in cs)
      && (forall i :: |r| <= i < |s| ==> s[i] in cs)
    decreases |s|
  {
    if s != [] && s[|s| - 1] in cs {
      TrimRightShape(s[..|s| - 1], cs);
    }
  }

  /** A string that neither starts nor ends with a character of `cs` is its own trim. */
  lemma TrimLeftNoop(s: string, cs: set<char>)
    requires s == [] || s[0] !in cs
    ensures TrimLeft(s, cs) == s
  {
  }

  lemma TrimRightNoop(s: string, cs: set<char>)
    requires s == [] || s[|s| - 1] !in cs
    ensures TrimRight(s, cs) == s
  {
  }

  /** Characterisation of rtrim: the longest prefix not ending in `cs`. */
  lemma {:induction false} TrimRightUnique(s: string, cs: set<char>, p: string)
    requires |p| <= |s| && p == s[..|p|]
    requires p == [] || p[|p| - 1] !in cs
    requires forall i :: |p| <= i < |s| ==> s[i] in cs
    ensures TrimRight(s, cs) == p
    decreases |s|
  {
    if |s| > |p| {
      assert s[|s| - 1] in cs;
      assert s[..|s| - 1][..|p|] == p;
      TrimRightUnique(s[..|s| - 1], cs, p);
    }
  }

  /** Characterisation of ltrim: the longest suffix not starting with `cs`. */
  lemma {:induction false} TrimLeftUnique(s: string, cs: set<char>, p: string)
    requires |p| <= |s| && p == s[|s| - |p|..]
    requires p == [] || p[0] !in cs
    requires forall i :: 0 <= i < |s| - |p| ==> s[i] in cs
    ensures TrimLeft(s, cs) == p
    decreases |s|
  {
    if |s| > |p| {
      assert s[0] in cs;
      assert s[1..][|s| - 1 - |p|..] == p;
      TrimLeftUnique(s[1..], cs, p);
    }
  }

  // ---------------------------------------------------------------- strtoupper

  function UpperChar(c: char): char
  {
    if 'a' <= c <= 'z' then (c as int - 32) as char else c
  }

  /** strtoupper: ASCII letters only, as PHP 8 does. */
  function ToUpper(s: string): (r: string)
    ensures |r| == |s|
  {
    if s == [] then [] else [UpperChar(s[0])] + ToUpper(s[1..])
  }

  // ---------------------------------------------------------------- integers

  function DigitChar(d: nat): (c: char)
    requires d < 10
    ensures '0' <= c <= '9'
  {
    ('0' as int + d) as char
  }

  /** Decimal digits of a natural number, without leading zeros. */
  function NatToString(n: nat): (r: string)
    ensures r != []
    ensures AllDigits(r)
    ensures |r| > 1 ==> r[0] != '0'
  {
    if n < 10 then [DigitChar(n)] else NatToString(n / 10) + [DigitChar(n % 10)]
  }

  /** (string)$i for an integer. */
  function IntToString(i: int): string
  {
    if i < 0 then "-" + NatToString(-i) else NatToString(i)
  }

  predicate AllDigits(s: string)
  {
    forall i :: 0 <= i < |s| ==> '0' <= s[i] <= '9'
  }

  /** The value of a string of decimal digits. */
  function ParseDigits(s: string): nat
    requires AllDigits(s)
  {
    if s == [] then 0 else ParseDigits(s[..|s| - 1]) * 10 + (s[|s| - 1] as int - '0' as int)
  }

  /** Reads back a string produced by IntToString. */
  function ParseInt(s: string): Option<int>
  {
    if s != [] && s[0] == '-' then
      var t := s[1..];
      if t != [] && AllDigits(t) then Some(0 - ParseDigits(t) as int) else None
    else if s != [] && AllDigits(s) then Some(ParseDigits(s))
    else None
  }

  lemma {:induction false} ParseNatToString(n: nat)
    ensures ParseDigits(NatToString(n)) == n
  {
    if n >= 10 {
      ParseNatToString(n / 10);
      var s := NatToString(n);
      assert s[..|s| - 1] == NatToString(n / 10);
    }
  }

  /** IntToString loses nothing: its output reads back as the same integer. */
  lemma IntToStringRoundTrip(i: int)
    ensures ParseInt(IntToString(i)) == Some(i)
  {
    if i < 0 {
      NegativeRoundTrip(i);
    } else {
      NaturalRoundTrip(i);
    }
  }

  lemma NegativeRoundTrip(i: int)
    requires i < 0
    ensures ParseInt("-" + NatToString(-i)) == Some(i)
  {
    MinusDigits(NatToString(-i));
    ParseNatToString(-i);
  }

  /** A minus sign before digits reads back as the negated digits' value. */
  lemma MinusDigits(d: string)
    requires d != [] && AllDigits(d)
    ensures ParseInt("-" + d) == Some(0 - ParseDigits(d) as int)
  {
    var s := "-" + d;
    assert s[0] == '-' && s[1..] == d;
  }

  lemma NaturalRoundTrip(n: nat)
    ensures ParseInt(NatToString(n)) == Some(n)
  {
    var d := NatToString(n);
    ParseNatToString(n);
    assert d[0] != '-';
  }

  /** Different integers print differently. */
  lemma IntToStringInjective(i: int, j: int)
    requires IntToString(i) == IntToString(j)
    ensures i == j
  {
    IntToStringRoundTrip(i);
    IntToStringRoundTrip(j);
  }

  // ---------------------------------------------------------------- strtr

  /**
   * The pair strtr(s, pairs) replaces at the start of `s`: the one with the longest
   * non-empty key that is a prefix of `s` (PHP ignores empty keys).
   */
  function LongestKeyAt(s: string, pairs: seq<(string, string)>): (r: Option<nat>)
    ensures r.Some? ==> r.value < |pairs| && pairs[r.value].0 != [] && pairs[r.value].0 <= s
    ensures r.Some? ==> forall j :: 0 <= j < |pairs| && pairs[j].0 != [] && pairs[j].0 <= s ==>
                                    |pairs[j].0| <= |pairs[r.value].0|
    ensures r.None? ==> forall j :: 0 <= j < |pairs| ==> pairs[j].0 == [] || !(pairs[j].0 <= s)
  {
    if pairs == [] then None
    else
      var n := |pairs| - 1;
      var rest := LongestKeyAt(s, pairs[..n]);
      var k := pairs[n].0;
      if k != [] && k <= s && (rest.None? || |pairs[rest.value].0| < |k|) then Some(n) else rest
  }

  /**
   * strtr(s, pairs): scans `s` left to right, replacing the longest key found at each
   * position by its value; replaced text is not scanned again.
   */
  function Strtr(s: string, pairs: seq<(string, string)>): string
    decreases |s|
  {
    if s == [] then []
    else match LongestKeyAt(s, pairs)
      case None => [s[0]] + Strtr(s[1..], pairs)
      case Some(j) => pairs[j].1 + Strtr(s[|pairs[j].0|..], pairs)
  }

  /** No character of `a` is the first character of a key. */
  predicate NoKeyStarts(a: string, pairs: seq<(string, string)>)
  {
    forall i, j :: 0 <= i < |a| && 0 <= j < |pairs| && pairs[j].0 != [] ==> pairs[j].0[0] != a[i]
  }

  /** A position where no key starts is copied, and the scan moves on by one. */
  lemma StrtrNoKeyHere(c: char, b: string, pairs: seq<(string, string)>)
    requires forall j :: 0 <= j < |pairs| && pairs[j].0 != [] ==> !(pairs[j].0 <= [c] + b)
    ensures Strtr([c] + b, pairs) == [c] + Strtr(b, pairs)
  {
    var s := [c] + b;
    assert LongestKeyAt(s, pairs).None?;
    assert s[1..] == b;
  }

  /** Text in which no key can start is copied unchanged. */
  lemma {:induction false} StrtrPlain(a: string, b: string, pairs: seq<(string, string)>)
    requires NoKeyStarts(a, pairs)
    ensures Strtr(a + b, pairs) == a + Strtr(b, pairs)
    decreases |a|
  {
    if a != [] {
      PlainStep(a, b, pairs);
      StrtrPlain(a[1..], b, pairs);
      HeadThenRest(a, Strtr(b, pairs));
    } else {
      assert a + b == b;
    }
  }

  lemma HeadThenRest<T>(a: seq<T>, x: seq<T>)
    requires a != []
    ensures [a[0]] + (a[1..] + x) == a + x
  {
    assert [a[0]] + a[1..] == a;
  }

  /** The first character of plain text is copied, and the rest is still plain. */
  lemma PlainStep(a: string, b: string, pairs: seq<(string, string)>)
    requires a != [] && NoKeyStarts(a, pairs)
    ensures Strtr(a + b, pairs) == [a[0]] + Strtr(a[1..] + b, pairs)
    ensures NoKeyStarts(a[1..], pairs)
  {
    var s := a + b;
    assert s == [a[0]] + (a[1..] + b);
    forall j | 0 <= j < |pairs| && pairs[j].0 != [] ensures !(pairs[j].0 <= s) {
      assert pairs[j].0[0] != a[0] == s[0];
    }
    StrtrNoKeyHere(a[0], a[1..] + b, pairs);
    forall i, j | 0 <= i < |a[1..]| && 0 <= j < |pairs| && pairs[j].0 != [] ensures pairs[j].0[0] != a[1..][i] {
      assert a[1..][i] == a[i + 1];
    }
  }

  /** A key at the start is replaced by its value, and the scan resumes right after it. */
  lemma StrtrKey(k: string, b: string, pairs: seq<(string, string)>, j: nat)
    requires DistinctKeys(pairs)
    requires j < |pairs| && pairs[j].0 == k && k != []
    requires forall i :: 0 <= i < |pairs| && pairs[i].0 <= k + b ==> |pairs[i].0| <= |k|
    ensures Strtr(k + b, pairs) == pairs[j].1 + Strtr(b, pairs)
  {
    var s := k + b;
    assert k <= s;
    match LongestKeyAt(s, pairs)
    case None =>
      assert false;
    case Some(m) =>
      var km := pairs[m].0;
      assert |km| == |k|;
      assert km == s[..|km|] == k;
      assert m == j;
      assert s[|k|..] == b;
  }

  /** strtr with no pairs is the identity. */
  lemma StrtrNoPairs(s: string)
    ensures Strtr(s, []) == s
  {
    StrtrPlain(s, [], []);
  }
}
