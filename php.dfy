/** The few PHP runtime behaviours the modelled classes depend on:
    `empty()` on strings, `strtoupper`, the `%' -Ns` conversion of
    `sprintf`, `str_replace` and the decimal string form of an integer. */
module Php {
  import opened Types

  /** `empty($v)` for a value that is null or a string: null, "" and "0" are empty. */
  predicate IsEmpty(v: Option<string>)
  {
    v == None || v == Some("") || v == Some("0")
  }

  function UpperChar(c: char): char
  {
    if 'a' <= c <= 'z' then (c as int - 32) as char else c
  }

  /** `strtoupper`: ASCII letters upper-cased, every other character kept. */
  function ToUpper(s: string): (r: string)
    ensures |r| == |s|
    ensures forall i :: 0 <= i < |s| ==> r[i] == UpperChar(s[i])
  {
    if s == [] then [] else [UpperChar(s[0])] + ToUpper(s[1..])
  }

  function LowerChar(c: char): char
  {
    if 'A' <= c <= 'Z' then (c as int + 32) as char else c
  }

  /** `strtolower`: ASCII letters lower-cased, every other character kept. */
  function ToLower(s: string): (r: string)
    ensures |r| == |s|
    ensures forall i :: 0 <= i < |s| ==> r[i] == LowerChar(s[i])
  {
    if s == [] then [] else [LowerChar(s[0])] + ToLower(s[1..])
  }

  predicate IsLowerWord(s: string)
  {
    forall i :: 0 <= i < |s| ==> 'a' <= s[i] <= 'z'
  }

  /** Upper-casing a word of lower-case letters loses nothing. */
  lemma LowerUpper(s: string)
    requires IsLowerWord(s)
    ensures ToLower(ToUpper(s)) == s
  {
    var r := ToLower(ToUpper(s));
    assert forall i :: 0 <= i < |s| ==> r[i] == s[i];
  }

  function Spaces(n: nat): (r: string)
    ensures |r| == n
    ensures forall i :: 0 <= i < n ==> r[i] == ' '
  {
    if n == 0 then "" else " " + Spaces(n - 1)
  }

  /** `sprintf("%' -{width}s", s)`: left-justified, padded with spaces up to
      `width`, never truncated. */
  function PadRight(s: string, width: nat): (r: string)
    ensures |r| == if |s| < width then width else |s|
    ensures r[..|s|] == s
    ensures forall i :: |s| <= i < |r| ==> r[i] == ' '
  {
    if |s| < width then s + Spaces(width - |s|) else s
  }

  /** `rtrim($s, ' ')`: trailing spaces removed. */
  function TrimRight(s: string): (r: string)
    ensures |r| <= |s| && r == s[..|r|]
    ensures r == [] || r[|r| - 1] != ' '
    ensures forall i :: |r| <= i < |s| ==> s[i] == ' '
  {
    if s == [] || s[|s| - 1] != ' ' then s else TrimRight(s[..|s| - 1])
  }

  /** Padding is undone by trimming, for text that does not itself end in a
      space. */
  lemma TrimPadRight(s: string, width: nat)
    requires s == [] || s[|s| - 1] != ' '
    ensures TrimRight(PadRight(s, width)) == s
  {
    var p := PadRight(s, width);
    var r := TrimRight(p);
    assert p[..|s|] == s;
  }

  function Digit(d: nat): char
    requires d < 10
  {
    ('0' as int + d) as char
  }

  predicate IsDigit(c: char)
  {
    '0' <= c <= '9'
  }

  function NatToString(n: nat): (r: string)
    ensures |r| >= 1
    ensures forall i :: 0 <= i < |r| ==> IsDigit(r[i])
    ensures r[0] == '0' ==> n == 0
  {
    if n < 10 then [Digit(n)] else NatToString(n / 10) + [Digit(n % 10)]
  }

  /** The string PHP produces when an integer is interpolated into a string. */
  function IntToString(n: int): (r: string)
    ensures |r| >= 1
    ensures n < 0 <==> r[0] == '-'
  {
    if n < 0 then "-" + NatToString(-n) else NatToString(n)
  }

  function DigitValue(c: char): nat
  {
    if IsDigit(c) then c as int - '0' as int else 0
  }

  /** Reads a string of decimal digits back as a number. */
  function ParseNat(s: string): nat
  {
    if s == [] then 0 else 10 * ParseNat(s[..|s| - 1]) + DigitValue(s[|s| - 1])
  }

  lemma {:induction false} NatToStringRoundTrip(n: nat)
    ensures ParseNat(NatToString(n)) == n
  {
    var r := NatToString(n);
    if n < 10 {
      assert r == [Digit(n)];
      assert r[..0] == [];
    } else {
      var q, d := n / 10, n % 10;
      assert r == NatToString(q) + [Digit(d)];
      NatToStringRoundTrip(q);
      assert r[..|r| - 1] == NatToString(q);
      assert DigitValue(r[|r| - 1]) == d;
      assert n == 10 * q + d;
    }
  }

  /** Reads an optionally negative decimal numeral back as a number. */
  function ParseInt(s: string): int
  {
    if |s| > 0 && s[0] == '-' then -(ParseNat(s[1..]) as int) else ParseNat(s)
  }

  /** The decimal form of an integer reads back as that integer. */
  lemma IntToStringRoundTrip(n: int)
    ensures ParseInt(IntToString(n)) == n
  {
    var s := IntToString(n);
    if n < 0 {
      var m: nat := -n;
      assert s == "-" + NatToString(m);
      assert s[1..] == NatToString(m);
      NatToStringRoundTrip(m);
    } else {
      assert s == NatToString(n) && IsDigit(s[0]);
      NatToStringRoundTrip(n);
    }
  }

  /** `str_replace($search, $replace, $s)` for one non-empty search string:
      every occurrence, scanning left to right and never overlapping, is
      replaced; replaced text is not scanned again. */
  function ReplaceAll(s: string, search: string, replace: string): (r: string)
    requires |search| > 0
    decreases |s|
  {
    if |s| < |search| then s
    else if s[..|search|] == search then replace + ReplaceAll(s[|search|..], search, replace)
    else [s[0]] + ReplaceAll(s[1..], search, replace)
  }

  /** `str_replace` with arrays of search and replacement strings: each pair
      is applied in turn to the result of the previous ones. */
  function StrReplace(pairs: seq<(string, string)>, s: string): string
    requires forall k :: 0 <= k < |pairs| ==> |pairs[k].0| > 0
  {
    if pairs == [] then s else StrReplace(pairs[1..], ReplaceAll(s, pairs[0].0, pairs[0].1))
  }

  /** A string without the first character of the search string holds no
      occurrence and is left as it is. */
  lemma {:induction false} ReplaceAllAbsent(s: string, search: string, replace: string)
    requires |search| > 0 && search[0] !in s
    ensures ReplaceAll(s, search, replace) == s
    decreases |s|
  {
    if |s| >= |search| {
      assert s[..|search|][0] == s[0];
      ReplaceAllAbsent(s[1..], search, replace);
      assert [s[0]] + s[1..] == s;
    }
  }

  /** A prefix without the first character of the search string is copied
      through unchanged. */
  lemma {:induction false} ReplaceAllKeepsPrefix(p: string, s: string, search: string, replace: string)
    requires |search| > 0 && search[0] !in p
    ensures ReplaceAll(p + s, search, replace) == p + ReplaceAll(s, search, replace)
    decreases |p|
  {
    if p == [] {
      assert p + s == s;
    } else {
      var t := p + s;
      assert t[0] == p[0] && t[0] != search[0];
      if |t| < |search| {
        assert ReplaceAll(t, search, replace) == t;
        assert ReplaceAll(s, search, replace) == s;
      } else {
        assert t[..|search|] != search by {
          assert t[..|search|][0] == t[0];
        }
        assert ReplaceAll(t, search, replace) == [t[0]] + ReplaceAll(t[1..], search, replace);
        assert t[1..] == p[1..] + s;
        ReplaceAllKeepsPrefix(p[1..], s, search, replace);
        assert [p[0]] + p[1..] == p;
      }
    }
  }

  /** An occurrence at the front is replaced, and the scan goes on right
      after it. */
  lemma ReplaceAllFront(search: string, s: string, replace: string)
    requires |search| > 0
    ensures ReplaceAll(search + s, search, replace) == replace + ReplaceAll(s, search, replace)
  {
    assert (search + s)[..|search|] == search;
    assert (search + s)[|search|..] == s;
  }

  /** A segment that differs from the search string at position `j`, and
      holds its first character nowhere after its own first position,
      starts no occurrence and is copied through. */
  lemma ReplaceAllSkip(seg: string, s: string, search: string, replace: string, j: nat)
    requires |search| > 0 && j < |seg| && j < |search| && seg[j] != search[j]
    requires search[0] !in seg[1..]
    ensures ReplaceAll(seg + s, search, replace) == seg + ReplaceAll(s, search, replace)
  {
    NoMatchAt(seg, s, search, j);
    ReplaceAllHead(seg + s, search, replace);
    SplitFirst(seg, s);
    ReplaceAllKeepsPrefix(seg[1..], s, search, replace);
    SplitFirst(seg, ReplaceAll(s, search, replace));
  }

  lemma SplitFirst(a: string, b: string)
    requires a != []
    ensures (a + b)[0] == a[0] && (a + b)[1..] == a[1..] + b
    ensures [a[0]] + (a[1..] + b) == a + b
  {
  }

  /** A string that starts with a segment differing from the search string
      at position `j` does not start with the search string. */
  lemma NoMatchAt(seg: string, s: string, search: string, j: nat)
    requires j < |seg| && j < |search| && seg[j] != search[j]
    ensures !(|seg + s| >= |search| && (seg + s)[..|search|] == search)
  {
    var t := seg + s;
    if |t| >= |search| {
      assert t[..|search|][j] == seg[j];
    }
  }

  /** Where no occurrence starts, the first character is copied and the
      scan goes on after it. */
  lemma ReplaceAllHead(t: string, search: string, replace: string)
    requires |search| > 0 && t != [] && !(|t| >= |search| && t[..|search|] == search)
    ensures ReplaceAll(t, search, replace) == [t[0]] + ReplaceAll(t[1..], search, replace)
  {
    if |t| < |search| {
      assert ReplaceAll(t[1..], search, replace) == t[1..];
      assert [t[0]] + t[1..] == t;
    }
  }

  /** The parts with `sep` between each two. */
  function Join(parts: seq<string>, sep: string): string
    requires |parts| > 0
  {
    if |parts| == 1 then parts[0] else parts[0] + sep + Join(parts[1..], sep)
  }

  /** Every occurrence is replaced: parts that hold no first character of
      the search string, joined by it, come out joined by the
      replacement. */
  lemma {:induction false} ReplaceAllJoin(parts: seq<string>, search: string, replace: string)
    requires |parts| > 0 && |search| > 0
    requires forall i :: 0 <= i < |parts| ==> search[0] !in parts[i]
    ensures ReplaceAll(Join(parts, search), search, replace) == Join(parts, replace)
    decreases |parts|
  {
    if |parts| == 1 {
      ReplaceAllAbsent(parts[0], search, replace);
    } else {
      var rest := Join(parts[1..], search);
      assert parts[0] + search + rest == parts[0] + (search + rest);
      ReplaceAllKeepsPrefix(parts[0], search + rest, search, replace);
      ReplaceAllFront(search, rest, replace);
      ReplaceAllJoin(parts[1..], search, replace);
      assert parts[0] + (replace + Join(parts[1..], replace)) == parts[0] + replace + Join(parts[1..], replace);
    }
  }

  /** The placeholder case: one occurrence between text that cannot start
      another is replaced, the text around it kept. */
  lemma ReplaceAllOnce(p: string, q: string, search: string, replace: string)
    requires |search| > 0 && search[0] !in p && search[0] !in q
    ensures ReplaceAll(p + search + q, search, replace) == p + replace + q
  {
    ReplaceAllKeepsPrefix(p, search + q, search, replace);
    assert (search + q)[..|search|] == search;
    assert (search + q)[|search|..] == q;
    ReplaceAllAbsent(q, search, replace);
    assert p + search + q == p + (search + q);
  }
}
