/** The handful of Python `str` operations the reader is built from:
    `strip()`, `split(sep)`, `split()`, `upper()`, `list.remove` and `int()`,
    each with the edge cases Python gives them. */
module PyStr {
  import opened Wrappers

  /** Python's `str.isspace()` on one code point: the characters that
      `strip()` and `split()` without an argument treat as whitespace. */
  predicate IsSpace(c: char) {
    var n := c as int;
    || (0x09 <= n <= 0x0D) || (0x1C <= n <= 0x20) || n == 0x85 || n == 0xA0
    || n == 0x1680 || (0x2000 <= n <= 0x200A) || n == 0x2028 || n == 0x2029
    || n == 0x202F || n == 0x205F || n == 0x3000
  }

  predicate IsDigit(c: char) {
    '0' <= c <= '9'
  }

  predicate AllSpace(s: string) {
    forall i :: 0 <= i < |s| ==> IsSpace(s[i])
  }

  predicate NoSpace(s: string) {
    forall i :: 0 <= i < |s| ==> !IsSpace(s[i])
  }

  /** Neither the first nor the last character is whitespace. */
  predicate NoEdgeSpace(s: string) {
    |s| == 0 || (!IsSpace(s[0]) && !IsSpace(s[|s| - 1]))
  }

  // ---------------------------------------------------------------- strip

  function TrimStart(s: string): (r: string)
    ensures |r| <= |s|
    decreases |s|
  {
    if |s| > 0 && IsSpace(s[0]) then TrimStart(s[1..]) else s
  }

  function TrimEnd(s: string): (r: string)
    ensures |r| <= |s|
    decreases |s|
  {
    if |s| > 0 && IsSpace(s[|s| - 1]) then TrimEnd(s[..|s| - 1]) else s
  }

  /** `TrimStart` removes a whitespace prefix and stops at a non-space. */
  lemma {:induction false} TrimStartSpec(s: string)
    ensures var r := TrimStart(s);
            && r == s[|s| - |r|..] && AllSpace(s[..|s| - |r|])
            && (|r| == 0 || !IsSpace(r[0]))
    decreases |s|
  {
    if |s| > 0 && IsSpace(s[0]) {
      TrimStartSpec(s[1..]);
      var r := TrimStart(s[1..]);
      assert s[..|s| - |r|] == [s[0]] + s[1..][..|s| - 1 - |r|];
    }
  }

  /** `TrimEnd` removes a whitespace suffix and stops at a non-space. */
  lemma {:induction false} TrimEndSpec(s: string)
    ensures var r := TrimEnd(s);
            && r == s[..|r|] && AllSpace(s[|r|..])
            && (|r| == 0 || !IsSpace(r[|r| - 1]))
    decreases |s|
  {
    if |s| > 0 && IsSpace(s[|s| - 1]) {
      TrimEndSpec(s[..|s| - 1]);
      var r := TrimEnd(s[..|s| - 1]);
      assert s[|r|..] == s[..|s| - 1][|r|..] + [s[|s| - 1]];
    }
  }

  /** `s.strip()`: what is left after removing whitespace at both ends. */
  function Strip(s: string): (r: string)
    ensures NoEdgeSpace(r)
    ensures |r| <= |s|
  {
    TrimStartSpec(s);
    TrimEndSpec(TrimStart(s));
    TrimEnd(TrimStart(s))
  }

  /** What `strip()` removes is whitespace, and what it keeps is one slice of `s`. */
  lemma StripSlice(s: string) returns (i: nat)
    ensures i + |Strip(s)| <= |s| && Strip(s) == s[i..i + |Strip(s)|]
    ensures AllSpace(s[..i]) && AllSpace(s[i + |Strip(s)|..])
  {
    var t := TrimStart(s);
    var r := TrimEnd(t);
    TrimStartSpec(s);
    TrimEndSpec(t);
    i := |s| - |t|;
    assert t == s[i..];
    assert r == t[..|r|];
    assert r == s[i..i + |r|];
    assert AllSpace(t[|r|..]);
    assert s[i + |r|..] == t[|r|..];
  }

  lemma StripKeeps(s: string)
    requires NoEdgeSpace(s)
    ensures Strip(s) == s
  {
  }

  // ---------------------------------------------------------------- split(sep)

  function Count(s: string, c: char): nat
  {
    if |s| == 0 then 0 else (if s[0] == c then 1 else 0) + Count(s[1..], c)
  }

  /** `sep.join(parts)` for a one-character separator. */
  function Join(parts: seq<string>, sep: char): string
    requires |parts| >= 1
  {
    if |parts| == 1 then parts[0] else parts[0] + [sep] + Join(parts[1..], sep)
  }

  /** `s.split(sep)` for a one-character separator: never empty, and no
      piece holds the separator. */
  function Split(s: string, sep: char): (r: seq<string>)
    ensures |r| >= 1
    ensures forall i :: 0 <= i < |r| ==> sep !in r[i]
    decreases |s|
  {
    if |s| == 0 then [""]
    else
      var rest := Split(s[1..], sep);
      if s[0] == sep then [""] + rest
      else [[s[0]] + rest[0]] + rest[1..]
  }

  /** Joining the pieces back gives the string that was split. */
  lemma {:induction false} JoinSplit(s: string, sep: char)
    ensures Join(Split(s, sep), sep) == s
    decreases |s|
  {
    if |s| > 0 {
      JoinSplit(s[1..], sep);
      var rest := Split(s[1..], sep);
      if s[0] != sep {
        var r := [[s[0]] + rest[0]] + rest[1..];
        assert r[1..] == rest[1..];
        assert s == [s[0]] + s[1..];
      }
    }
  }

  /** `s.split(sep)` has one more piece than `s` has separators. */
  lemma {:induction false} SplitCount(s: string, sep: char)
    ensures |Split(s, sep)| == Count(s, sep) + 1
    decreases |s|
  {
    if |s| > 0 {
      SplitCount(s[1..], sep);
    }
  }

  /** `s.split(sep)` has more than one piece exactly when `sep` occurs in `s`. */
  lemma {:induction false} SplitPieces(s: string, sep: char)
    ensures sep in s <==> |Split(s, sep)| >= 2
    decreases |s|
  {
    if |s| > 0 {
      SplitPieces(s[1..], sep);
      assert sep in s <==> s[0] == sep || sep in s[1..];
    }
  }

  lemma {:induction false} SplitNoSep(a: string, sep: char)
    requires sep !in a
    ensures Split(a, sep) == [a]
    decreases |a|
  {
    if |a| > 0 {
      assert sep !in a[1..];
      SplitNoSep(a[1..], sep);
      assert [a[0]] + a[1..] == a;
    }
  }

  lemma {:induction false} SplitAfterSep(a: string, sep: char, b: string)
    requires sep !in a
    ensures Split(a + [sep] + b, sep) == [a] + Split(b, sep)
    decreases |a|
  {
    var s := a + [sep] + b;
    if |a| == 0 {
      assert s[1..] == b;
    } else {
      assert s[1..] == a[1..] + [sep] + b;
      assert sep !in a[1..];
      SplitAfterSep(a[1..], sep, b);
      assert [a[0]] + a[1..] == a;
    }
  }

  /** Splitting undoes joining when no piece holds the separator. */
  lemma {:induction false} SplitJoin(parts: seq<string>, sep: char)
    requires |parts| >= 1
    requires forall i :: 0 <= i < |parts| ==> sep !in parts[i]
    ensures Split(Join(parts, sep), sep) == parts
    decreases |parts|
  {
    if |parts| == 1 {
      SplitNoSep(parts[0], sep);
    } else {
      SplitJoin(parts[1..], sep);
      SplitAfterSep(parts[0], sep, Join(parts[1..], sep));
      assert [parts[0]] + parts[1..] == parts;
    }
  }

  // ---------------------------------------------------------------- split()

  /** The characters of `s` that are not whitespace, in order. */
  function NonSpace(s: string): string
  {
    if |s| == 0 then [] else (if IsSpace(s[0]) then [] else [s[0]]) + NonSpace(s[1..])
  }

  function Concat(ts: seq<string>): string
  {
    if |ts| == 0 then [] else ts[0] + Concat(ts[1..])
  }

  /** `s.split()`: the maximal runs of non-whitespace characters. */
  function SplitWs(s: string): (r: seq<string>)
    ensures forall i :: 0 <= i < |r| ==> |r[i]| > 0 && NoSpace(r[i])
    ensures |s| > 0 && !IsSpace(s[0]) ==> |r| > 0 && r[0][0] == s[0]
    decreases |s|
  {
    if |s| == 0 then []
    else if IsSpace(s[0]) then SplitWs(s[1..])
    else
      var rest := SplitWs(s[1..]);
      if |s| > 1 && !IsSpace(s[1]) then
        var head := [s[0]] + rest[0];
        assert NoSpace(head);
        [head] + rest[1..]
      else
        [[s[0]]] + rest
  }

  /** The tokens of `s.split()`, put back together, are exactly the
      non-whitespace characters of `s`. */
  lemma {:induction false} SplitWsContents(s: string)
    ensures Concat(SplitWs(s)) == NonSpace(s)
    decreases |s|
  {
    if |s| > 0 {
      SplitWsContents(s[1..]);
      var rest := SplitWs(s[1..]);
      var r := SplitWs(s);
      if !IsSpace(s[0]) {
        if |s| > 1 && !IsSpace(s[1]) {
          assert r == [[s[0]] + rest[0]] + rest[1..];
          assert Concat(rest) == rest[0] + Concat(rest[1..]);
          assert r[1..] == rest[1..];
          assert Concat(r) == [s[0]] + rest[0] + Concat(rest[1..]);
        } else {
          assert r == [[s[0]]] + rest;
          assert r[1..] == rest;
        }
      }
    }
  }

  /** `" ".join(tokens)`. */
  function JoinSpace(ts: seq<string>): string
  {
    if |ts| == 0 then [] else if |ts| == 1 then ts[0] else ts[0] + " " + JoinSpace(ts[1..])
  }

  lemma {:induction false} SplitWsToken(t: string, rest: string)
    requires |t| > 0 && NoSpace(t)
    requires |rest| == 0 || IsSpace(rest[0])
    ensures SplitWs(t + rest) == [t] + SplitWs(rest)
    decreases |t|
  {
    var s := t + rest;
    assert s[1..] == t[1..] + rest;
    if |t| == 1 {
      assert s[1..] == rest;
      assert t == [t[0]];
    } else {
      SplitWsToken(t[1..], rest);
      assert [t[0]] + t[1..] == t;
    }
  }

  /** Splitting on whitespace undoes joining with single spaces. */
  lemma {:induction false} SplitWsJoin(ts: seq<string>)
    requires forall i :: 0 <= i < |ts| ==> |ts[i]| > 0 && NoSpace(ts[i])
    ensures SplitWs(JoinSpace(ts)) == ts
    decreases |ts|
  {
    if |ts| == 1 {
      SplitWsToken(ts[0], "");
      assert ts[0] + "" == ts[0];
    } else if |ts| > 1 {
      SplitWsJoin(ts[1..]);
      var rest := " " + JoinSpace(ts[1..]);
      SplitWsToken(ts[0], rest);
      assert ts[0] + " " + JoinSpace(ts[1..]) == ts[0] + rest;
      assert rest[1..] == JoinSpace(ts[1..]);
      assert [ts[0]] + ts[1..] == ts;
    }
  }

  // ---------------------------------------------------------------- list.remove

  /** Position of the first occurrence of `x` in `xs`. */
  function IndexOf<T(==)>(xs: seq<T>, x: T): (i: nat)
    requires x in xs
    ensures i < |xs| && xs[i] == x && x !in xs[..i]
  {
    if xs[0] == x then 0 else 1 + IndexOf(xs[1..], x)
  }

  /** `xs.remove(x)` with the `ValueError` swallowed: drops the first
      occurrence of `x`, if there is one. */
  function RemoveFirst<T(==)>(xs: seq<T>, x: T): (r: seq<T>)
    ensures x !in xs ==> r == xs
    ensures x in xs ==> r == xs[..IndexOf(xs, x)] + xs[IndexOf(xs, x) + 1..]
    ensures multiset(r) == multiset(xs) - multiset{x}
  {
    if x !in xs then xs
    else
      var i := IndexOf(xs, x);
      assert xs == xs[..i] + [x] + xs[i + 1..];
      xs[..i] + xs[i + 1..]
  }

  // ---------------------------------------------------------------- upper()

  function UpperChar(c: char): char
  {
    if 'a' <= c <= 'z' then (c as int - 32) as char else c
  }

  /** `s.upper()` restricted to the ASCII letters. */
  function Upper(s: string): (r: string)
    ensures |r| == |s|
    ensures forall i :: 0 <= i < |s| ==> r[i] == UpperChar(s[i])
  {
    seq(|s|, i requires 0 <= i < |s| => UpperChar(s[i]))
  }

  /** `upper()` leaves a string without lower-case letters unchanged. */
  lemma UpperKeeps(s: string)
    requires forall i :: 0 <= i < |s| ==> !('a' <= s[i] <= 'z')
    ensures Upper(s) == s
  {
  }

  /** `s` spells the upper-case word `w` in any mix of ASCII cases. */
  predicate SpellsIgnoringCase(s: string, w: string) {
    |s| == |w| && forall i :: 0 <= i < |s| ==> s[i] == w[i] || s[i] as int == w[i] as int + 32
  }

  /** `upper()` gives an upper-case ASCII word exactly for the strings that
      spell it in any mix of cases. */
  lemma UpperIsWord(s: string, w: string)
    requires forall i :: 0 <= i < |w| ==> 'A' <= w[i] <= 'Z'
    ensures Upper(s) == w <==> SpellsIgnoringCase(s, w)
  {
    if SpellsIgnoringCase(s, w) {
      assert forall i :: 0 <= i < |s| ==> Upper(s)[i] == w[i];
    }
  }

  // ---------------------------------------------------------------- int()

  function DigitValue(c: char): nat
    requires IsDigit(c)
  {
    c as int - '0' as int
  }

  function DigitChar(d: nat): (c: char)
    requires d < 10
    ensures IsDigit(c) && DigitValue(c) == d
  {
    ('0' as int + d) as char
  }

  /** The decimal digits of a Python integer literal, where one underscore
      may stand between two digits: `digit (["_"] digit)*`. `None` for
      anything else. */
  function DigitRunValue(d: string): Option<nat>
    decreases |d|
  {
    if |d| == 0 || !IsDigit(d[|d| - 1]) then None
    else if |d| == 1 then Some(DigitValue(d[0]))
    else
      var last := DigitValue(d[|d| - 1]);
      var front := if d[|d| - 2] == '_' then d[..|d| - 2] else d[..|d| - 1];
      match DigitRunValue(front)
      case None => None
      case Some(v) => Some(10 * v + last)
  }

  /** A digit run starts and ends with a digit and holds nothing but digits
      and underscores. */
  lemma {:induction false} DigitRunShape(d: string)
    requires DigitRunValue(d).Some?
    ensures |d| > 0 && IsDigit(d[0]) && IsDigit(d[|d| - 1])
    ensures forall i :: 0 <= i < |d| ==> IsDigit(d[i]) || d[i] == '_'
    decreases |d|
  {
    if |d| > 1 {
      var front := if d[|d| - 2] == '_' then d[..|d| - 2] else d[..|d| - 1];
      DigitRunShape(front);
      assert forall i :: 0 <= i < |front| ==> d[i] == front[i];
    }
  }

  /** The whitespace `int()` skips around its digits: the `isspace()` set
      without the separators U+001C to U+001F, which `strip()` removes but
      `int()` rejects. */
  predicate IsIntSpace(c: char) {
    IsSpace(c) && !(0x1C <= c as int <= 0x1F)
  }

  /** The part of `s` that `int()` reads: `s` without the whitespace
      `int()` skips at either end. */
  function IntTrim(s: string): (r: string)
    ensures |r| == 0 || (!IsIntSpace(r[0]) && !IsIntSpace(r[|r| - 1]))
    decreases |s|
  {
    if |s| > 0 && IsIntSpace(s[0]) then IntTrim(s[1..])
    else if |s| > 0 && IsIntSpace(s[|s| - 1]) then IntTrim(s[..|s| - 1])
    else s
  }

  /** What `IntTrim` removes is whitespace `int()` skips, and what it keeps
      is one slice of `s`. */
  lemma {:induction false} IntTrimSlice(s: string) returns (i: nat)
    ensures i + |IntTrim(s)| <= |s| && IntTrim(s) == s[i..i + |IntTrim(s)|]
    ensures forall k :: 0 <= k < i ==> IsIntSpace(s[k])
    ensures forall k :: i + |IntTrim(s)| <= k < |s| ==> IsIntSpace(s[k])
    decreases |s|
  {
    if |s| > 0 && IsIntSpace(s[0]) {
      var t := s[1..];
      var j := IntTrimSlice(t);
      assert IntTrim(s) == IntTrim(t);
      assert forall k :: 0 <= k < |t| ==> t[k] == s[k + 1];
      i := j + 1;
    } else if |s| > 0 && IsIntSpace(s[|s| - 1]) {
      var t := s[..|s| - 1];
      i := IntTrimSlice(t);
      assert IntTrim(s) == IntTrim(t);
      assert forall k :: 0 <= k < |t| ==> t[k] == s[k];
    } else {
      i := 0;
    }
  }

  /** `int(s)` for a base-10 string: surrounding whitespace is ignored, one
      optional sign, then a digit run. `None` where Python raises `ValueError`. */
  function ParseInt(s: string): Option<int>
  {
    ParseSigned(IntTrim(s))
  }

  /** Every character of a string `int()` accepts is whitespace it skips,
      a sign, a digit or an underscore; in particular none of U+001C to
      U+001F, which `strip()` would have removed. */
  lemma ParseIntChars(s: string)
    requires ParseInt(s).Some?
    ensures forall k :: 0 <= k < |s| ==> IsIntSpace(s[k]) || IsDigit(s[k]) || s[k] in "+-_"
    ensures forall k :: 0 <= k < |s| ==> !(0x1C <= s[k] as int <= 0x1F)
  {
    var t := IntTrim(s);
    var i := IntTrimSlice(s);
    if |t| > 0 && (t[0] == '-' || t[0] == '+') {
      DigitRunShape(t[1..]);
      assert forall k :: 1 <= k < |t| ==> t[k] == t[1..][k - 1];
    } else {
      DigitRunShape(t);
    }
    assert forall k :: i <= k < i + |t| ==> s[k] == t[k - i];
  }

  /** `int()` rejects any string holding one of U+001C to U+001F, wherever
      it stands. */
  lemma ParseIntRejectsSeparator(s: string, k: nat)
    requires k < |s| && 0x1C <= s[k] as int <= 0x1F
    ensures ParseInt(s) == None
  {
    if ParseInt(s).Some? {
      ParseIntChars(s);
    }
  }

  /** `int()` skips a tab and a newline but rejects a trailing U+001C,
      which `strip()` would remove. */
  lemma ParseIntSeparator()
    ensures ParseInt("\t100\n") == Some(100)
    ensures ParseInt("100\U{1C}") == None
    ensures Strip("100\U{1C}") == "100"
  {
    assert IntTrim("\t100\n") == "100";
    assert "100"[..2] == "10" && "10"[..1] == "1";
    assert DigitRunValue("10") == Some(10);
    assert DigitRunValue("100") == Some(100);
    assert IntTrim("100\U{1C}") == "100\U{1C}";
    assert DigitRunValue("100\U{1C}") == None;
  }

  /** An optional sign followed by a digit run. */
  function ParseSigned(t: string): Option<int>
  {
    if |t| > 0 && (t[0] == '-' || t[0] == '+') then
      match DigitRunValue(t[1..])
      case None => None
      case Some(v) =>
        var n: int := v;
        Some(if t[0] == '-' then -n else n)
    else
      match DigitRunValue(t)
      case None => None
      case Some(v) => Some(v)
  }

  /** `str(n)` for a natural number. */
  function NatToString(n: nat): (s: string)
    ensures |s| > 0 && forall i :: 0 <= i < |s| ==> IsDigit(s[i])
  {
    (if n < 10 then "" else NatToString(n / 10)) + [DigitChar(n % 10)]
  }

  /** `str(i)` for an integer. */
  function IntToString(i: int): (s: string)
    ensures |s| > 0 && IsDigit(s[|s| - 1])
  {
    if i < 0 then "-" + NatToString(-i) else NatToString(i)
  }

  lemma {:induction false} NatToStringRoundTrip(n: nat)
    ensures DigitRunValue(NatToString(n)) == Some(n)
  {
    var s := NatToString(n);
    if n >= 10 {
      var p := NatToString(n / 10);
      NatToStringRoundTrip(n / 10);
      assert s[..|s| - 1] == p;
    }
  }

  /** `str(i)` holds only digits and a leading minus sign. */
  lemma IntToStringChars(i: int)
    ensures forall k :: 0 <= k < |IntToString(i)| ==> IsDigit(IntToString(i)[k]) || IntToString(i)[k] == '-'
  {
  }

  lemma IntToStringNoEdgeSpace(i: int)
    ensures NoEdgeSpace(IntToString(i))
  {
    var s := IntToString(i);
    if i < 0 {
      assert s[0] == '-';
    } else {
      assert IsDigit(s[0]);
    }
  }

  lemma ParseSignedIntToString(i: int)
    ensures ParseSigned(IntToString(i)) == Some(i)
  {
    var s := IntToString(i);
    if i < 0 {
      var d := NatToString(-i);
      assert s == "-" + d && s[1..] == d;
      NatToStringRoundTrip(-i);
    } else {
      NatToStringRoundTrip(i);
      assert IsDigit(s[0]);
    }
  }

  /** `int(str(i)) == i`. */
  lemma IntRoundTrip(i: int)
    ensures ParseInt(IntToString(i)) == Some(i)
  {
    IntToStringNoEdgeSpace(i);
    StripKeeps(IntToString(i));
    ParseSignedIntToString(i);
  }

}
