/** ASCII models of the string operations the JavaScript and Python code
    relies on: trimming, case mapping, substring search, splitting,
    joining and replacement. Only ASCII behaviour is modelled. */
module Text {
  import opened Wrappers

  /** Whitespace removed by JavaScript's `trim` (`py == false`) or by
      Python's `str.strip` (`py == true`), restricted to ASCII. Python also
      treats the four separator controls 0x1C-0x1F as whitespace. */
  predicate IsSpace(c: char, py: bool) {
    c == ' ' || c == '\t' || c == '\n' || c == '\r' || c == '\U{000B}' || c == '\U{000C}'
    || (py && '\U{001C}' <= c <= '\U{001F}')
  }

  predicate AllSpace(s: string, py: bool) {
    forall i :: 0 <= i < |s| ==> IsSpace(s[i], py)
  }

  /** Drops leading whitespace. */
  function TrimStart(s: string, py: bool): (r: string)
    ensures |r| <= |s| && r == s[|s| - |r|..]
    ensures r == [] || !IsSpace(r[0], py)
    ensures AllSpace(s[..|s| - |r|], py)
  {
    if s != [] && IsSpace(s[0], py) then
      var r := TrimStart(s[1..], py);
      DropHeadStep(s, r, py);
      r
    else s
  }

  /** One leading space dropped: what `s[1..]` shed, with `s[0]`, is what `s` sheds. */
  lemma DropHeadStep(s: string, r: string, py: bool)
    requires s != [] && IsSpace(s[0], py)
    requires |r| <= |s| - 1 && r == s[1..][|s| - 1 - |r|..]
    requires AllSpace(s[1..][..|s| - 1 - |r|], py)
    ensures r == s[|s| - |r|..]
    ensures AllSpace(s[..|s| - |r|], py)
  {
    assert s[1..][|s| - 1 - |r|..] == s[|s| - |r|..];
    var h := s[..|s| - |r|];
    forall i | 0 <= i < |h| ensures IsSpace(h[i], py) {
      if i > 0 {
        assert h[i] == s[1..][..|s| - 1 - |r|][i - 1];
      }
    }
  }

  /** Drops trailing whitespace. */
  function TrimEnd(s: string, py: bool): (r: string)
    ensures |r| <= |s| && r == s[..|r|]
    ensures r == [] || !IsSpace(r[|r| - 1], py)
    ensures AllSpace(s[|r|..], py)
  {
    if s != [] && IsSpace(s[|s| - 1], py) then
      var r := TrimEnd(s[..|s| - 1], py);
      DropLastStep(s, r, py);
      r
    else s
  }

  /** One trailing space dropped: what `s[..|s|-1]` shed, with its last character, is what `s` sheds. */
  lemma DropLastStep(s: string, r: string, py: bool)
    requires s != [] && IsSpace(s[|s| - 1], py)
    requires |r| <= |s| - 1 && r == s[..|s| - 1][..|r|]
    requires AllSpace(s[..|s| - 1][|r|..], py)
    ensures r == s[..|r|]
    ensures AllSpace(s[|r|..], py)
  {
    assert s[..|s| - 1][..|r|] == s[..|r|];
    var t := s[|r|..];
    forall i | 0 <= i < |t| ensures IsSpace(t[i], py) {
      if i < |t| - 1 {
        assert t[i] == s[..|s| - 1][|r|..][i];
      }
    }
  }

  function Trim(s: string, py: bool): string {
    TrimEnd(TrimStart(s, py), py)
  }

  /** JavaScript's `String.prototype.trim`. */
  function JsTrim(s: string): string { Trim(s, false) }

  /** Python's `str.strip()` with no argument. */
  function PyStrip(s: string): string { Trim(s, true) }

  lemma TrimEndKeepsStart(s: string, py: bool)
    requires s == [] || !IsSpace(s[0], py)
    ensures TrimEnd(s, py) == [] || !IsSpace(TrimEnd(s, py)[0], py)
  {
  }

  /** A trimmed string starts and ends with a non-space character. */
  lemma TrimEdges(s: string, py: bool)
    ensures Trim(s, py) == [] || (!IsSpace(Trim(s, py)[0], py) && !IsSpace(Trim(s, py)[|Trim(s, py)| - 1], py))
  {
    TrimEndKeepsStart(TrimStart(s, py), py);
  }

  lemma AllSpaceCons(x: string, py: bool)
    requires x != []
    ensures AllSpace(x, py) <==> IsSpace(x[0], py) && AllSpace(x[1..], py)
  {
    if IsSpace(x[0], py) && AllSpace(x[1..], py) {
      forall i | 0 <= i < |x| ensures IsSpace(x[i], py) {
        if i > 0 { assert x[i] == x[1..][i - 1]; }
      }
    }
  }

  lemma {:induction false} TrimStartAppend(x: string, y: string, py: bool)
    ensures TrimStart(x + y, py) == if AllSpace(x, py) then TrimStart(y, py) else TrimStart(x, py) + y
    decreases |x|
  {
    if x == [] {
      assert x + y == y;
    } else {
      AllSpaceCons(x, py);
      assert (x + y)[0] == x[0];
      assert (x + y)[1..] == x[1..] + y;
      if IsSpace(x[0], py) {
        TrimStartAppend(x[1..], y, py);
      }
    }
  }

  lemma AllSpaceSnoc(y: string, py: bool)
    requires y != []
    ensures AllSpace(y, py) <==> AllSpace(y[..|y| - 1], py) && IsSpace(y[|y| - 1], py)
  {
    var n := |y| - 1;
    if AllSpace(y[..n], py) && IsSpace(y[n], py) {
      forall i | 0 <= i < |y| ensures IsSpace(y[i], py) {
        if i < n { assert y[i] == y[..n][i]; }
      }
    }
  }

  lemma {:induction false} TrimEndAppend(x: string, y: string, py: bool)
    ensures TrimEnd(x + y, py) == if AllSpace(y, py) then TrimEnd(x, py) else x + TrimEnd(y, py)
    decreases |y|
  {
    if y == [] {
      assert x + y == x;
    } else {
      var n := |y| - 1;
      var xy := x + y;
      assert xy[|xy| - 1] == y[n];
      assert xy[..|xy| - 1] == x + y[..n];
      AllSpaceSnoc(y, py);
      if IsSpace(y[n], py) {
        assert TrimEnd(xy, py) == TrimEnd(x + y[..n], py);
        assert TrimEnd(y, py) == TrimEnd(y[..n], py);
        TrimEndAppend(x, y[..n], py);
      } else {
        assert TrimEnd(xy, py) == xy;
        assert TrimEnd(y, py) == y;
      }
    }
  }

  lemma TrimStartOfTrimmed(s: string, py: bool)
    requires s == [] || !IsSpace(s[0], py)
    ensures TrimStart(s, py) == s
  {
  }

  lemma TrimEndOfTrimmed(s: string, py: bool)
    requires s == [] || !IsSpace(s[|s| - 1], py)
    ensures TrimEnd(s, py) == s
  {
  }

  /** A prefix that starts and ends with a non-space character survives trimming. */
  lemma TrimKeepsPrefix(u: string, p: string, py: bool)
    requires StartsWith(u, p) && p != []
    requires !IsSpace(p[0], py) && !IsSpace(p[|p| - 1], py)
    ensures StartsWith(Trim(u, py), p)
  {
    assert u[..|p|][0] == u[0] && u[..|p|][|p| - 1] == u[|p| - 1];
    TrimStartOfTrimmed(u, py);
    var r := TrimEnd(u, py);
    forall i | |r| <= i < |u| ensures IsSpace(u[i], py) {
      assert u[|r|..][i - |r|] == u[i];
    }
    assert r[..|p|] == u[..|p|];
  }

  /** Trimming twice is trimming once. */
  lemma TrimIdempotent(s: string, py: bool)
    ensures Trim(Trim(s, py), py) == Trim(s, py)
  {
    var t := Trim(s, py);
    TrimEdges(s, py);
    TrimStartOfTrimmed(t, py);
    TrimEndOfTrimmed(t, py);
  }

  function LowerChar(c: char): char {
    if 'A' <= c <= 'Z' then (c as int + 32) as char else c
  }

  function UpperChar(c: char): char {
    if 'a' <= c <= 'z' then (c as int - 32) as char else c
  }

  /** JavaScript `toLowerCase` / Python `lower`, ASCII only. */
  function Lower(s: string): (r: string)
    ensures |r| == |s| && forall i :: 0 <= i < |s| ==> r[i] == LowerChar(s[i])
  {
    seq(|s|, i requires 0 <= i < |s| => LowerChar(s[i]))
  }

  /** Python `str.capitalize`: first character upper-cased, the rest lower-cased. */
  function Capitalize(s: string): (r: string)
    ensures |r| == |s|
  {
    if s == [] then [] else [UpperChar(s[0])] + Lower(s[1..])
  }

  predicate StartsWith(s: string, p: string) {
    |p| <= |s| && s[..|p|] == p
  }

  predicate EndsWith(s: string, p: string) {
    |p| <= |s| && s[|s| - |p|..] == p
  }

  /** `sub` occurs in `s` at index `i`. */
  predicate OccursAt(s: string, sub: string, i: int) {
    0 <= i && i + |sub| <= |s| && s[i..i + |sub|] == sub
  }

  /** JavaScript `includes` / Python `in` on strings. */
  predicate Contains(s: string, sub: string)
    decreases |s|
  {
    StartsWith(s, sub) || (s != [] && Contains(s[1..], sub))
  }

  /** An occurrence at any index makes `Contains` true. */
  lemma {:induction false} OccursContains(s: string, sub: string, i: int)
    requires OccursAt(s, sub, i)
    ensures Contains(s, sub)
    decreases i
  {
    if i == 0 {
      assert s[..|sub|] == s[0..|sub|];
    } else {
      assert s[1..][i - 1..i - 1 + |sub|] == s[i..i + |sub|];
      OccursContains(s[1..], sub, i - 1);
    }
  }

  /** `Contains` holds exactly when some index is an occurrence. */
  lemma {:induction false} ContainsIff(s: string, sub: string)
    ensures Contains(s, sub) <==> exists i :: OccursAt(s, sub, i)
    decreases |s|
  {
    if exists i :: OccursAt(s, sub, i) {
      var i :| OccursAt(s, sub, i);
      OccursContains(s, sub, i);
    } else if Contains(s, sub) {
      if StartsWith(s, sub) {
        assert OccursAt(s, sub, 0);
      } else {
        ContainsIff(s[1..], sub);
        var i :| OccursAt(s[1..], sub, i);
        assert s[i + 1..i + 1 + |sub|] == s[1..][i..i + |sub|];
        assert OccursAt(s, sub, i + 1);
      }
    }
  }

  lemma {:induction false} ContainsOfPrefix(s: string, p: string)
    requires StartsWith(s, p)
    ensures Contains(s, p)
  {
  }

  function IsAsciiDigit(c: char): bool { '0' <= c <= '9' }

  /** Python `re.match(r'^\d+$', s)` on ASCII input: non-empty and all digits. */
  predicate AllDigits(s: string) {
    |s| > 0 && forall i :: 0 <= i < |s| ==> IsAsciiDigit(s[i])
  }

  /** Index of the first `c` in `s`, if any. */
  function IndexOf(s: string, c: char): (r: int)
    ensures -1 <= r < |s|
    ensures r == -1 <==> c !in s
    ensures r >= 0 ==> s[r] == c && c !in s[..r]
  {
    if s == [] then -1
    else if s[0] == c then 0
    else var k := IndexOf(s[1..], c); if k == -1 then -1 else k + 1
  }

  /** Joins `parts` with `sep` between neighbours (JavaScript `join`, Python `str.join`). */
  function Join(parts: seq<string>, sep: string): string
    decreases |parts|
  {
    if |parts| == 0 then ""
    else if |parts| == 1 then parts[0]
    else parts[0] + sep + Join(parts[1..], sep)
  }

  /** Splits on every `sep` (JavaScript `split(c)`, Python `split(c)` for a
      one-character separator); always at least one part. */
  function Split(s: string, sep: char): (r: seq<string>)
    ensures |r| >= 1
    ensures forall k :: 0 <= k < |r| ==> sep !in r[k]
    decreases |s|
  {
    var i := IndexOf(s, sep);
    if i == -1 then [s] else [s[..i]] + Split(s[i + 1..], sep)
  }

  /** Joining the parts of a split with the separator restores the string. */
  lemma {:induction false} JoinSplit(s: string, sep: char)
    ensures Join(Split(s, sep), [sep]) == s
    decreases |s|
  {
    var i := IndexOf(s, sep);
    if i != -1 {
      JoinSplit(s[i + 1..], sep);
      SplitAtFirst(s, sep);
      AroundIndex(s, i);
      JoinCons(s[..i], Split(s[i + 1..], sep), [sep]);
    }
  }

  /** A string with a separator splits into the part before its first
      occurrence and the split of the rest. */
  lemma SplitAtFirst(s: string, sep: char)
    requires sep in s
    ensures Split(s, sep) == [s[..IndexOf(s, sep)]] + Split(s[IndexOf(s, sep) + 1..], sep)
  {
  }

  /** A string is what comes before index `i`, the character there, and
      what comes after. */
  lemma AroundIndex(s: string, i: nat)
    requires i < |s|
    ensures s == s[..i] + [s[i]] + s[i + 1..]
  {
  }

  /** Joining a part in front of a non-empty list puts one separator between. */
  lemma JoinCons(h: string, rest: seq<string>, sep: string)
    requires |rest| >= 1
    ensures Join([h] + rest, sep) == h + sep + Join(rest, sep)
  {
    assert ([h] + rest)[1..] == rest;
  }

  /** The first `c` in `x + [c] + y` is the first one in `x`, or the joint. */
  lemma {:induction false} IndexOfJoint(x: string, y: string, c: char)
    ensures IndexOf(x + [c] + y, c) == if c in x then IndexOf(x, c) else |x|
    decreases |x|
  {
    if x != [] && x[0] != c {
      assert (x + [c] + y)[1..] == x[1..] + [c] + y;
      IndexOfJoint(x[1..], y, c);
    }
  }

  /** Splitting around a separator splits each side. */
  lemma {:induction false} SplitAppend(x: string, y: string, sep: char)
    ensures Split(x + [sep] + y, sep) == Split(x, sep) + Split(y, sep)
    decreases |x|
  {
    if sep in x {
      var i := IndexOf(x, sep);
      SplitAppend(x[i + 1..], y, sep);
      SplitAppendStep(x, y, sep);
    } else {
      SplitAppendFirst(x, y, sep);
    }
  }

  /** With no separator in `x`, the joint is the first split point. */
  lemma SplitAppendFirst(x: string, y: string, sep: char)
    requires sep !in x
    ensures Split(x + [sep] + y, sep) == Split(x, sep) + Split(y, sep)
  {
    var s := x + [sep] + y;
    IndexOfJoint(x, y, sep);
    SplitAtFirst(s, sep);
    assert s[..|x|] == x && s[|x| + 1..] == y;
  }

  /** The split of `x + [sep] + y` starts with the first part of `x`. */
  lemma SplitAppendHead(x: string, y: string, sep: char)
    requires sep in x
    ensures Split(x + [sep] + y, sep)
      == [x[..IndexOf(x, sep)]] + Split(x[IndexOf(x, sep) + 1..] + [sep] + y, sep)
  {
    var s := x + [sep] + y;
    var i := IndexOf(x, sep);
    IndexOfJoint(x, y, sep);
    SplitAtFirst(s, sep);
    assert s[..i] == x[..i];
    assert s[i + 1..] == x[i + 1..] + [sep] + y;
  }

  /** One step of `SplitAppend`: the first part of `x` leads both sides. */
  lemma SplitAppendStep(x: string, y: string, sep: char)
    requires sep in x
    requires Split(x[IndexOf(x, sep) + 1..] + [sep] + y, sep)
      == Split(x[IndexOf(x, sep) + 1..], sep) + Split(y, sep)
    ensures Split(x + [sep] + y, sep) == Split(x, sep) + Split(y, sep)
  {
    var i := IndexOf(x, sep);
    SplitAppendHead(x, y, sep);
    SplitAtFirst(x, sep);
    ConsAppend(x[..i], Split(x[i + 1..], sep), Split(y, sep));
  }

  /** Putting an element in front commutes with appending. */
  lemma ConsAppend<T>(h: T, p: seq<T>, q: seq<T>)
    ensures [h] + (p + q) == ([h] + p) + q
  {
  }

  /** Python `str.replace(pat, rep)`: every non-overlapping occurrence, left to right. */
  function ReplaceAll(s: string, pat: string, rep: string): string
    requires pat != []
    decreases |s|
  {
    if s == [] then []
    else if StartsWith(s, pat) then rep + ReplaceAll(s[|pat|..], pat, rep)
    else [s[0]] + ReplaceAll(s[1..], pat, rep)
  }

  /** Replacing a pattern that does not occur changes nothing. */
  lemma {:induction false} ReplaceAllAbsent(s: string, pat: string, rep: string)
    requires pat != [] && !Contains(s, pat)
    ensures ReplaceAll(s, pat, rep) == s
    decreases |s|
  {
    if s != [] {
      ReplaceAllAbsent(s[1..], pat, rep);
    }
  }

  /** Deleting every occurrence of a pattern whose first character is
      absent from `x` removes just the appended copy. */
  lemma {:induction false} ReplaceAllAppended(x: string, pat: string)
    requires pat != [] && pat[0] !in x
    ensures ReplaceAll(x + pat, pat, "") == x
    decreases |x|
  {
    if x == [] {
      assert StartsWith(pat, pat);
      assert pat[|pat|..] == [];
    } else {
      assert !StartsWith(x + pat, pat);
      assert (x + pat)[1..] == x[1..] + pat;
      ReplaceAllAppended(x[1..], pat);
    }
  }

  /** JavaScript `String.prototype.replace` with a string pattern: first occurrence only. */
  function ReplaceFirst(s: string, pat: string, rep: string): string
    requires pat != []
    decreases |s|
  {
    if s == [] then []
    else if StartsWith(s, pat) then rep + s[|pat|..]
    else [s[0]] + ReplaceFirst(s[1..], pat, rep)
  }

  /** The first occurrence of a pattern absent from `d` is the appended one. */
  lemma {:induction false} ReplaceFirstAppended(d: string, pat: string)
    requires |pat| == 1 && pat[0] !in d
    ensures ReplaceFirst(d + pat, pat, "") == d
    decreases |d|
  {
    if d == [] {
      assert StartsWith(d + pat, pat);
      assert (d + pat)[|pat|..] == [];
    } else {
      assert !StartsWith(d + pat, pat);
      assert (d + pat)[1..] == d[1..] + pat;
      ReplaceFirstAppended(d[1..], pat);
    }
  }

  function DigitChar(n: nat): char
    requires n < 10
  {
    ('0' as int + n) as char
  }

  /** Decimal notation of a natural number without leading zeros. */
  function DecimalString(n: nat): (r: string)
    ensures r != [] && forall i :: 0 <= i < |r| ==> IsAsciiDigit(r[i])
    decreases n
  {
    if n < 10 then [DigitChar(n)] else DecimalString(n / 10) + [DigitChar(n % 10)]
  }

  /** The number a string of decimal digits denotes. */
  function DigitsValue(s: string): nat
    requires forall i :: 0 <= i < |s| ==> IsAsciiDigit(s[i])
    decreases |s|
  {
    if s == [] then 0
    else
      assert IsAsciiDigit(s[|s| - 1]);
      DigitsValue(s[..|s| - 1]) * 10 + (s[|s| - 1] as int - '0' as int)
  }

  /** Length of the longest all-digit prefix. */
  function DigitPrefixLength(s: string): (n: nat)
    ensures n <= |s|
    ensures forall i :: 0 <= i < n ==> IsAsciiDigit(s[i])
    ensures n < |s| ==> !IsAsciiDigit(s[n])
    decreases |s|
  {
    if s == [] || !IsAsciiDigit(s[0]) then 0 else 1 + DigitPrefixLength(s[1..])
  }

  /** JavaScript `parseInt(s, 10)`: leading whitespace skipped, an optional
      sign, then the longest run of decimal digits; `None` is `NaN`. */
  function JsParseInt(s: string): (r: Option<int>)
    ensures r.None? <==> DigitPrefixLength(SignStripped(TrimStart(s, false))) == 0
  {
    var t := TrimStart(s, false);
    var u := SignStripped(t);
    var n := DigitPrefixLength(u);
    var v: int := if n == 0 then 0 else DigitsValue(u[..n]);
    if n == 0 then None
    else if t[0] == '-' then Some(-v)
    else Some(v)
  }

  function SignStripped(t: string): (u: string)
    ensures |u| <= |t|
  {
    if t != [] && (t[0] == '-' || t[0] == '+') then t[1..] else t
  }

  lemma {:induction false} DigitsValueDecimal(n: nat)
    ensures DigitsValue(DecimalString(n)) == n
    decreases n
  {
    if n >= 10 {
      DigitsValueDecimal(n / 10);
      var d := DecimalString(n / 10) + [DigitChar(n % 10)];
      assert d[..|d| - 1] == DecimalString(n / 10);
    }
  }

  lemma {:induction false} DigitPrefixOfDigits(d: string, rest: string)
    requires forall i :: 0 <= i < |d| ==> IsAsciiDigit(d[i])
    requires rest == [] || !IsAsciiDigit(rest[0])
    ensures DigitPrefixLength(d + rest) == |d|
    decreases |d|
  {
    if d == [] {
      assert d + rest == rest;
    } else {
      assert (d + rest)[1..] == d[1..] + rest;
      DigitPrefixOfDigits(d[1..], rest);
    }
  }

  /** `parseInt` reads back what `DecimalString` writes, whatever non-digit
      text follows. */
  lemma JsParseIntDecimal(n: nat, rest: string)
    requires rest == [] || !IsAsciiDigit(rest[0])
    ensures JsParseInt(DecimalString(n) + rest) == Some(n)
  {
    var d := DecimalString(n);
    var s := d + rest;
    assert s[0] == d[0];
    TrimStartOfTrimmed(s, false);
    assert SignStripped(s) == s;
    DigitPrefixOfDigits(d, rest);
    assert s[..|d|] == d;
    DigitsValueDecimal(n);
  }

  /** The leading digit of a positive number's notation is not '0'. */
  lemma {:induction false} DecimalLeadingDigit(n: nat)
    requires n > 0
    ensures DecimalString(n)[0] != '0'
    decreases n
  {
    if n >= 10 {
      DecimalLeadingDigit(n / 10);
      assert DecimalString(n)[0] == DecimalString(n / 10)[0];
    }
  }

  // ---- parseInt without a radix ----

  function IsHexDigit(c: char): bool {
    IsAsciiDigit(c) || 'a' <= c <= 'f' || 'A' <= c <= 'F'
  }

  function HexDigitValue(c: char): (v: nat)
    requires IsHexDigit(c)
    ensures v < 16
  {
    if IsAsciiDigit(c) then c as int - '0' as int
    else if 'a' <= c <= 'f' then c as int - 'a' as int + 10
    else c as int - 'A' as int + 10
  }

  /** The number a string of hexadecimal digits denotes. */
  function HexValue(s: string): nat
    requires forall i :: 0 <= i < |s| ==> IsHexDigit(s[i])
    decreases |s|
  {
    if s == [] then 0
    else
      assert IsHexDigit(s[|s| - 1]);
      HexValue(s[..|s| - 1]) * 16 + HexDigitValue(s[|s| - 1])
  }

  /** Length of the longest all-hex-digit prefix. */
  function HexPrefixLength(s: string): (n: nat)
    ensures n <= |s|
    ensures forall i :: 0 <= i < n ==> IsHexDigit(s[i])
    ensures n < |s| ==> !IsHexDigit(s[n])
    decreases |s|
  {
    if s == [] || !IsHexDigit(s[0]) then 0 else 1 + HexPrefixLength(s[1..])
  }

  /** Starts with "0x" or "0X". */
  predicate HexPrefixed(u: string) {
    |u| >= 2 && u[0] == '0' && (u[1] == 'x' || u[1] == 'X')
  }

  /** JavaScript `parseInt(s)` with no radix: `parseInt(s, 10)`, except that
      "0x" or "0X" after the optional sign switches to base 16 (with no hex
      digit after it the result is `NaN`, here `None`). */
  function JsParseIntAuto(s: string): (r: Option<int>)
    ensures !HexPrefixed(SignStripped(TrimStart(s, false))) ==> r == JsParseInt(s)
    ensures HexPrefixed(SignStripped(TrimStart(s, false))) ==>
      (r.None? <==> HexPrefixLength(SignStripped(TrimStart(s, false))[2..]) == 0)
  {
    var t := TrimStart(s, false);
    if HexPrefixed(SignStripped(t)) then HexParse(t) else JsParseInt(s)
  }

  /** The base-16 reading of a trimmed, "0x"-prefixed text after its sign. */
  function HexParse(t: string): (r: Option<int>)
    requires HexPrefixed(SignStripped(t))
    ensures r.None? <==> HexPrefixLength(SignStripped(t)[2..]) == 0
  {
    var h := SignStripped(t)[2..];
    var n := HexPrefixLength(h);
    var v: int := if n == 0 then 0 else HexValue(h[..n]);
    if n == 0 then None
    else if t[0] == '-' then Some(-v)
    else Some(v)
  }

  function HexDigitChar(n: nat): (c: char)
    requires n < 16
    ensures IsHexDigit(c) && HexDigitValue(c) == n
  {
    if n < 10 then ('0' as int + n) as char else ('a' as int + n - 10) as char
  }

  /** Lower-case hexadecimal notation of a natural number without leading zeros. */
  function HexString(n: nat): (r: string)
    ensures r != [] && forall i :: 0 <= i < |r| ==> IsHexDigit(r[i])
    decreases n
  {
    if n < 16 then [HexDigitChar(n)] else HexString(n / 16) + [HexDigitChar(n % 16)]
  }

  lemma {:induction false} HexValueString(n: nat)
    ensures HexValue(HexString(n)) == n
    decreases n
  {
    if n >= 16 {
      HexValueString(n / 16);
      var d := HexString(n / 16) + [HexDigitChar(n % 16)];
      assert d[..|d| - 1] == HexString(n / 16);
    }
  }

  lemma {:induction false} HexPrefixOfHex(d: string, rest: string)
    requires forall i :: 0 <= i < |d| ==> IsHexDigit(d[i])
    requires rest == [] || !IsHexDigit(rest[0])
    ensures HexPrefixLength(d + rest) == |d|
    decreases |d|
  {
    if d == [] {
      assert d + rest == rest;
    } else {
      assert (d + rest)[1..] == d[1..] + rest;
      HexPrefixOfHex(d[1..], rest);
    }
  }

  /** A string starting with a digit has no leading space and no sign. */
  lemma DigitStart(s: string)
    requires s != [] && IsAsciiDigit(s[0])
    ensures TrimStart(s, false) == s && SignStripped(s) == s
  {
    TrimStartOfTrimmed(s, false);
  }

  /** `parseInt` without a radix reads "0x" or "0X" followed by hexadecimal
      notation as that number. */
  lemma JsParseIntAutoHex(x: char, n: nat, rest: string)
    requires x == 'x' || x == 'X'
    requires rest == [] || !IsHexDigit(rest[0])
    ensures JsParseIntAuto("0" + [x] + HexString(n) + rest) == Some(n)
  {
    HexPrefixOfHex(HexString(n), rest);
    HexAutoOf(x, HexString(n), rest);
    HexValueString(n);
  }

  lemma HexAutoOf(x: char, d: string, rest: string)
    requires x == 'x' || x == 'X'
    requires d != [] && forall i :: 0 <= i < |d| ==> IsHexDigit(d[i])
    requires HexPrefixLength(d + rest) == |d|
    ensures JsParseIntAuto("0" + [x] + d + rest) == Some(HexValue(d))
  {
    var s := "0" + [x] + d + rest;
    DigitStart(s);
    assert s[2..] == d + rest;
    HexParseOf(s, d, rest);
  }

  lemma HexParseOf(s: string, d: string, rest: string)
    requires s != [] && s[0] == '0' && HexPrefixed(s) && s[2..] == d + rest
    requires forall i :: 0 <= i < |d| ==> IsHexDigit(d[i])
    requires d != [] && HexPrefixLength(d + rest) == |d|
    ensures HexParse(s) == Some(HexValue(d))
  {
    assert (d + rest)[..|d|] == d;
  }

  /** "0x" or "0X" with no hex digit after it is `NaN`. */
  lemma JsParseIntAutoBareHex(x: char, rest: string)
    requires x == 'x' || x == 'X'
    requires rest == [] || !IsHexDigit(rest[0])
    ensures JsParseIntAuto("0" + [x] + rest) == None
  {
    var e := "0" + [x] + rest;
    assert e[0] == '0' && e[1] == x && e[2..] == rest;
    BareHexOf(e, rest);
  }

  lemma BareHexOf(e: string, rest: string)
    requires |e| >= 2 && e[0] == '0' && (e[1] == 'x' || e[1] == 'X') && e[2..] == rest
    requires rest == [] || !IsHexDigit(rest[0])
    ensures JsParseIntAuto(e) == None
  {
    DigitStart(e);
    assert HexPrefixLength(rest) == 0;
  }

  /** Without a radix, a decimal number is still read as itself unless it is
      a lone "0" followed by "x" or "X". */
  lemma JsParseIntAutoDecimal(n: nat, rest: string)
    requires rest == [] || !IsAsciiDigit(rest[0])
    requires n > 0 || rest == [] || (rest[0] != 'x' && rest[0] != 'X')
    ensures JsParseIntAuto(DecimalString(n) + rest) == Some(n)
  {
    var d := DecimalString(n);
    var s := d + rest;
    assert s[0] == d[0];
    DigitStart(s);
    if n > 0 {
      DecimalLeadingDigit(n);
    } else if |s| >= 2 {
      assert d == "0" && s[1] == rest[0];
    }
    assert !HexPrefixed(s);
    JsParseIntDecimal(n, rest);
  }

  /** JavaScript truthiness of an optional string: present and non-empty. */
  predicate Truthy(s: Option<string>) {
    s.Some? && s.value != ""
  }

  /** JavaScript `a || b` on two optional strings. */
  function Or(a: Option<string>, b: Option<string>): (r: Option<string>)
    ensures Truthy(r) <==> Truthy(a) || Truthy(b)
  {
    if Truthy(a) then a else b
  }
}
