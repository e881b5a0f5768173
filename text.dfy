/**
 * The small pieces of Python's string and integer semantics that the recorder
 * relies on: substring search (`x in s`, `s.split(sep)`), whitespace splitting
 * (`s.split()`), `str(n)` for an integer and `int(s)` for a command-line value.
 */
module Text {

  datatype Option<T> = None | Some(value: T)

  /** Python's `str.isspace` for a single character (the code points Python treats as white space). */
  predicate IsSpace(c: char) {
    var n := c as int;
    (9 <= n <= 13) || (28 <= n <= 32) || n == 0x85 || n == 0xA0 || n == 0x1680
    || (0x2000 <= n <= 0x200A) || n == 0x2028 || n == 0x2029 || n == 0x202F
    || n == 0x205F || n == 0x3000
  }

  predicate NoSpace(s: string) {
    forall k :: 0 <= k < |s| ==> !IsSpace(s[k])
  }

  predicate AllSpace(s: string) {
    forall k :: 0 <= k < |s| ==> IsSpace(s[k])
  }

  // ---------------------------------------------------------------- search

  /** `pat` occurs in `s` starting at index `i`. */
  predicate OccursAt<T(==)>(s: seq<T>, pat: seq<T>, i: int) {
    0 <= i && i + |pat| <= |s| && s[i..i + |pat|] == pat
  }

  lemma OccursAtShift<T>(s: seq<T>, pat: seq<T>, j: int)
    requires |s| > 0 && 0 <= j
    ensures OccursAt(s[1..], pat, j) <==> OccursAt(s, pat, j + 1)
  {
    if 0 <= j && j + |pat| <= |s| - 1 {
      assert s[1..][j..j + |pat|] == s[j + 1..j + 1 + |pat|];
    }
  }

  /** The index of the first occurrence of `pat` in `s` (Python's `s.find(pat)`, with None for -1). */
  function Find<T(==)>(s: seq<T>, pat: seq<T>): (r: Option<nat>)
    ensures r.Some? ==> OccursAt(s, pat, r.value)
    ensures r.Some? ==> forall j :: 0 <= j < r.value ==> !OccursAt(s, pat, j)
    ensures r.None? ==> forall j :: !OccursAt(s, pat, j)
    decreases |s|
  {
    if |s| < |pat| then None
    else if s[..|pat|] == pat then Some(0)
    else
      var rest := Find(s[1..], pat);
      assert !OccursAt(s, pat, 0);
      match rest
      case None =>
        assert forall j :: !OccursAt(s, pat, j) by {
          forall j ensures !OccursAt(s, pat, j) {
            if j > 0 { OccursAtShift(s, pat, j - 1); }
          }
        }
        None
      case Some(i) =>
        assert forall j :: 0 <= j < i + 1 ==> !OccursAt(s, pat, j) by {
          forall j | 0 <= j < i + 1 ensures !OccursAt(s, pat, j) {
            if j > 0 { OccursAtShift(s, pat, j - 1); }
          }
        }
        Some(i + 1)
  }

  /** Python's `pat in s` for strings (and, on lists, "occurs as a contiguous run"). */
  function Contains<T(==)>(s: seq<T>, pat: seq<T>): (b: bool)
    ensures b <==> exists j :: OccursAt(s, pat, j)
  {
    Find(s, pat).Some?
  }

  lemma ConcatAssoc<T>(x: seq<T>, a: seq<T>, b: seq<T>, c: seq<T>)
    ensures x + a + b + c == x + (a + b + c)
  {
  }

  /** Find really returns the first occurrence. */
  lemma FindIsFirst<T>(s: seq<T>, pat: seq<T>, i: int)
    requires OccursAt(s, pat, i)
    requires forall j :: 0 <= j < i ==> !OccursAt(s, pat, j)
    ensures Find(s, pat) == Some(i)
  {
  }

  /** Appending text after the first occurrence does not move it. */
  lemma {:induction false} FindExtend<T>(a: seq<T>, b: seq<T>, pat: seq<T>)
    requires Find(a, pat).Some?
    ensures Find(a + b, pat) == Find(a, pat)
  {
    var i := Find(a, pat).value;
    assert (a + b)[i..i + |pat|] == a[i..i + |pat|];
    forall j | 0 <= j < i ensures !OccursAt(a + b, pat, j) {
      assert !OccursAt(a, pat, j);
      assert (a + b)[j..j + |pat|] == a[j..j + |pat|];
    }
    FindIsFirst(a + b, pat, i);
  }

  /**
   * Python's `s.split(sep)[0]`: everything before the first occurrence of
   * `sep`, or all of `s` when there is none.
   */
  function UpTo(s: string, sep: string): (r: string)
    requires sep != []
    ensures |r| <= |s| && r == s[..|r|]
    ensures !Contains(r, sep)
    ensures |r| == |s| || OccursAt(s, sep, |r|)
    ensures forall j :: 0 <= j < |r| ==> !OccursAt(s, sep, j)
  {
    match Find(s, sep)
    case None => s
    case Some(j) =>
      NoSeparatorBeforeFirst(s, sep, j);
      s[..j]
  }

  lemma {:induction false} NoSeparatorBeforeFirst(s: string, sep: string, j: nat)
    requires sep != [] && Find(s, sep) == Some(j)
    ensures !Contains(s[..j], sep)
  {
    forall k | OccursAt(s[..j], sep, k) ensures false {
      assert s[..j][k..k + |sep|] == s[k..k + |sep|];
      assert OccursAt(s, sep, k);
    }
  }

  /**
   * Python's `s.split(sep)[1]`: the piece between the first and the second
   * occurrence of `sep` (or the end of `s`); None where Python raises IndexError
   * because `sep` does not occur.
   */
  function SplitSecond(s: string, sep: string): (r: Option<string>)
    requires sep != []
    ensures r.None? <==> !Contains(s, sep)
  {
    match Find(s, sep)
    case None => None
    case Some(i) => Some(UpTo(s[i + |sep|..], sep))
  }

  /** What follows the first separator is split off up to the next one. */
  lemma {:induction false} SplitSecondAfter(a: string, sep: string, b: string)
    requires sep != [] && Find(a + sep, sep) == Some(|a|)
    ensures SplitSecond(a + sep + b, sep) == Some(UpTo(b, sep))
  {
    assert a + sep + b == (a + sep) + b;
    FindExtend(a + sep, b, sep);
    assert (a + sep + b)[|a| + |sep|..] == b;
  }

  // ---------------------------------------------------------------- white space

  /** Python's `s.lstrip()`. */
  function TrimLeftSpace(s: string): (r: string)
    ensures |r| <= |s| && r == s[|s| - |r|..]
    ensures AllSpace(s[..|s| - |r|])
    ensures r != [] ==> !IsSpace(r[0])
  {
    if s != [] && IsSpace(s[0]) then
      var r := TrimLeftSpace(s[1..]);
      assert s[..|s| - |r|] == [s[0]] + s[1..][..|s| - 1 - |r|];
      r
    else s
  }

  /** Python's `s.rstrip()`. */
  function TrimRightSpace(s: string): (r: string)
    ensures |r| <= |s| && r == s[..|r|]
    ensures AllSpace(s[|r|..])
    ensures r != [] ==> !IsSpace(r[|r| - 1])
  {
    if s != [] && IsSpace(s[|s| - 1]) then
      var r := TrimRightSpace(s[..|s| - 1]);
      assert s[|r|..] == s[..|s| - 1][|r|..] + [s[|s| - 1]];
      r
    else s
  }

  /** Python's `s.strip()`. */
  function Strip(s: string): string {
    TrimRightSpace(TrimLeftSpace(s))
  }

  /** The longest prefix of `s` without white space. */
  function TakeWord(s: string): (r: string)
    ensures |r| <= |s| && r == s[..|r|]
    ensures NoSpace(r)
    ensures |r| < |s| ==> IsSpace(s[|r|])
  {
    if s == [] || IsSpace(s[0]) then [] else [s[0]] + TakeWord(s[1..])
  }

  /** Python's `s.split()[0]`; None where Python raises IndexError (no word at all). */
  function FirstWord(s: string): (r: Option<string>)
    ensures r.None? <==> AllSpace(s)
    ensures r.Some? ==> r.value != [] && NoSpace(r.value)
  {
    var t := TrimLeftSpace(s);
    if t == [] then
      assert s[..|s|] == s;
      None
    else
      assert !AllSpace(s) by { assert s[|s| - |t|] == t[0]; }
      Some(TakeWord(t))
  }

  lemma {:induction false} TrimLeftSpaceOf(ws: string, t: string)
    requires AllSpace(ws)
    requires t == [] || !IsSpace(t[0])
    ensures TrimLeftSpace(ws + t) == t
  {
    if ws != [] {
      assert (ws + t)[1..] == ws[1..] + t;
      TrimLeftSpaceOf(ws[1..], t);
    }
  }

  lemma {:induction false} TrimRightSpaceOf(t: string, ws: string)
    requires AllSpace(ws)
    requires t == [] || !IsSpace(t[|t| - 1])
    ensures TrimRightSpace(t + ws) == t
  {
    if ws != [] {
      assert (t + ws)[..|t + ws| - 1] == t + ws[..|ws| - 1];
      TrimRightSpaceOf(t, ws[..|ws| - 1]);
    }
  }

  lemma {:induction false} TakeWordOf(w: string, rest: string)
    requires NoSpace(w)
    requires rest == [] || IsSpace(rest[0])
    ensures TakeWord(w + rest) == w
  {
    if w != [] {
      assert (w + rest)[1..] == w[1..] + rest;
      TakeWordOf(w[1..], rest);
    }
  }

  /** `split()[0]` of "spaces, a word, then a space or the end" is that word. */
  lemma FirstWordOf(ws: string, w: string, rest: string)
    requires AllSpace(ws) && w != [] && NoSpace(w)
    requires rest == [] || IsSpace(rest[0])
    ensures FirstWord(ws + w + rest) == Some(w)
  {
    assert ws + w + rest == ws + (w + rest);
    TrimLeftSpaceOf(ws, w + rest);
    TakeWordOf(w, rest);
  }

  /** No `sep` starts inside `ws + w`, nor straddles the space that ends `w`. */
  lemma {:induction false} NoSeparatorBeforeEnd(rest: string, sep: string, ws: string, w: string, q: nat)
    requires sep != [] && NoSpace(sep) && sep[|sep| - 1] !in w
    requires AllSpace(ws) && NoSpace(w)
    requires |ws| + |w| <= |rest| && rest[..|ws| + |w|] == ws + w
    requires |ws| + |w| < |rest| ==> IsSpace(rest[|ws| + |w|])
    requires q < |ws| + |w|
    ensures !OccursAt(rest, sep, q)
  {
    var e := |ws| + |w|;
    var n := |sep|;
    if q + n <= e {
      var p := q + n - 1;
      assert rest[p] == (ws + w)[p];
      if p < |ws| {
        assert IsSpace(rest[p]);
      } else {
        assert rest[p] == w[p - |ws|];
      }
      assert rest[q..q + n][n - 1] == rest[p];
    } else if q + n <= |rest| {
      assert rest[q..q + n][e - q] == rest[e];
    }
  }

  /** `(ws + w + tail).split(sep)[0].split()[0] == w` when no separator can start before `tail`. */
  lemma {:induction false} FirstWordUpTo(sep: string, ws: string, w: string, tail: string)
    requires sep != [] && NoSpace(sep) && sep[|sep| - 1] !in w
    requires AllSpace(ws) && w != [] && NoSpace(w)
    requires tail == [] || IsSpace(tail[0])
    ensures FirstWord(UpTo(ws + w + tail, sep)) == Some(w)
  {
    var rest := ws + w + tail;
    var piece := UpTo(rest, sep);
    var q := |piece|;
    assert rest[..|ws| + |w|] == ws + w;
    if q < |ws| + |w| {
      NoSeparatorBeforeEnd(rest, sep, ws, w, q);
    }
    var m := q - |ws| - |w|;
    assert piece == ws + w + tail[..m];
    FirstWordOf(ws, w, tail[..m]);
  }

  /**
   * `(p + sep + ws + w + tail).split(sep)[1].split()[0] == w` when `sep` first
   * occurs right after `p`, `ws` is white space, `w` is a word that cannot end
   * a separator, and `tail` is empty or starts with white space.
   */
  lemma {:induction false} WordAfterSeparator(p: string, sep: string, ws: string, w: string, tail: string)
    requires sep != [] && NoSpace(sep) && sep[|sep| - 1] !in w
    requires Find(p + sep, sep) == Some(|p|)
    requires AllSpace(ws) && w != [] && NoSpace(w)
    requires tail == [] || IsSpace(tail[0])
    ensures SplitSecond(p + sep + ws + w + tail, sep).Some?
    ensures FirstWord(SplitSecond(p + sep + ws + w + tail, sep).value) == Some(w)
  {
    ConcatAssoc(p + sep, ws, w, tail);
    SplitSecondAfter(p, sep, ws + w + tail);
    FirstWordUpTo(sep, ws, w, tail);
  }

  // ---------------------------------------------------------------- integers

  predicate IsDigit(c: char) {
    '0' <= c <= '9'
  }

  predicate AllDigits(s: string) {
    forall k :: 0 <= k < |s| ==> IsDigit(s[k])
  }

  function DigitChar(d: nat): (c: char)
    requires d < 10
    ensures IsDigit(c) && c as int - '0' as int == d
  {
    ('0' as int + d) as char
  }

  /** The decimal value of a string of digits. */
  function DigitsValue(s: string): nat
    requires AllDigits(s)
  {
    if s == [] then 0
    else DigitsValue(s[..|s| - 1]) * 10 + (s[|s| - 1] as int - '0' as int)
  }

  /** Python's `str(n)` for a natural number: shortest decimal form. */
  function NatToString(n: nat): (r: string)
    ensures r != [] && AllDigits(r)
    ensures r[0] == '0' ==> n == 0 && r == "0"
    decreases n
  {
    if n < 10 then [DigitChar(n)] else NatToString(n / 10) + [DigitChar(n % 10)]
  }

  /** Python's `str(i)` for an integer. */
  function IntToString(i: int): (r: string)
    ensures r != [] && !IsSpace(r[0]) && !IsSpace(r[|r| - 1])
    ensures (r[0] == '-') == (i < 0)
  {
    if i < 0 then "-" + NatToString(-i) else NatToString(i)
  }

  /** Digits with single underscores between them, as Python's `int()` accepts. */
  predicate DigitGroups(b: string) {
    |b| > 0 && IsDigit(b[0]) && IsDigit(b[|b| - 1]) &&
    (forall k :: 0 <= k < |b| ==> IsDigit(b[k]) || b[k] == '_') &&
    (forall k :: 0 <= k < |b| - 1 ==> b[k] == '_' ==> b[k + 1] != '_')
  }

  /** The digits of `b` with the underscores taken out. */
  function DropUnderscores(b: string): (r: string)
    requires forall k :: 0 <= k < |b| ==> IsDigit(b[k]) || b[k] == '_'
    ensures AllDigits(r)
  {
    if b == [] then []
    else if b[0] == '_' then DropUnderscores(b[1..])
    else [b[0]] + DropUnderscores(b[1..])
  }

  /**
   * The ASCII information separators U+001C to U+001F: white space to
   * `str.split` and `str.strip`, but not to `int()`, which skips only the
   * other white space.
   */
  predicate IsSeparatorControl(c: char) {
    28 <= c as int <= 31
  }

  /**
   * Python's `int(s)` for base-10 text: optional surrounding white space, an
   * optional sign, digits in underscore-separated groups; None where Python
   * raises ValueError.
   */
  function ParseInt(s: string): (r: Option<int>)
    ensures (exists k :: 0 <= k < |s| && IsSeparatorControl(s[k])) ==> r.None?
    ensures AllSpace(s) ==> r.None?
  {
    if exists k | 0 <= k < |s| :: IsSeparatorControl(s[k]) then None
    else ParseStripped(Strip(s))
  }

  /** `int()` once the surrounding white space is gone: an optional sign, then digit groups. */
  function ParseStripped(t: string): Option<int> {
    var signed := |t| > 0 && (t[0] == '-' || t[0] == '+');
    var body := if signed then t[1..] else t;
    if DigitGroups(body) then
      var v: int := DigitsValue(DropUnderscores(body));
      Some(if signed && t[0] == '-' then -v else v)
    else None
  }

  lemma {:induction false} DropUnderscoresOfDigits(s: string)
    requires AllDigits(s)
    ensures DropUnderscores(s) == s
  {
    if s != [] {
      DropUnderscoresOfDigits(s[1..]);
    }
  }

  lemma {:induction false} DigitsValueOfNat(n: nat)
    ensures DigitsValue(NatToString(n)) == n
    decreases n
  {
    if n >= 10 {
      var s := NatToString(n);
      assert s[..|s| - 1] == NatToString(n / 10);
      DigitsValueOfNat(n / 10);
    }
  }

  lemma DigitGroupsOfDigits(s: string)
    requires s != [] && AllDigits(s)
    ensures DigitGroups(s)
  {
  }

  lemma StripOfWord(s: string)
    requires s != [] && !IsSpace(s[0]) && !IsSpace(s[|s| - 1])
    ensures Strip(s) == s
  {
    assert TrimLeftSpace(s) == s;
  }

  /** `str(i)` holds only a sign and decimal digits. */
  lemma NoSeparatorControlInInt(i: int)
    ensures forall k :: 0 <= k < |IntToString(i)| ==> !IsSeparatorControl(IntToString(i)[k])
  {
    var s := IntToString(i);
    var n: nat := if i < 0 then -i else i;
    var digits := NatToString(n);
    forall k | 0 <= k < |s| ensures !IsSeparatorControl(s[k]) {
      if i < 0 {
        if k > 0 {
          assert s[k] == digits[k - 1];
        }
      } else {
        assert s[k] == digits[k];
      }
    }
  }

  /** White space that `int()` skips: anything `isspace` accepts except U+001C to U+001F. */
  predicate IntPadding(ws: string) {
    forall k :: 0 <= k < |ws| ==> IsSpace(ws[k]) && !IsSeparatorControl(ws[k])
  }

  /**
   * Every text of the accepted shape parses: skipped white space, an optional
   * `+` or `-`, digit groups joined by single underscores, skipped white space.
   * The value is that of the digits, negated after a `-`.
   */
  lemma ParseIntOfGroups(ws1: string, sign: string, b: string, ws2: string)
    requires IntPadding(ws1) && IntPadding(ws2)
    requires sign == "" || sign == "+" || sign == "-"
    requires DigitGroups(b)
    ensures ParseInt(ws1 + sign + b + ws2) ==
      Some(if sign == "-" then -(DigitsValue(DropUnderscores(b)) as int) else DigitsValue(DropUnderscores(b)) as int)
  {
    var s := ws1 + sign + b + ws2;
    var t := sign + b;
    assert s == ws1 + t + ws2;
    NoSeparatorControlInPadded(ws1, t, ws2);
    StripOfPadded(ws1, t, ws2);
    ParseStrippedOfGroups(sign, b);
  }

  lemma ParseStrippedOfGroups(sign: string, b: string)
    requires sign == "" || sign == "+" || sign == "-"
    requires DigitGroups(b)
    ensures ParseStripped(sign + b) ==
      Some(if sign == "-" then -(DigitsValue(DropUnderscores(b)) as int) else DigitsValue(DropUnderscores(b)) as int)
  {
    var t := sign + b;
    assert (if sign == "" then t else t[1..]) == b;
  }

  lemma NoSeparatorControlInPadded(ws1: string, t: string, ws2: string)
    requires IntPadding(ws1) && IntPadding(ws2)
    requires forall k :: 0 <= k < |t| ==> t[k] == '+' || t[k] == '-' || t[k] == '_' || IsDigit(t[k])
    ensures forall k :: 0 <= k < |ws1 + t + ws2| ==> !IsSeparatorControl((ws1 + t + ws2)[k])
  {
    var s := ws1 + t + ws2;
    forall k | 0 <= k < |s| ensures !IsSeparatorControl(s[k]) {
      if k < |ws1| {
        assert s[k] == ws1[k];
      } else if k < |ws1| + |t| {
        assert s[k] == t[k - |ws1|];
      } else {
        assert s[k] == ws2[k - |ws1| - |t|];
      }
    }
  }

  lemma StripOfPadded(ws1: string, t: string, ws2: string)
    requires AllSpace(ws1) && AllSpace(ws2)
    requires t != [] && !IsSpace(t[0]) && !IsSpace(t[|t| - 1])
    ensures Strip(ws1 + t + ws2) == t
  {
    assert ws1 + t + ws2 == ws1 + (t + ws2);
    TrimLeftSpaceOf(ws1, t + ws2);
    TrimRightSpaceOf(t, ws2);
  }

  lemma {:induction false} DropUnderscoresAppend(x: string, y: string)
    requires forall k :: 0 <= k < |x| ==> IsDigit(x[k]) || x[k] == '_'
    requires forall k :: 0 <= k < |y| ==> IsDigit(y[k]) || y[k] == '_'
    ensures DropUnderscores(x + y) == DropUnderscores(x) + DropUnderscores(y)
  {
    if x == [] {
      assert x + y == y;
    } else {
      assert (x + y)[0] == x[0];
      assert (x + y)[1..] == x[1..] + y;
      DropUnderscoresAppend(x[1..], y);
      if x[0] != '_' {
        calc {
          DropUnderscores(x + y);
          [x[0]] + DropUnderscores(x[1..] + y);
          [x[0]] + (DropUnderscores(x[1..]) + DropUnderscores(y));
          ([x[0]] + DropUnderscores(x[1..])) + DropUnderscores(y);
        }
      }
    }
  }

  /** Digit groups alone, with no sign and no white space. */
  lemma ParseIntOfBareGroups(b: string)
    requires DigitGroups(b)
    ensures ParseInt(b) == Some(DigitsValue(DropUnderscores(b)) as int)
  {
    assert "" + "" + b + "" == b;
    ParseIntOfGroups("", "", b, "");
  }

  lemma UnderscoreGroups(x: string, y: string)
    requires x != [] && y != [] && AllDigits(x) && AllDigits(y)
    ensures DigitGroups(x + "_" + y) && DigitGroups(x + y)
    ensures DropUnderscores(x + "_" + y) == x + y == DropUnderscores(x + y)
  {
    UnderscoreJoinsGroups(x, y);
    DigitGroupsOfDigits(x + y);
    DropUnderscoresOfDigits(x + y);
    DropOneUnderscore(x, y);
  }

  lemma UnderscoreJoinsGroups(x: string, y: string)
    requires x != [] && y != [] && AllDigits(x) && AllDigits(y)
    ensures DigitGroups(x + "_" + y)
  {
    var g := x + "_" + y;
    assert g[0] == x[0] && g[|g| - 1] == y[|y| - 1];
    forall k | 0 <= k < |g| ensures IsDigit(g[k]) || g[k] == '_' {
      if k < |x| { assert g[k] == x[k]; } else if k > |x| { assert g[k] == y[k - |x| - 1]; }
    }
    forall k | 0 <= k < |g| - 1 && g[k] == '_' ensures g[k + 1] != '_' {
      assert k == |x|;
      assert g[k + 1] == y[0];
    }
  }

  lemma DropOneUnderscore(x: string, y: string)
    requires AllDigits(x) && AllDigits(y)
    ensures DropUnderscores(x + "_" + y) == x + y
  {
    var u := x + "_";
    assert forall k :: 0 <= k < |u| ==> IsDigit(u[k]) || u[k] == '_';
    DropUnderscoresAppend(x, "_");
    DropUnderscoresOfDigits(x);
    assert DropUnderscores("_") == [];
    assert DropUnderscores(u) == x;
    DropUnderscoresAppend(u, y);
    DropUnderscoresOfDigits(y);
  }

  /** An underscore between two runs of digits does not change what `int()` reads. */
  lemma ParseIntUnderscore(x: string, y: string)
    requires x != [] && y != [] && AllDigits(x) && AllDigits(y)
    ensures ParseInt(x + "_" + y) == ParseInt(x + y)
  {
    UnderscoreGroups(x, y);
    ParseIntOfBareGroups(x + "_" + y);
    ParseIntOfBareGroups(x + y);
  }

  /** `int()` reads `str(n)` back with white space around it and an optional sign. */
  lemma ParseIntPadded(ws1: string, sign: string, n: nat, ws2: string)
    requires IntPadding(ws1) && IntPadding(ws2)
    requires sign == "" || sign == "+" || sign == "-"
    ensures ParseInt(ws1 + sign + NatToString(n) + ws2) == Some(if sign == "-" then -(n as int) else n as int)
  {
    var digits := NatToString(n);
    DigitGroupsOfDigits(digits);
    DropUnderscoresOfDigits(digits);
    DigitsValueOfNat(n);
    ParseIntOfGroups(ws1, sign, digits, ws2);
  }

  /**
   * `str(i)` is exactly Python's text: after an optional '-' for a negative
   * number, the shortest decimal digits of its magnitude, with no sign, no
   * underscore and no leading zero except for zero itself.
   */
  lemma IntToStringDigits(i: int)
    ensures var s := IntToString(i);
            var d := if i < 0 then s[1..] else s;
            d != [] && AllDigits(d) && (d[0] == '0' ==> d == "0") &&
            DigitsValue(d) == (if i < 0 then -i else i)
  {
    var n: nat := if i < 0 then -i else i;
    var s := IntToString(i);
    var d := if i < 0 then s[1..] else s;
    DigitsValueOfNat(n);
    assert d == NatToString(n);
  }

  /**
   * Every text `int()` accepts has the shape `ParseIntOfGroups` reads:
   * skipped white space, an optional sign, digit groups, skipped white space.
   * Together the two lemmas say that `int()` accepts exactly that shape; in
   * particular `int("abc")` raises ValueError.
   */
  lemma ParseIntShape(s: string) returns (ws1: string, sign: string, b: string, ws2: string)
    ensures ParseInt(s).Some? ==>
      IntPadding(ws1) && IntPadding(ws2) && (sign == "" || sign == "+" || sign == "-") &&
      DigitGroups(b) && s == ws1 + sign + b + ws2
  {
    if ParseInt(s).None? {
      ws1, sign, b, ws2 := "", "", "", "";
    } else {
      var t := Strip(s);
      assert ParseStripped(t).Some?;
      ws1, ws2 := StripParts(s);
      PaddingOfParts(s, ws1, t, ws2);
      sign, b := StrippedShape(t);
      Regroup(ws1 + t, ws1, t, sign, b);
      assert s == (ws1 + t) + ws2;
    }
  }

  /** `strip()` removes white space from both ends and nothing else. */
  lemma StripParts(s: string) returns (ws1: string, ws2: string)
    ensures AllSpace(ws1) && AllSpace(ws2)
    ensures s == ws1 + Strip(s) + ws2
  {
    var l := TrimLeftSpace(s);
    ws1 := TrimLeftParts(s);
    ws2 := TrimRightParts(l);
    Regroup(s, ws1, l, TrimRightSpace(l), ws2);
  }

  lemma Regroup<T>(s: seq<T>, a: seq<T>, l: seq<T>, t: seq<T>, b: seq<T>)
    requires s == a + l && l == t + b
    ensures s == a + t + b
  {
  }

  lemma TrimLeftParts(s: string) returns (ws: string)
    ensures AllSpace(ws) && s == ws + TrimLeftSpace(s)
  {
    var l := TrimLeftSpace(s);
    ws := s[..|s| - |l|];
    SplitAt(s, |s| - |l|, ws, l);
  }

  lemma TrimRightParts(s: string) returns (ws: string)
    ensures AllSpace(ws) && s == TrimRightSpace(s) + ws
  {
    var r := TrimRightSpace(s);
    ws := s[|r|..];
    SplitAt(s, |r|, r, ws);
  }

  lemma SplitAt<T>(s: seq<T>, i: nat, a: seq<T>, b: seq<T>)
    requires i <= |s| && a == s[..i] && b == s[i..]
    ensures s == a + b
  {
  }

  lemma PaddingOfParts(s: string, ws1: string, t: string, ws2: string)
    requires AllSpace(ws1) && AllSpace(ws2) && s == ws1 + t + ws2
    requires forall k :: 0 <= k < |s| ==> !IsSeparatorControl(s[k])
    ensures IntPadding(ws1) && IntPadding(ws2)
  {
    forall k | 0 <= k < |ws1| ensures !IsSeparatorControl(ws1[k]) {
      assert ws1[k] == s[k];
    }
    forall k | 0 <= k < |ws2| ensures !IsSeparatorControl(ws2[k]) {
      assert ws2[k] == s[|ws1| + |t| + k];
    }
  }

  lemma StrippedShape(t: string) returns (sign: string, b: string)
    requires ParseStripped(t).Some?
    ensures sign == "" || sign == "+" || sign == "-"
    ensures DigitGroups(b) && t == sign + b
  {
    var signed := |t| > 0 && (t[0] == '-' || t[0] == '+');
    sign := if signed then t[..1] else "";
    b := if signed then t[1..] else t;
    assert t == sign + b;
  }

  /** `int(str(i)) == i`: the integer parser undoes the integer printer. */
  lemma ParseIntOfIntToString(i: int)
    ensures ParseInt(IntToString(i)) == Some(i)
  {
    var s := IntToString(i);
    StripOfWord(s);
    NoSeparatorControlInInt(i);
    var n: nat := if i < 0 then -i else i;
    var digits := NatToString(n);
    assert s == if i < 0 then "-" + digits else digits;
    var body := if i < 0 then s[1..] else s;
    assert body == digits;
    DigitGroupsOfDigits(digits);
    DropUnderscoresOfDigits(digits);
    DigitsValueOfNat(n);
  }
}
