/**
 * The Python `str` built-ins the core relies on, over `string` (a sequence of
 * Unicode code points, as Python's `str` is): `str(n)` and `int(s)` for
 * integers, `strip()`, `lower()` where it is compared with ASCII text,
 * `split()`, `split(c)[0]`, `sep.join(...)`, `replace(pat, '')`, `lstrip(c)`
 * and the ordering `<=` on strings.
 */
module Strings {
  import opened Wrappers

  // ---------------------------------------------------------------- digits

  predicate IsDigit(c: char) {
    '0' <= c <= '9'
  }

  predicate AllDigits(s: string) {
    forall i :: 0 <= i < |s| ==> IsDigit(s[i])
  }

  function DigitValue(c: char): nat
    requires IsDigit(c)
  {
    c as int - '0' as int
  }

  function DigitChar(d: nat): (c: char)
    requires d < 10
    ensures IsDigit(c) && DigitValue(c) == d
  {
    ('0' as int + d) as char
  }

  /** `str(n)` for n >= 0: the decimal digits of n, without leading zeros. */
  function NatToString(n: nat): (s: string)
    ensures |s| >= 1 && AllDigits(s)
    ensures (|s| == 1) == (n < 10)
    ensures s[0] == '0' ==> n == 0
  {
    if n < 10 then [DigitChar(n)] else NatToString(n / 10) + [DigitChar(n % 10)]
  }

  /** `str(i)` for any int: a minus sign before the digits of a negative number. */
  function IntToString(i: int): string {
    if i < 0 then "-" + NatToString(-i) else NatToString(i)
  }

  /** The value of a string of decimal digits; leading zeros are allowed, as `int()` allows them. */
  function DigitsValue(s: string): nat
    requires AllDigits(s)
  {
    if s == [] then 0 else DigitsValue(s[..|s| - 1]) * 10 + DigitValue(s[|s| - 1])
  }

  /** Reading back what `str(n)` printed gives n. */
  lemma {:induction false} DigitsValueOfNatToString(n: nat)
    ensures DigitsValue(NatToString(n)) == n
  {
    if n >= 10 {
      var s := NatToString(n);
      assert s[..|s| - 1] == NatToString(n / 10);
      DigitsValueOfNatToString(n / 10);
    }
  }

  /** Two numbers print alike only if they are equal. */
  lemma NatToStringInjective(m: nat, n: nat)
    requires NatToString(m) == NatToString(n)
    ensures m == n
  {
    DigitsValueOfNatToString(m);
    DigitsValueOfNatToString(n);
  }

  // ------------------------------------------------------------ whitespace

  /** Python's `str.isspace()` for one character. */
  predicate IsSpace(c: char) {
    var k := c as int;
    (9 <= k <= 13) || (28 <= k <= 32) || k == 0x85 || k == 0xA0 || k == 0x1680
    || (0x2000 <= k <= 0x200A) || k == 0x2028 || k == 0x2029 || k == 0x202F
    || k == 0x205F || k == 0x3000
  }

  predicate NoSpace(w: string) {
    forall i :: 0 <= i < |w| ==> !IsSpace(w[i])
  }

  /** `s.lstrip()`. */
  function TrimLeft(s: string): (r: string)
    ensures |r| <= |s|
    ensures r == [] || !IsSpace(r[0])
  {
    if s != [] && IsSpace(s[0]) then TrimLeft(s[1..]) else s
  }

  /** `s.rstrip()`. */
  function TrimRight(s: string): (r: string)
    ensures |r| <= |s|
    ensures r == [] || !IsSpace(r[|r| - 1])
  {
    if s != [] && IsSpace(s[|s| - 1]) then TrimRight(s[..|s| - 1]) else s
  }

  /** lstrip removes exactly the leading whitespace: a suffix remains, and all that went was space. */
  lemma {:induction false} TrimLeftRemovesSpace(s: string)
    ensures TrimLeft(s) == s[|s| - |TrimLeft(s)|..]
    ensures forall i :: 0 <= i < |s| - |TrimLeft(s)| ==> IsSpace(s[i])
  {
    if s != [] && IsSpace(s[0]) {
      TrimLeftRemovesSpace(s[1..]);
    }
  }

  /** rstrip removes exactly the trailing whitespace: a prefix remains, and all that went was space. */
  lemma {:induction false} TrimRightRemovesSpace(s: string)
    ensures TrimRight(s) == s[..|TrimRight(s)|]
    ensures forall i :: |TrimRight(s)| <= i < |s| ==> IsSpace(s[i])
  {
    if s != [] && IsSpace(s[|s| - 1]) {
      TrimRightRemovesSpace(s[..|s| - 1]);
    }
  }

  /** `s.strip()`: s without its leading and trailing whitespace. */
  function Strip(s: string): (r: string)
    ensures r == [] || (!IsSpace(r[0]) && !IsSpace(r[|r| - 1]))
  {
    TrimRightRemovesSpace(TrimLeft(s));
    TrimRight(TrimLeft(s))
  }

  /** A string that neither starts nor ends with whitespace strips to itself. */
  lemma StripUnchanged(s: string)
    requires s == [] || (!IsSpace(s[0]) && !IsSpace(s[|s| - 1]))
    ensures Strip(s) == s
  {
    assert TrimLeft(s) == s;
  }

  /** A string made only of whitespace strips to the empty string. */
  lemma StripAllSpace(s: string)
    requires forall i :: 0 <= i < |s| ==> IsSpace(s[i])
    ensures Strip(s) == []
  {
    TrimLeftRemovesSpace(s);
  }

  function SpanNonSpace(t: string): (n: nat)
    ensures n <= |t|
    ensures forall i :: 0 <= i < n ==> !IsSpace(t[i])
    ensures n < |t| ==> IsSpace(t[n])
  {
    if t == [] || IsSpace(t[0]) then 0 else 1 + SpanNonSpace(t[1..])
  }

  /** Every entry is a non-empty run of non-whitespace characters. */
  predicate AreWords(ws: seq<string>) {
    forall k :: 0 <= k < |ws| ==> ws[k] != [] && NoSpace(ws[k])
  }

  /** `s.split()` with no separator: the maximal runs of non-whitespace characters, in order. */
  function Words(s: string): (ws: seq<string>)
    ensures AreWords(ws)
    decreases |s|
  {
    if s == [] then []
    else if IsSpace(s[0]) then Words(s[1..])
    else
      var n := SpanNonSpace(s);
      [s[..n]] + Words(s[n..])
  }

  /** The first word of w + x is all of w when x is empty or starts with whitespace. */
  lemma {:induction false} SpanOfWordThen(w: string, x: string)
    requires NoSpace(w)
    requires x == [] || IsSpace(x[0])
    ensures SpanNonSpace(w + x) == |w|
  {
    if w == [] {
      assert w + x == x;
    } else {
      assert (w + x)[0] == w[0];
      assert (w + x)[1..] == w[1..] + x;
      SpanOfWordThen(w[1..], x);
    }
  }

  /** A word followed by whitespace (or nothing) is the first word. */
  lemma WordsOfWordThen(w: string, x: string)
    requires w != [] && NoSpace(w)
    requires x == [] || IsSpace(x[0])
    ensures Words(w + x) == [w] + Words(x)
  {
    var j := w + x;
    assert j[0] == w[0];
    SpanOfWordThen(w, x);
    assert j[..|w|] == w;
    assert j[|w|..] == x;
  }

  lemma WordsSkipsSpace(x: string)
    ensures Words([' '] + x) == Words(x)
  {
    assert ([' '] + x)[1..] == x;
  }

  /** A word, one space, then more text: the word, then the words of the rest. */
  lemma WordsOfWordSpaceThen(w: string, rest: string)
    requires w != [] && NoSpace(w)
    ensures Words(w + ([' '] + rest)) == [w] + Words(rest)
  {
    WordsOfWordThen(w, [' '] + rest);
    WordsSkipsSpace(rest);
  }

  /** Splitting words joined by single spaces gives the words back. */
  lemma {:induction false} WordsOfJoin(ws: seq<string>)
    requires AreWords(ws)
    ensures Words(Join(ws, " ")) == ws
  {
    if |ws| == 0 {
      assert Join(ws, " ") == [];
    } else if |ws| == 1 {
      WordsOfWordThen(ws[0], []);
      assert ws[0] + [] == ws[0];
      assert Words([]) == [];
    } else {
      var rest := Join(ws[1..], " ");
      var j := Join(ws, " ");
      assert j == ws[0] + " " + rest;
      assert j == ws[0] + ([' '] + rest);
      WordsOfWordSpaceThen(ws[0], rest);
      assert Words(j) == [ws[0]] + Words(rest);
      assert AreWords(ws[1..]);
      WordsOfJoin(ws[1..]);
      assert Words(rest) == ws[1..];
      assert [ws[0]] + ws[1..] == ws;
    }
  }

  // ------------------------------------------------------------------ int()

  /** Decimal digits with single underscores between them, the form `int()` reads (PEP 515). */
  predicate DigitGroups(d: string)
    decreases |d|
  {
    |d| >= 1 && IsDigit(d[0]) &&
    (|d| == 1 || DigitGroups(d[1..]) || (d[1] == '_' && DigitGroups(d[2..])))
  }

  /** The digits of d, its underscores dropped. */
  function DropUnderscores(d: string): string {
    if d == [] then [] else (if d[0] == '_' then [] else [d[0]]) + DropUnderscores(d[1..])
  }

  /** Plain digits have no underscore to drop. */
  lemma {:induction false} DropUnderscoresOfDigits(d: string)
    requires AllDigits(d)
    ensures DropUnderscores(d) == d
    decreases |d|
  {
    if d != [] {
      DropUnderscoresOfDigits(d[1..]);
      assert d == [d[0]] + d[1..];
    }
  }

  /** Digit groups leave at least one digit and nothing else once the underscores are dropped. */
  lemma {:induction false} DigitGroupsDigits(d: string)
    requires DigitGroups(d)
    ensures |DropUnderscores(d)| >= 1 && AllDigits(DropUnderscores(d))
    decreases |d|
  {
    if |d| > 1 {
      if DigitGroups(d[1..]) {
        DigitGroupsDigits(d[1..]);
      } else {
        DigitGroupsDigits(d[2..]);
        assert DropUnderscores(d[1..]) == DropUnderscores(d[2..]);
      }
    }
  }

  /** Plain digits are digit groups. */
  lemma {:induction false} DigitsAreGroups(d: string)
    requires |d| >= 1 && AllDigits(d)
    ensures DigitGroups(d)
    decreases |d|
  {
    if |d| > 1 {
      DigitsAreGroups(d[1..]);
    }
  }

  /** Digit groups and their value; None for anything else. */
  function ParseDigits(d: string): (r: Option<nat>)
    ensures r.Some? <==> DigitGroups(d)
  {
    if DigitGroups(d) then
      DigitGroupsDigits(d);
      Some(DigitsValue(DropUnderscores(d)))
    else None
  }

  /** Without underscores the value is that of the digits. */
  lemma {:induction false} ParseDigitsOfDigits(d: string)
    requires |d| >= 1 && AllDigits(d)
    ensures ParseDigits(d) == Some(DigitsValue(d))
  {
    DigitsAreGroups(d);
    DropUnderscoresOfDigits(d);
  }

  /**
   * `int(s)` on a str: optional surrounding whitespace, an optional sign and at
   * least one decimal digit, with single underscores allowed between digits.
   * None stands for the ValueError int() raises.
   */
  function PyInt(s: string): Option<int> {
    SignedDigits(Strip(s))
  }

  /** `int(t)` once the whitespace is stripped: an optional sign, then digits. */
  function SignedDigits(t: string): Option<int> {
    if |t| >= 1 && (t[0] == '-' || t[0] == '+') then
      match ParseDigits(t[1..])
      case Some(v) => Some(if t[0] == '-' then -(v as int) else v as int)
      case None => None
    else
      match ParseDigits(t)
      case Some(v) => Some(v as int)
      case None => None
  }

  lemma DigitsHaveNoSpace(s: string)
    requires AllDigits(s)
    ensures NoSpace(s)
  {
  }

  /** `str(i)` has no whitespace, so `int()` reads it unstripped. */
  lemma IntToStringHasNoSpace(i: int)
    ensures NoSpace(IntToString(i))
  {
    var s := IntToString(i);
    if i < 0 {
      var d := NatToString(-i);
      assert s == "-" + d;
      forall k | 0 <= k < |s| ensures !IsSpace(s[k]) {
        if k > 0 { assert s[k] == d[k - 1]; }
      }
    }
  }

  /** `int(str(i)) == i`. */
  lemma {:induction false} PyIntOfIntToString(i: int)
    ensures PyInt(IntToString(i)) == Some(i)
  {
    var s := IntToString(i);
    IntToStringHasNoSpace(i);
    assert !IsSpace(s[0]) && !IsSpace(s[|s| - 1]);
    StripUnchanged(s);
    SignedDigitsOfIntToString(i);
  }

  lemma {:induction false} SignedDigitsOfDigits(d: string)
    requires |d| >= 1 && AllDigits(d)
    ensures SignedDigits(d) == Some(DigitsValue(d) as int)
  {
    assert IsDigit(d[0]);
    ParseDigitsOfDigits(d);
  }

  lemma {:induction false} SignedDigitsOfMinus(d: string)
    requires ParseDigits(d).Some?
    ensures SignedDigits("-" + d) == Some(-(ParseDigits(d).value as int))
  {
    assert ("-" + d)[1..] == d;
  }

  lemma {:induction false} SignedDigitsOfMinusDigits(d: string)
    requires |d| >= 1 && AllDigits(d)
    ensures SignedDigits("-" + d) == Some(-(DigitsValue(d) as int))
  {
    ParseDigitsOfDigits(d);
    SignedDigitsOfMinus(d);
  }

  lemma DropUnderscoresCons(c: char, t: string)
    ensures DropUnderscores([c] + t) == (if c == '_' then [] else [c]) + DropUnderscores(t)
  {
    assert ([c] + t)[1..] == t;
  }

  lemma DigitGroupsCons(c: char, t: string)
    requires IsDigit(c) && DigitGroups(t)
    ensures DigitGroups([c] + t)
  {
    assert ([c] + t)[1..] == t;
  }

  lemma DigitGroupsUnderscore(c: char, t: string)
    requires IsDigit(c) && DigitGroups(t)
    ensures DigitGroups([c] + ("_" + t))
  {
    var x := [c] + ("_" + t);
    assert x[1] == '_' && x[2..] == t;
  }

  /** A run of digits, an underscore and digit groups form digit groups, and the underscore is dropped. */
  lemma {:induction false} GroupsJoin(a: string, b: string)
    requires |a| >= 1 && AllDigits(a) && DigitGroups(b)
    ensures DigitGroups(a + "_" + b)
    ensures DropUnderscores(a + "_" + b) == a + DropUnderscores(b)
    decreases |a|
  {
    var x := a + "_" + b;
    assert a == [a[0]] + a[1..];
    if |a| == 1 {
      assert x == [a[0]] + ("_" + b);
      DigitGroupsUnderscore(a[0], b);
      DropUnderscoresCons(a[0], "_" + b);
      DropUnderscoresCons('_', b);
      assert "_" + b == ['_'] + b;
    } else {
      GroupsJoin(a[1..], b);
      var y := a[1..] + "_" + b;
      assert x == [a[0]] + y;
      DigitGroupsCons(a[0], y);
      DropUnderscoresCons(a[0], y);
    }
  }

  /** `int()` reads digits grouped by an underscore as the digits without it: `int("1_000") == 1000`. */
  lemma {:induction false} PyIntOfGroups(a: string, b: string)
    requires |a| >= 1 && AllDigits(a) && |b| >= 1 && AllDigits(b)
    ensures PyInt(a + "_" + b) == Some(DigitsValue(a + b) as int)
  {
    var x := a + "_" + b;
    DigitsAreGroups(b);
    DropUnderscoresOfDigits(b);
    GroupsJoin(a, b);
    assert x[0] == a[0] && x[|x| - 1] == b[|b| - 1];
    StripUnchanged(x);
    GroupsValue(x, a + b);
  }

  /** Digit groups that start with a digit and drop to the digits y read as y. */
  lemma {:induction false} GroupsValue(x: string, y: string)
    requires DigitGroups(x) && DropUnderscores(x) == y
    ensures AllDigits(y)
    ensures SignedDigits(x) == Some(DigitsValue(y) as int)
  {
    DigitGroupsDigits(x);
    SignedDigitsUnsigned(x);
  }

  /** Text that starts with a digit has no sign: `int()` reads it as digit groups. */
  lemma {:induction false} SignedDigitsUnsigned(t: string)
    requires |t| >= 1 && IsDigit(t[0]) && ParseDigits(t).Some?
    ensures SignedDigits(t) == Some(ParseDigits(t).value as int)
  {
  }

  /** An underscore at either end, after a sign, or doubled makes `int()` fail. */
  lemma PyIntRejectsStrayUnderscores()
    ensures PyInt("_15").None? && PyInt("15_").None? && PyInt("-_15").None? && PyInt("1__5").None?
  {
    StripUnchanged("_15");
    StripUnchanged("15_");
    assert "15_"[1..] == "5_" && "5_"[1..] == "_" && "5_"[2..] == "";
    StripUnchanged("-_15");
    assert "-_15"[1..] == "_15";
    StripUnchanged("1__5");
    assert "1__5"[1..] == "__5" && "1__5"[2..] == "_5";
  }

  lemma SignedDigitsOfNatToString(n: nat)
    ensures SignedDigits(NatToString(n)) == Some(n)
  {
    SignedDigitsOfDigits(NatToString(n));
    DigitsValueOfNatToString(n);
  }

  lemma SignedDigitsOfMinusNatToString(n: nat)
    ensures SignedDigits("-" + NatToString(n)) == Some(-(n as int))
  {
    SignedDigitsOfMinusDigits(NatToString(n));
    DigitsValueOfNatToString(n);
  }

  lemma {:induction false} SignedDigitsOfIntToString(i: int)
    ensures SignedDigits(IntToString(i)) == Some(i)
  {
    if i < 0 {
      SignedDigitsOfMinusNatToString(-i);
    } else {
      SignedDigitsOfNatToString(i);
    }
  }

  // ------------------------------------------------------- other built-ins

  function LowerChar(c: char): char {
    if 'A' <= c <= 'Z' then (c as int + 32) as char else c
  }

  /**
   * `s.lower()` where the result is only compared with lower-case ASCII text:
   * outside ASCII, Python's lower() maps no character onto an ASCII letter
   * other than 'i' and 'k', so the comparison comes out the same.
   */
  function AsciiLower(s: string): (r: string)
    ensures |r| == |s|
    ensures forall i :: 0 <= i < |s| ==> r[i] == LowerChar(s[i])
  {
    seq(|s|, i requires 0 <= i < |s| => LowerChar(s[i]))
  }

  /** `sep.join(parts)`. */
  function Join(parts: seq<string>, sep: string): string {
    if |parts| == 0 then ""
    else if |parts| == 1 then parts[0]
    else parts[0] + sep + Join(parts[1..], sep)
  }

  /** `s.split(c)[0]`: the text before the first c, or all of s when c does not occur. */
  function BeforeFirst(s: string, c: char): (r: string)
    ensures r <= s && c !in r
    ensures |r| < |s| ==> s[|r|] == c
  {
    if s == [] || s[0] == c then [] else [s[0]] + BeforeFirst(s[1..], c)
  }

  /** `s[lo:hi]` for 0 <= lo <= hi: Python clamps the bounds to the string. */
  function Slice(s: string, lo: nat, hi: nat): (r: string)
    requires lo <= hi
    ensures hi <= |s| ==> r == s[lo..hi]
  {
    if lo >= |s| then [] else if hi >= |s| then s[lo..] else s[lo..hi]
  }

  /** Python's `a <= b` on str: lexicographic order by code point. */
  predicate StrLe(a: string, b: string) {
    if a == [] then true
    else if b == [] then false
    else if a[0] != b[0] then a[0] < b[0]
    else StrLe(a[1..], b[1..])
  }

  /** Python's `a < b` on str. */
  predicate StrLt(a: string, b: string) {
    !StrLe(b, a)
  }

  lemma {:induction false} StrLeTotal(a: string, b: string)
    ensures StrLe(a, b) || StrLe(b, a)
  {
    if a != [] && b != [] && a[0] == b[0] {
      StrLeTotal(a[1..], b[1..]);
    }
  }

  lemma {:induction false} StrLeAntisymmetric(a: string, b: string)
    requires StrLe(a, b) && StrLe(b, a)
    ensures a == b
  {
    if a != [] && b != [] {
      StrLeAntisymmetric(a[1..], b[1..]);
      assert a == [a[0]] + a[1..] && b == [b[0]] + b[1..];
    }
  }

  lemma {:induction false} StrLeTransitive(a: string, b: string, c: string)
    requires StrLe(a, b) && StrLe(b, c)
    ensures StrLe(a, c)
  {
    if a != [] && b != [] && c != [] && a[0] == b[0] && b[0] == c[0] {
      StrLeTransitive(a[1..], b[1..], c[1..]);
    }
  }

  lemma {:induction false} StrLeReflexive(a: string)
    ensures StrLe(a, a)
  {
    if a != [] {
      StrLeReflexive(a[1..]);
    }
  }

  predicate OccursAt(s: string, pat: string, i: nat) {
    i + |pat| <= |s| && s[i..i + |pat|] == pat
  }

  /** `s.replace(pat, '')`: the occurrences of pat found left to right, without overlap, are dropped. */
  function RemoveAll(s: string, pat: string): (r: string)
    requires pat != []
    ensures |r| <= |s|
    decreases |s|
  {
    if |s| < |pat| then s
    else if s[..|pat|] == pat then RemoveAll(s[|pat|..], pat)
    else [s[0]] + RemoveAll(s[1..], pat)
  }

  /** Where pat does not occur, replace leaves the string alone. */
  lemma {:induction false} RemoveAllWithoutOccurrence(s: string, pat: string)
    requires pat != []
    requires forall i: nat :: !OccursAt(s, pat, i)
    ensures RemoveAll(s, pat) == s
    decreases |s|
  {
    if |s| >= |pat| {
      assert !OccursAt(s, pat, 0);
      forall i: nat ensures !OccursAt(s[1..], pat, i) {
        if OccursAt(s[1..], pat, i) {
          assert s[1..][i..i + |pat|] == s[i + 1..i + 1 + |pat|];
          assert OccursAt(s, pat, i + 1);
        }
      }
      RemoveAllWithoutOccurrence(s[1..], pat);
      assert s == [s[0]] + s[1..];
    }
  }

  /** A first character that does not start pat is kept, and the rest is handled on its own. */
  lemma RemoveAllKeepsFirst(c: char, t: string, pat: string)
    requires pat != []
    requires !OccursAt([c] + t, pat, 0)
    ensures RemoveAll([c] + t, pat) == [c] + RemoveAll(t, pat)
  {
    assert ([c] + t)[1..] == t;
  }

  /** A prefix none of whose positions starts pat is kept as it is. */
  lemma {:induction false} RemoveAllKeepsPrefix(pre: string, u: string, pat: string)
    requires pat != []
    requires forall k :: 0 <= k < |pre| ==> !OccursAt(pre[k..] + u, pat, 0)
    ensures RemoveAll(pre + u, pat) == pre + RemoveAll(u, pat)
    decreases |pre|
  {
    if pre != [] {
      var rest := pre[1..];
      assert pre + u == [pre[0]] + (rest + u);
      assert pre[0..] == pre;
      RemoveAllKeepsFirst(pre[0], rest + u, pat);
      forall k | 0 <= k < |rest| ensures !OccursAt(rest[k..] + u, pat, 0) {
        assert rest[k..] == pre[k + 1..];
      }
      RemoveAllKeepsPrefix(rest, u, pat);
      assert [pre[0]] + (rest + RemoveAll(u, pat)) == pre + RemoveAll(u, pat);
    } else {
      assert pre + u == u;
    }
  }

  /** An occurrence of pat at the front is dropped. */
  lemma RemoveAllDropsFront(pat: string, t: string)
    requires pat != []
    ensures RemoveAll(pat + t, pat) == RemoveAll(t, pat)
  {
    assert (pat + t)[..|pat|] == pat;
    assert (pat + t)[|pat|..] == t;
  }

  /** `s.lstrip(c)` for a single character c. */
  function LStripChar(s: string, c: char): (r: string)
    ensures |r| <= |s| && r == s[|s| - |r|..]
    ensures r == [] || r[0] != c
    ensures forall i :: 0 <= i < |s| - |r| ==> s[i] == c
  {
    if s != [] && s[0] == c then LStripChar(s[1..], c) else s
  }
}
