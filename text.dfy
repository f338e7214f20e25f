/**
 * The string primitives the source leans on, with Python's (and where noted
 * JavaScript's) semantics: `split`, `strip`, `lower`, `in`, `join`, `str(int)`
 * and `int(str)`. Strings are sequences of characters.
 */
module Text {
  import opened Wrappers

  /** Python's `str.isspace()`, which is also what `\s` matches in a `re` pattern on `str`. */
  predicate IsSpace(c: char) {
    || c == ' ' || '\t' <= c <= '\r' || '\U{1C}' <= c <= '\U{1F}'
    || c == '\U{85}' || c == '\U{A0}' || c == '\U{1680}' || '\U{2000}' <= c <= '\U{200A}'
    || c == '\U{2028}' || c == '\U{2029}' || c == '\U{202F}' || c == '\U{205F}' || c == '\U{3000}'
  }

  predicate NoSpace(s: string) {
    forall k :: 0 <= k < |s| ==> !IsSpace(s[k])
  }

  predicate IsPrefix(p: string, s: string) {
    |p| <= |s| && s[..|p|] == p
  }

  predicate IsSuffix(p: string, s: string) {
    |p| <= |s| && s[|s| - |p|..] == p
  }

  // ---------------------------------------------------------------- case

  /** `str.lower()` on one character; only ASCII letters are mapped. */
  function LowerChar(c: char): char {
    if 'A' <= c <= 'Z' then (c as int + 32) as char else c
  }

  /** `str.lower()`. */
  function Lower(s: string): (r: string)
    ensures |r| == |s|
    ensures forall k :: 0 <= k < |s| ==> r[k] == LowerChar(s[k])
  {
    seq(|s|, k requires 0 <= k < |s| => LowerChar(s[k]))
  }

  /** A string that `lower()` leaves as it is. */
  predicate IsLower(s: string) {
    forall k :: 0 <= k < |s| ==> !('A' <= s[k] <= 'Z')
  }

  lemma LowerOfLower(s: string)
    requires IsLower(s)
    ensures Lower(s) == s
  {
  }

  lemma LowerAppend(a: string, b: string)
    ensures Lower(a + b) == Lower(a) + Lower(b)
  {
  }

  // ---------------------------------------------------------------- search

  /** Index of the first occurrence of character `c`, as `str.index`. */
  function IndexOf(s: string, c: char): (r: Option<nat>)
    ensures r.None? <==> c !in s
    ensures r.Some? ==> r.value < |s| && s[r.value] == c && c !in s[..r.value]
  {
    if |s| == 0 then None
    else if s[0] == c then Some(0)
    else match IndexOf(s[1..], c)
      case None => None
      case Some(i) =>
        assert s[..i + 1] == [s[0]] + s[1..][..i];
        Some(i + 1)
  }

  /** `t` occurs in `s` at index `k`. */
  predicate OccursAt(s: string, t: string, k: nat) {
    k + |t| <= |s| && s[k..k + |t|] == t
  }

  /** `str.find(t, from)`: the first index at or after `from` where `t` occurs. */
  function FindFrom(s: string, t: string, from: nat): (r: Option<nat>)
    requires from <= |s|
    ensures r.Some? ==> from <= r.value && OccursAt(s, t, r.value)
    ensures r.Some? ==> forall k :: from <= k < r.value ==> !OccursAt(s, t, k)
    ensures r.None? ==> forall k :: from <= k <= |s| ==> !OccursAt(s, t, k)
    decreases |s| - from
  {
    if OccursAt(s, t, from) then Some(from)
    else if from == |s| then None
    else FindFrom(s, t, from + 1)
  }

  /** Python's `t in s` for strings. */
  predicate Contains(s: string, t: string) {
    FindFrom(s, t, 0).Some?
  }

  lemma ContainsAt(s: string, t: string, k: nat)
    requires OccursAt(s, t, k)
    ensures Contains(s, t)
  {
  }

  lemma NotContains(s: string, t: string, k: nat)
    requires !Contains(s, t) && k <= |s|
    ensures !OccursAt(s, t, k)
  {
  }

  /** What a string contains, any longer string ending with it contains too. */
  lemma ContainsAppend(a: string, b: string, t: string)
    requires Contains(b, t)
    ensures Contains(a + b, t)
  {
    var k := FindFrom(b, t, 0).value;
    assert (a + b)[|a| + k..|a| + k + |t|] == b[k..k + |t|];
    ContainsAt(a + b, t, |a| + k);
  }

  // ---------------------------------------------------------------- split

  /** `s.split(c, 1)`: at most one cut, at the first `c`. */
  function SplitOnce(s: string, c: char): (r: seq<string>)
    ensures c !in s ==> r == [s]
    ensures c in s ==> |r| == 2 && s == r[0] + [c] + r[1] && c !in r[0]
  {
    match IndexOf(s, c)
    case None => [s]
    case Some(i) =>
      assert s == s[..i] + [c] + s[i + 1..];
      [s[..i], s[i + 1..]]
  }

  /** The first piece of a lowered text is lower-case and holds no `c`. */
  lemma SplitOnceLower(s: string, c: char)
    ensures c !in SplitOnce(Lower(s), c)[0] && IsLower(SplitOnce(Lower(s), c)[0])
  {
    var low := Lower(s);
    var r := SplitOnce(low, c);
    assert IsLower(low);
    if c in low {
      assert forall k :: 0 <= k < |r[0]| ==> r[0][k] == low[k];
    }
  }

  /** `s.split(c)` with a one-character separator (Python and JavaScript agree): every cut. */
  function Split(s: string, c: char): (r: seq<string>)
    ensures |r| >= 1
    ensures forall k :: 0 <= k < |r| ==> c !in r[k]
    decreases |s|
  {
    match IndexOf(s, c)
    case None => [s]
    case Some(i) => [s[..i]] + Split(s[i + 1..], c)
  }

  /** The first `c` of `a + [c] + b` is the one after `a` when `a` holds none. */
  lemma {:induction false} IndexOfAt(a: string, c: char, b: string)
    requires c !in a
    ensures IndexOf(a + [c] + b, c) == Some(|a|)
  {
    var s := a + [c] + b;
    if a != [] {
      assert s[0] == a[0];
      assert s[1..] == a[1..] + [c] + b;
      IndexOfAt(a[1..], c, b);
    }
  }

  /** `split(c, 1)` cuts at the first `c`. */
  lemma SplitOnceAt(a: string, c: char, b: string)
    requires c !in a
    ensures SplitOnce(a + [c] + b, c) == [a, b]
  {
    IndexOfAt(a, c, b);
    var s := a + [c] + b;
    assert s[..|a|] == a && s[|a| + 1..] == b;
  }

  /** A string with one `c` splits into the two sides of it. */
  lemma SplitPair(a: string, c: char, b: string)
    requires c !in a && c !in b
    ensures Split(a + [c] + b, c) == [a, b]
  {
    IndexOfAt(a, c, b);
    var s := a + [c] + b;
    assert s[..|a|] == a && s[|a| + 1..] == b;
    assert Split(b, c) == [b];
  }

  /** `sep.join(ss)`. */
  function JoinSep(ss: seq<string>, sep: string): string
  {
    if |ss| == 0 then ""
    else if |ss| == 1 then ss[0]
    else ss[0] + sep + JoinSep(ss[1..], sep)
  }

  /** Splitting and joining back with the separator gives the string again. */
  lemma {:induction false} JoinSplit(s: string, c: char)
    ensures JoinSep(Split(s, c), [c]) == s
    decreases |s|
  {
    match IndexOf(s, c)
    case None =>
    case Some(i) =>
      JoinSplit(s[i + 1..], c);
      var rest := Split(s[i + 1..], c);
      assert Split(s, c) == [s[..i]] + rest;
      assert ([s[..i]] + rest)[1..] == rest;
      assert JoinSep(Split(s, c), [c]) == s[..i] + [c] + JoinSep(rest, [c]);
      assert s == s[..i] + [c] + s[i + 1..];
  }

  /** Joining pieces without the separator and splitting again gives the pieces back. */
  lemma {:induction false} SplitJoin(ss: seq<string>, c: char)
    requires |ss| >= 1 && forall k :: 0 <= k < |ss| ==> c !in ss[k]
    ensures Split(JoinSep(ss, [c]), c) == ss
    decreases |ss|
  {
    if |ss| == 1 {
      assert IndexOf(ss[0], c).None?;
    } else {
      SplitJoin(ss[1..], c);
      SplitCons(ss[0], c, JoinSep(ss[1..], [c]));
      assert ss == [ss[0]] + ss[1..];
    }
  }

  /** A piece without `c` followed by `c` is the first piece of the split. */
  lemma SplitCons(a: string, c: char, b: string)
    requires c !in a
    ensures Split(a + [c] + b, c) == [a] + Split(b, c)
  {
    var s := a + [c] + b;
    IndexOfAt(a, c, b);
    assert s[..|a|] == a && s[|a| + 1..] == b;
  }

  /** A string splits into at least two pieces exactly when it holds the separator. */
  lemma SplitHasTwoPieces(s: string, c: char)
    ensures |Split(s, c)| >= 2 <==> c in s
  {
    match IndexOf(s, c)
    case None =>
      assert Split(s, c) == [s];
    case Some(i) =>
      var rest := Split(s[i + 1..], c);
      assert Split(s, c) == [s[..i]] + rest;
      assert |[s[..i]] + rest| == 1 + |rest|;
  }

  /** Every piece of `JoinSep(ss, sep)` shows up in it. */
  lemma {:induction false} JoinSepContains(ss: seq<string>, sep: string, k: nat)
    requires k < |ss|
    ensures Contains(JoinSep(ss, sep), ss[k])
    decreases |ss|
  {
    if |ss| == 1 {
      assert OccursAt(JoinSep(ss, sep), ss[k], 0);
      ContainsAt(JoinSep(ss, sep), ss[k], 0);
    } else if k == 0 {
      assert OccursAt(JoinSep(ss, sep), ss[0], 0);
      ContainsAt(JoinSep(ss, sep), ss[0], 0);
    } else {
      JoinSepContains(ss[1..], sep, k - 1);
      var rest := JoinSep(ss[1..], sep);
      var i := FindFrom(rest, ss[k], 0).value;
      var whole := JoinSep(ss, sep);
      var off := |ss[0] + sep|;
      assert whole == ss[0] + sep + rest;
      assert whole[off + i..off + i + |ss[k]|] == rest[i..i + |ss[k]|];
      ContainsAt(whole, ss[k], off + i);
    }
  }

  // ---------------------------------------------------------------- whitespace

  /** `s.lstrip()`: what is left after the leading whitespace. */
  function StripLeft(s: string): (r: string)
    ensures IsSuffix(r, s)
    ensures r != [] ==> !IsSpace(r[0])
  {
    if |s| > 0 && IsSpace(s[0]) then
      var r := StripLeft(s[1..]);
      assert s[1..][|s| - 1 - |r|..] == s[|s| - |r|..];
      r
    else s
  }

  /** `s.rstrip()`: what is left before the trailing whitespace. */
  function StripRight(s: string): (r: string)
    ensures IsPrefix(r, s)
    ensures r != [] ==> !IsSpace(r[|r| - 1])
  {
    if |s| > 0 && IsSpace(s[|s| - 1]) then
      var r := StripRight(s[..|s| - 1]);
      assert s[..|s| - 1][..|r|] == s[..|r|];
      r
    else s
  }

  /** `s.strip()`. */
  function Strip(s: string): (r: string)
    ensures r != [] ==> !IsSpace(r[0]) && !IsSpace(r[|r| - 1])
  {
    StripRight(StripLeft(s))
  }

  /** A string that does not begin or end with whitespace is its own `strip()`. */
  lemma StripTrimmed(s: string)
    requires s != [] ==> !IsSpace(s[0]) && !IsSpace(s[|s| - 1])
    ensures Strip(s) == s
  {
  }

  lemma NoSpaceAppend(a: string, b: string)
    requires NoSpace(a) && NoSpace(b)
    ensures NoSpace(a + b)
  {
  }

  /** The longest prefix of `s` without whitespace. */
  function Word(s: string): (r: string)
    ensures IsPrefix(r, s) && NoSpace(r)
    ensures |r| < |s| ==> IsSpace(s[|r|])
  {
    if |s| > 0 && !IsSpace(s[0]) then [s[0]] + Word(s[1..]) else []
  }

  /** `s.split()`: the maximal runs of non-whitespace, in order. */
  function SplitWs(s: string): (r: seq<string>)
    ensures forall k :: 0 <= k < |r| ==> r[k] != [] && NoSpace(r[k])
    decreases |s|
  {
    var t := StripLeft(s);
    if t == [] then []
    else
      var w := Word(t);
      assert w == [t[0]] + Word(t[1..]);
      var rest := SplitWs(t[|w|..]);
      ConsWords(w, rest);
      [w] + rest
  }

  /** A word in front of words gives words. */
  lemma ConsWords(w: string, ws: seq<string>)
    requires w != [] && NoSpace(w)
    requires forall k :: 0 <= k < |ws| ==> ws[k] != [] && NoSpace(ws[k])
    ensures forall k :: 0 <= k < |[w] + ws| ==> ([w] + ws)[k] != [] && NoSpace(([w] + ws)[k])
  {
    var r := [w] + ws;
    forall k | 0 <= k < |r|
      ensures r[k] != [] && NoSpace(r[k])
    {
      if k > 0 {
        assert r[k] == ws[k - 1];
      }
    }
  }

  /** `s.split()` of a string with no whitespace and at least one character is that string alone. */
  lemma SplitWsOneWord(s: string)
    requires s != [] && NoSpace(s)
    ensures SplitWs(s) == [s]
  {
    WordOfNoSpace(s);
    assert s[|s|..] == [];
  }

  lemma {:induction false} WordOfNoSpace(s: string)
    requires NoSpace(s)
    ensures Word(s) == s
  {
    if |s| > 0 {
      WordOfNoSpace(s[1..]);
    }
  }

  /** `s.split()` of two words with one space between them. */
  lemma SplitWsTwoWords(a: string, b: string)
    requires a != [] && NoSpace(a) && b != [] && NoSpace(b)
    ensures SplitWs(a + " " + b) == [a, b]
  {
    var s := a + " " + b;
    WordBeforeSpace(a, b);
    assert s[0] == a[0];
    SplitWsStep(s);
    assert s[|a|..] == " " + b;
    SplitWsAfterSpace(b);
  }

  lemma WordBeforeSpace(a: string, b: string)
    requires NoSpace(a)
    ensures Word(a + " " + b) == a
  {
    assert a + " " + b == a + (" " + b);
    WordPrefixStops(a, " " + b);
  }

  lemma SplitWsStep(s: string)
    requires s != [] && !IsSpace(s[0])
    ensures SplitWs(s) == [Word(s)] + SplitWs(s[|Word(s)|..])
  {
    assert StripLeft(s) == s;
  }

  lemma SplitWsAfterSpace(b: string)
    requires b != [] && NoSpace(b)
    ensures SplitWs(" " + b) == [b]
  {
    assert (" " + b)[1..] == b;
    assert StripLeft(" " + b) == StripLeft(b) == b;
    WordOfNoSpace(b);
    assert b[|b|..] == [];
  }

  lemma {:induction false} WordPrefixStops(a: string, rest: string)
    requires NoSpace(a) && (rest == [] || IsSpace(rest[0]))
    ensures Word(a + rest) == a
  {
    if |a| > 0 {
      assert (a + rest)[1..] == a[1..] + rest;
      WordPrefixStops(a[1..], rest);
    }
  }

  /** Leading whitespace does not change `split()`. */
  lemma SplitWsSpace(rest: string)
    ensures SplitWs(" " + rest) == SplitWs(rest)
  {
    assert (" " + rest)[1..] == rest;
    assert StripLeft(" " + rest) == StripLeft(rest);
  }

  /** `split()` of a word, a space and more text. */
  lemma SplitWsCons(a: string, rest: string)
    requires a != [] && NoSpace(a)
    ensures SplitWs(a + " " + rest) == [a] + SplitWs(rest)
  {
    var s := a + " " + rest;
    WordBeforeSpace(a, rest);
    assert s[0] == a[0];
    SplitWsStep(s);
    assert s[|a|..] == " " + rest;
    SplitWsSpace(rest);
  }

  /** `split()` undoes `' '.join` of words. */
  lemma {:induction false} SplitWsJoin(ws: seq<string>)
    requires forall k :: 0 <= k < |ws| ==> ws[k] != [] && NoSpace(ws[k])
    ensures SplitWs(JoinSep(ws, " ")) == ws
    decreases |ws|
  {
    if |ws| == 1 {
      SplitWsOneWord(ws[0]);
    } else if |ws| > 1 {
      SplitWsJoin(ws[1..]);
      SplitWsCons(ws[0], JoinSep(ws[1..], " "));
      assert ws == [ws[0]] + ws[1..];
    }
  }

  /** The first index of `w` in `ws`, as `list.index`. */
  function IndexOfWord(ws: seq<string>, w: string): (r: Option<nat>)
    ensures r.None? <==> w !in ws
    ensures r.Some? ==> r.value < |ws| && ws[r.value] == w && w !in ws[..r.value]
  {
    if |ws| == 0 then None
    else if ws[0] == w then Some(0)
    else match IndexOfWord(ws[1..], w)
      case None => None
      case Some(i) =>
        assert ws[..i + 1] == [ws[0]] + ws[1..][..i];
        Some(i + 1)
  }

  // ---------------------------------------------------------------- numbers

  predicate IsDigit(c: char) {
    '0' <= c <= '9'
  }

  predicate AllDigits(s: string) {
    forall k :: 0 <= k < |s| ==> IsDigit(s[k])
  }

  function DigitChar(d: nat): (c: char)
    requires d < 10
    ensures IsDigit(c) && c as int - '0' as int == d
  {
    ('0' as int + d) as char
  }

  /** `str(n)` for a non-negative integer. */
  function NatToString(n: nat): (r: string)
    ensures |r| >= 1 && AllDigits(r)
    decreases n
  {
    if n < 10 then [DigitChar(n)] else NatToString(n / 10) + [DigitChar(n % 10)]
  }

  /** The value of a string of decimal digits. */
  function DigitsValue(s: string): nat
    requires AllDigits(s)
  {
    if s == [] then 0 else DigitsValue(s[..|s| - 1]) * 10 + (s[|s| - 1] as int - '0' as int)
  }

  /** Reading back the decimal form of a number gives the number. */
  lemma {:induction false} DigitsValueOfNatToString(n: nat)
    ensures DigitsValue(NatToString(n)) == n
    decreases n
  {
    if n >= 10 {
      DigitsValueOfNatToString(n / 10);
      var s := NatToString(n);
      assert s[..|s| - 1] == NatToString(n / 10);
    }
  }

  /** `int(s)` in base 10: surrounding whitespace, an optional sign and at least one ASCII digit. */
  function ParseInt(s: string): (r: Option<int>)
    ensures r.Some? ==> Strip(s) != []
  {
    var t := Strip(s);
    if |t| > 1 && (t[0] == '-' || t[0] == '+') && AllDigits(t[1..]) then
      Some(if t[0] == '-' then -(DigitsValue(t[1..]) as int) else DigitsValue(t[1..]))
    else if |t| > 0 && AllDigits(t) then Some(DigitsValue(t))
    else None
  }

  /** `int(str(n)) == n`. */
  lemma ParseIntOfNatToString(n: nat)
    ensures ParseInt(NatToString(n)) == Some(n)
  {
    var s := NatToString(n);
    StripTrimmed(s);
    DigitsValueOfNatToString(n);
  }

  /** `str(n)[:-3]` is `str(n // 1000)` once `n` has at least four digits. */
  lemma {:induction false} DropThreeDigits(n: nat)
    requires n >= 1000
    ensures |NatToString(n)| > 3
    ensures NatToString(n)[..|NatToString(n)| - 3] == NatToString(n / 1000)
  {
    var a := NatToString(n / 1000);
    assert n / 10 / 10 / 10 == n / 1000;
    assert NatToString(n / 100) == NatToString(n / 10 / 10);
    assert NatToString(n / 10) == NatToString(n / 100) + [DigitChar(n / 10 % 10)];
    assert NatToString(n / 100) == a + [DigitChar(n / 100 % 10)];
  }

  /** A number below 1000 has at most three digits. */
  lemma ShortNumber(n: nat)
    requires n < 1000
    ensures |NatToString(n)| <= 3
  {
    if n >= 10 {
      assert NatToString(n) == NatToString(n / 10) + [DigitChar(n % 10)];
      if n >= 100 {
        assert NatToString(n / 10) == NatToString(n / 10 / 10) + [DigitChar(n / 10 % 10)];
      }
    }
  }
}
