/**
 * The few built-in operations of Python's `str` and `list` that the lecture
 * backend relies on, written out over `seq<char>`: prefix tests, whitespace
 * stripping and splitting, `str.split(sep)`, `str(int)`, `f"{n:02d}"`,
 * ASCII `lower()`, single-character `replace` and negative list indexing.
 */
module PyStr {
  import opened Wrappers

  predicate StartsWith(s: string, p: string) {
    |p| <= |s| && s[..|p|] == p
  }

  predicate EndsWith(s: string, p: string) {
    |p| <= |s| && s[|s| - |p|..] == p
  }

  /**
   * The characters for which Python's `str.isspace()` holds; `strip()` and
   * `split()` use the same set: tab to carriage return, the four separators
   * U+001C to U+001F, space, U+0085, U+00A0, U+1680, U+2000 to U+200A,
   * U+2028, U+2029, U+202F, U+205F and U+3000.
   */
  predicate IsSpace(c: char) {
    var n := c as int;
    (9 <= n <= 13) || (28 <= n <= 32) || n == 0x85 || n == 0xA0 || n == 0x1680 ||
    (0x2000 <= n <= 0x200A) || n == 0x2028 || n == 0x2029 || n == 0x202F || n == 0x205F || n == 0x3000
  }

  /** `s.lstrip()`: the longest suffix of `s` that does not start with whitespace. */
  function LStrip(s: string): (r: string)
    ensures |r| <= |s| && r == s[|s| - |r|..]
    ensures forall i :: 0 <= i < |s| - |r| ==> IsSpace(s[i])
    ensures r == [] || !IsSpace(r[0])
  {
    if |s| > 0 && IsSpace(s[0]) then
      var t := LStrip(s[1..]);
      assert s[1..][|s| - 1 - |t|..] == s[|s| - |t|..];
      assert forall i :: 1 <= i < |s| - |t| ==> s[i] == s[1..][i - 1];
      t
    else s
  }

  /** `s.rstrip()`: the longest prefix of `s` that does not end with whitespace. */
  function RStrip(s: string): (r: string)
    ensures |r| <= |s| && r == s[..|r|]
    ensures forall i :: |r| <= i < |s| ==> IsSpace(s[i])
    ensures r == [] || !IsSpace(r[|r| - 1])
  {
    if |s| > 0 && IsSpace(s[|s| - 1]) then RStrip(s[..|s| - 1]) else s
  }

  predicate IsStripped(s: string) {
    s == [] || (!IsSpace(s[0]) && !IsSpace(s[|s| - 1]))
  }

  /** `s.strip()`. */
  function Strip(s: string): (r: string)
    ensures IsStripped(r)
  {
    RStrip(LStrip(s))
  }

  /** Stripping a string that has no surrounding whitespace leaves it as it is. */
  lemma StripStripped(s: string)
    requires IsStripped(s)
    ensures Strip(s) == s
  {
    assert LStrip(s) == s;
    assert RStrip(s) == s;
  }

  /** Trailing whitespace does not survive `strip()`. */
  lemma {:induction false} StripTrailingSpace(s: string, c: char)
    requires IsSpace(c)
    ensures Strip(s + [c]) == Strip(s)
  {
    LStripAppend(s, [c]);
    if LStrip(s) == [] {
      LStripSpaceCons(c, []);
      assert [c] + [] == [c];
    } else {
      RStripAppendSpace(LStrip(s), c);
    }
  }

  /** `rstrip()` drops a trailing whitespace character. */
  lemma RStripAppendSpace(l: string, c: char)
    requires IsSpace(c)
    ensures RStrip(l + [c]) == RStrip(l)
  {
    var t := l + [c];
    assert t[|t| - 1] == c;
    assert t[..|t| - 1] == l;
  }

  /** The index of the first occurrence of `c` in `s` (`s.find(c)` when it is not -1). */
  function IndexOf(s: string, c: char): (r: Option<nat>)
    ensures r.Some? ==> r.value < |s| && s[r.value] == c && c !in s[..r.value]
    ensures r.None? ==> c !in s
  {
    if |s| == 0 then None
    else if s[0] == c then Some(0)
    else match IndexOf(s[1..], c)
      case Some(k) =>
        assert s[..k + 1] == [s[0]] + s[1..][..k];
        Some(k + 1)
      case None => None
  }

  /** A position holding `c` with no earlier `c` is the one `IndexOf` finds. */
  lemma IndexOfIs(s: string, c: char, k: nat)
    requires k < |s| && s[k] == c && c !in s[..k]
    ensures IndexOf(s, c) == Some(k)
  {
    assert s[k] in s;
    assert forall v :: 0 <= v < k ==> s[..k][v] == s[v];
    assert forall v :: k < v <= |s| ==> s[..v][k] == c;
  }

  predicate OccursAt(s: string, sep: string, j: int) {
    0 <= j && j + |sep| <= |s| && s[j..j + |sep|] == sep
  }

  /** The index of the first occurrence of `sep` in `s`. */
  function Find(s: string, sep: string): (r: Option<nat>)
    requires |sep| > 0
    ensures r.Some? ==> OccursAt(s, sep, r.value) && forall j :: 0 <= j < r.value ==> !OccursAt(s, sep, j)
    ensures r.None? ==> forall j :: 0 <= j ==> !OccursAt(s, sep, j)
  {
    if |s| < |sep| then None
    else if s[..|sep|] == sep then Some(0)
    else match Find(s[1..], sep)
      case Some(k) =>
        assert forall j :: 1 <= j ==> OccursAt(s, sep, j) == OccursAt(s[1..], sep, j - 1);
        Some(k + 1)
      case None =>
        assert forall j :: 1 <= j ==> OccursAt(s, sep, j) == OccursAt(s[1..], sep, j - 1);
        None
  }

  /** The last `n` characters of `s[i..]` are those of `s`, and the rest of `s[i..]` is `s[i..|s| - n]`. */
  lemma SliceEnds(s: string, i: nat, n: nat)
    requires i + n <= |s|
    ensures s[i..][|s| - i - n..] == s[|s| - n..]
    ensures s[i..][..|s| - i - n] == s[i..|s| - n]
  {
  }

  /** An occurrence with none before it is the one `Find` finds. */
  lemma FindFirst(s: string, sep: string, p: nat)
    requires |sep| > 0 && OccursAt(s, sep, p)
    requires forall j :: 0 <= j < p ==> !OccursAt(s, sep, j)
    ensures Find(s, sep) == Some(p)
  {
  }

  /** `s.split(sep)`: the pieces between the non-overlapping occurrences of `sep`, left to right. */
  function Split(s: string, sep: string): (r: seq<string>)
    requires |sep| > 0
    ensures |r| >= 1
    decreases |s|
  {
    match Find(s, sep)
    case Some(p) => [s[..p]] + Split(s[p + |sep|..], sep)
    case None => [s]
  }

  /** `split` yields a second piece exactly when the separator occurs. */
  lemma SplitPieces(s: string, sep: string)
    requires |sep| > 0
    ensures |Split(s, sep)| >= 2 <==> Find(s, sep).Some?
    ensures Find(s, sep).None? ==> Split(s, sep) == [s]
    ensures Find(s, sep).Some? ==>
      Split(s, sep)[0] == s[..Find(s, sep).value] &&
      Split(s, sep)[1] == Split(s[Find(s, sep).value + |sep|..], sep)[0]
  {
    match Find(s, sep)
    case None =>
    case Some(p) =>
      var tail := Split(s[p + |sep|..], sep);
      assert Split(s, sep) == [s[..p]] + tail;
      assert ([s[..p]] + tail)[1] == tail[0];
  }

  /** The first piece of a split is the prefix before the first occurrence of the separator, or all of `s`. */
  lemma SplitHead(s: string, sep: string)
    requires |sep| > 0
    ensures var h := Split(s, sep)[0];
      |h| <= |s| && h == s[..|h|] && (|h| == |s| || OccursAt(s, sep, |h|)) &&
      forall j :: 0 <= j < |h| ==> !OccursAt(s, sep, j)
  {
    match Find(s, sep)
    case None =>
      assert Split(s, sep) == [s];
    case Some(k) =>
      assert Split(s, sep)[0] == s[..k];
  }

  /** The index where the first whitespace-free run of `t` ends. */
  function WordEnd(t: string): (k: nat)
    ensures k <= |t|
    ensures k < |t| ==> IsSpace(t[k])
    ensures forall i :: 0 <= i < k ==> !IsSpace(t[i])
  {
    if |t| == 0 || IsSpace(t[0]) then 0 else 1 + WordEnd(t[1..])
  }

  /** `s.split()`: the maximal runs of non-whitespace characters, left to right. */
  function Words(s: string): seq<string>
    decreases |s|
  {
    var t := LStrip(s);
    if t == [] then []
    else
      var k := WordEnd(t);
      assert 1 <= k;
      [t[..k]] + Words(t[k..])
  }

  /** A word: a non-empty run without whitespace. */
  predicate IsWord(w: string) {
    |w| > 0 && forall i :: 0 <= i < |w| ==> !IsSpace(w[i])
  }

  /** `lstrip()` of a concatenation: the left part, if anything of it survives, else the stripped right part. */
  lemma {:induction false} LStripAppend(p: string, x: string)
    ensures LStrip(p) == [] ==> LStrip(p + x) == LStrip(x)
    ensures LStrip(p) != [] ==> LStrip(p + x) == LStrip(p) + x
    decreases |p|
  {
    if |p| > 0 {
      assert (p + x)[0] == p[0];
      if IsSpace(p[0]) {
        assert (p + x)[1..] == p[1..] + x;
        LStripAppend(p[1..], x);
      }
    } else {
      assert p + x == x;
    }
  }

  /** Appending to `t` does not move the end of its first word when that word ends inside `t` or before whitespace. */
  lemma {:induction false} WordEndAppend(t: string, x: string)
    requires WordEnd(t) < |t| || (x != [] && IsSpace(x[0]))
    ensures WordEnd(t + x) == WordEnd(t)
    decreases |t|
  {
    if |t| == 0 {
      assert t + x == x;
    } else if IsSpace(t[0]) {
      assert (t + x)[0] == t[0];
    } else {
      assert (t + x)[0] == t[0];
      assert (t + x)[1..] == t[1..] + x;
      WordEndAppend(t[1..], x);
    }
  }

  /** One step of `split()`: the first word of the stripped text, then the words of what follows it. */
  lemma WordsStep(s: string)
    requires LStrip(s) != []
    ensures var t := LStrip(s); Words(s) == [t[..WordEnd(t)]] + Words(t[WordEnd(t)..])
  {
  }

  /** A single word splits into itself. */
  lemma WordsOfWord(w: string)
    requires IsWord(w)
    ensures Words(w) == [w]
  {
    assert LStrip(w) == w;
    assert WordEnd(w) == |w|;
    WordsStep(w);
    assert w[..|w|] == w;
    assert w[|w|..] == [];
  }

  lemma ConcatAssoc<T>(a: seq<T>, b: seq<T>, c: seq<T>)
    ensures a + (b + c) == (a + b) + c
  {
  }

  lemma StartsWithAppend(a: string, b: string)
    ensures StartsWith(a + b, a)
  {
    assert (a + b)[..|a|] == a;
  }

  lemma EndsWithAppend(a: string, b: string)
    ensures EndsWith(a + b, b)
  {
    assert (a + b)[|a + b| - |b|..] == b;
  }

  /** Cutting `t + x` inside `t`. */
  lemma SliceAppend(t: string, x: string, k: nat)
    requires k <= |t|
    ensures (t + x)[..k] == t[..k] && (t + x)[k..] == t[k..] + x
  {
  }

  /** Leading whitespace goes first under `lstrip()`. */
  lemma LStripSpaceCons(c: char, w: string)
    requires IsSpace(c)
    ensures LStrip([c] + w) == LStrip(w)
  {
    assert ([c] + w)[1..] == w;
  }

  /** A word after whitespace is the last piece of `split()`. */
  lemma {:induction false} WordsSnoc(p: string, c: char, w: string)
    requires IsSpace(c) && IsWord(w)
    ensures Words(p + ([c] + w)) == Words(p) + [w]
    decreases |p|
  {
    var x := [c] + w;
    LStripAppend(p, x);
    if LStrip(p) == [] {
      LStripSpaceCons(c, w);
      assert LStrip(w) == w;
      WordsOfWord(w);
      WordsStep(w);
      WordsStep(p + x);
      assert Words(p + x) == Words(w);
      assert Words(p) == [];
    } else {
      var t := LStrip(p);
      var k := WordEnd(t);
      WordEndAppend(t, x);
      WordsStep(p + x);
      WordsStep(p);
      SliceAppend(t, x, k);
      WordsSnoc(t[k..], c, w);
      var rest := Words(t[k..]);
      assert Words(p + x) == [t[..k]] + (rest + [w]);
      assert Words(p) == [t[..k]] + rest;
      ConcatAssoc([t[..k]], rest, [w]);
    }
  }

  /** Text made only of whitespace has no words. */
  lemma WordsOfBlank(s: string)
    requires forall i :: 0 <= i < |s| ==> IsSpace(s[i])
    ensures Words(s) == []
  {
    LStripBlank(s);
  }

  /** Stripping text made only of whitespace leaves nothing. */
  lemma {:induction false} LStripBlank(s: string)
    requires forall i :: 0 <= i < |s| ==> IsSpace(s[i])
    ensures LStrip(s) == []
    decreases |s|
  {
    if s != [] {
      assert forall i :: 0 <= i < |s[1..]| ==> s[1..][i] == s[i + 1];
      LStripBlank(s[1..]);
    }
  }

  function LowerChar(c: char): char {
    if 'A' <= c <= 'Z' then (c as int + 32) as char else c
  }

  /** `s.lower()`, for the ASCII letters: each character lowered in place. */
  function Lower(s: string): (r: string)
    ensures |r| == |s|
    ensures forall i :: 0 <= i < |s| ==> r[i] == LowerChar(s[i])
  {
    if s == [] then [] else [LowerChar(s[0])] + Lower(s[1..])
  }

  /** `s.replace(a, b)` for single characters: each `a` becomes `b`, every other character stays. */
  function ReplaceChar(s: string, a: char, b: char): (r: string)
    ensures |r| == |s|
    ensures forall i :: 0 <= i < |s| ==> r[i] == (if s[i] == a then b else s[i])
    ensures a != b ==> a !in r
  {
    if s == [] then [] else [if s[0] == a then b else s[0]] + ReplaceChar(s[1..], a, b)
  }

  function DigitChar(d: nat): char
    requires d < 10
  {
    ('0' as int + d) as char
  }

  predicate IsDigit(c: char) {
    '0' <= c <= '9'
  }

  /** Every character of `s` is a decimal digit. */
  predicate IsDigits(s: string) {
    forall i :: 0 <= i < |s| ==> IsDigit(s[i])
  }

  /** The number a string of decimal digits denotes, read left to right. */
  function DigitsValue(s: string): nat
    requires IsDigits(s)
  {
    if s == [] then 0 else 10 * DigitsValue(s[..|s| - 1]) + (s[|s| - 1] as int - '0' as int)
  }

  /** `str(n)` for a natural number. */
  function NatToString(n: nat): (r: string)
    ensures |r| >= 1
    decreases n
  {
    if n < 10 then [DigitChar(n)] else NatToString(n / 10) + [DigitChar(n % 10)]
  }

  /** `str(n)` is the decimal numeral of `n`: digits only, denoting `n`, with no leading zero except for 0 itself. */
  lemma {:induction false} NatToStringValue(n: nat)
    ensures var r := NatToString(n);
      IsDigits(r) && DigitsValue(r) == n && (r[0] == '0' <==> n == 0) && (n == 0 ==> r == "0")
    decreases n
  {
    var r := NatToString(n);
    if n >= 10 {
      var h := NatToString(n / 10);
      NatToStringValue(n / 10);
      assert r == h + [DigitChar(n % 10)];
      assert r[..|r| - 1] == h;
      assert r[0] == h[0];
    }
  }

  /** `str(i)`. */
  function IntToString(i: int): (r: string)
    ensures |r| >= 1
  {
    if i < 0 then "-" + NatToString(-i) else NatToString(i)
  }

  /** `str(i)` is a minus sign iff `i` is negative, followed by the numeral of `|i|`. */
  lemma IntToStringValue(i: int)
    ensures var r := IntToString(i); var digits := if i < 0 then r[1..] else r;
      (r[0] == '-' <==> i < 0) && |digits| >= 1 && IsDigits(digits) &&
      DigitsValue(digits) == (if i < 0 then -i else i) && (digits[0] == '0' <==> i == 0)
  {
    if i < 0 {
      NatToStringValue(-i);
      assert IntToString(i)[1..] == NatToString(-i);
    } else {
      NatToStringValue(i);
    }
  }

  /** `f"{i:02d}"`: at least two characters, zero-padded after the sign. */
  function Pad2(i: int): (r: string)
    ensures |r| >= 2
  {
    if 0 <= i < 10 then "0" + NatToString(i)
    else
      assert i < 0 || NatToString(i) == NatToString(i / 10) + [DigitChar(i % 10)];
      IntToString(i)
  }

  /**
   * `f"{i:02d}"` of a non-negative `i` is its numeral padded with zeros to two
   * digits; a leading zero appears only below 10. A negative `i` is `str(i)`,
   * whose sign already fills the width.
   */
  lemma Pad2Value(i: int)
    ensures i >= 0 ==> IsDigits(Pad2(i)) && DigitsValue(Pad2(i)) == i
    ensures i >= 0 ==> (i < 10 <==> Pad2(i)[0] == '0') && (i < 10 ==> |Pad2(i)| == 2)
    ensures i < 0 ==> Pad2(i) == IntToString(i)
  {
    if 0 <= i < 10 {
      var r := Pad2(i);
      assert r == ['0', DigitChar(i)];
      assert r[..1] == "0" && "0"[..0] == [];
      assert DigitsValue("0") == 0;
    } else if i >= 10 {
      NatToStringValue(i);
    }
  }

  /**
   * The position that Python's `xs[i]` reads in a list of length `n`: counted
   * from the end when `i` is negative; None where Python raises IndexError.
   */
  function PyIndex(n: nat, i: int): (r: Option<nat>)
    ensures r.Some? <==> -(n as int) <= i < n
    ensures r.Some? ==> r.value < n && r.value == (if i >= 0 then i else n + i)
  {
    if 0 <= i < n then Some(i) else if -(n as int) <= i < 0 then Some(n + i) else None
  }
}
