/** The Python 2 string operations the calibration scripts rely on:
    `str.split()`, `str.split(sep)`, `sep.join(parts)`, `str.replace`,
    `str.startswith`, `in` on strings, `int(token)` and `str(n)`. */
module Strings {

  datatype Option<+T> = None | Some(value: T)

  /** The ASCII characters Python's `str.split()` treats as whitespace. */
  predicate IsSpace(c: char) {
    c == ' ' || c == '\t' || c == '\n' || c == '\r' || c == '\U{000B}' || c == '\U{000C}'
  }

  /** A string made only of whitespace (possibly empty). */
  predicate IsBlank(s: string) {
    forall i :: 0 <= i < |s| ==> IsSpace(s[i])
  }

  /** What `str.split()` can return as one element: non-empty, no whitespace. */
  predicate IsWord(w: string) {
    |w| > 0 && forall i :: 0 <= i < |w| ==> !IsSpace(w[i])
  }

  /** `s.startswith(p)` */
  predicate StartsWith(s: string, p: string) {
    p <= s
  }

  /** `s.endswith(p)` */
  predicate EndsWith(s: string, p: string) {
    |p| <= |s| && s[|s| - |p|..] == p
  }

  /** `p in s` for strings: p occurs somewhere in s. */
  predicate Contains(s: string, p: string)
    decreases |s|
  {
    p <= s || (s != [] && Contains(s[1..], p))
  }

  /** The text of an occurrence of p in s sits at some index of s. */
  lemma {:induction false} ContainsAt(s: string, p: string)
    requires Contains(s, p)
    ensures exists i :: 0 <= i <= |s| - |p| && p <= s[i..]
    decreases |s|
  {
    if p <= s {
      assert s[0..] == s;
    } else {
      ContainsAt(s[1..], p);
      var i :| 0 <= i <= |s[1..]| - |p| && p <= s[1..][i..];
      assert s[1..][i..] == s[i + 1..];
    }
  }

  /** A string can only contain p if it contains p's first character. */
  lemma {:induction false} ContainsFirstChar(s: string, p: string)
    requires |p| > 0
    requires forall i :: 0 <= i < |s| ==> s[i] != p[0]
    ensures !Contains(s, p)
    decreases |s|
  {
    if s != [] {
      assert !(p <= s) by { assert s[0] != p[0]; }
      ContainsFirstChar(s[1..], p);
    }
  }

  // ---------------------------------------------------------------------
  // str.split() : whitespace tokenisation

  /** Length of the run of non-whitespace characters that starts s. */
  function WordLength(s: string): (n: nat)
    ensures n <= |s|
    ensures forall i :: 0 <= i < n ==> !IsSpace(s[i])
    ensures n < |s| ==> IsSpace(s[n])
  {
    if s == [] || IsSpace(s[0]) then 0 else 1 + WordLength(s[1..])
  }

  /** `s.split()`: the maximal runs of non-whitespace characters, in order. */
  function Words(s: string): (ws: seq<string>)
    ensures forall k :: 0 <= k < |ws| ==> IsWord(ws[k])
    decreases |s|
  {
    if s == [] then []
    else if IsSpace(s[0]) then Words(s[1..])
    else
      var n := WordLength(s);
      [s[..n]] + Words(s[n..])
  }

  lemma {:induction false} WordLengthOfWord(w: string, s: string)
    requires IsWord(w)
    requires s == [] || IsSpace(s[0])
    ensures WordLength(w + s) == |w|
    decreases |w|
  {
    if |w| > 1 {
      assert (w + s)[1..] == w[1..] + s;
      WordLengthOfWord(w[1..], s);
    } else {
      assert (w + s)[1..] == s;
    }
  }

  /** A word followed by whitespace (or nothing) splits off as the first token. */
  lemma WordsOfWordThen(w: string, s: string)
    requires IsWord(w)
    requires s == [] || IsSpace(s[0])
    ensures Words(w + s) == [w] + Words(s)
  {
    WordLengthOfWord(w, s);
    assert (w + s)[..|w|] == w;
    assert (w + s)[|w|..] == s;
  }

  /** Leading whitespace does not change the tokens. */
  lemma {:induction false} WordsOfBlankThen(b: string, s: string)
    requires IsBlank(b)
    ensures Words(b + s) == Words(s)
    decreases |b|
  {
    if b != [] {
      assert (b + s)[0] == b[0];
      assert (b + s)[1..] == b[1..] + s;
      assert Words(b + s) == Words(b[1..] + s);
      WordsOfBlankThen(b[1..], s);
    } else {
      assert b + s == s;
    }
  }

  /** A whitespace-only string has no tokens. */
  lemma WordsOfBlank(b: string)
    requires IsBlank(b)
    ensures Words(b) == []
  {
    WordsOfBlankThen(b, []);
    assert b + [] == b;
  }

  /** Tokens of `w1 b1 w2 b2`, two words each followed by whitespace. */
  lemma WordsOfTwo(w1: string, b1: string, w2: string, b2: string)
    requires IsWord(w1) && IsWord(w2)
    requires IsBlank(b1) && |b1| > 0 && IsBlank(b2)
    ensures Words(w1 + b1 + w2 + b2) == [w1, w2]
  {
    var t2 := w2 + b2;
    var t1 := b1 + t2;
    AppendAssoc(w1 + b1, w2, b2);
    AppendAssoc(w1, b1, t2);
    assert w1 + b1 + w2 + b2 == w1 + t1;
    assert t1[0] == b1[0] && IsSpace(b1[0]);
    WordsOfWordThen(w1, t1);
    WordsOfBlankThen(b1, t2);
    assert b2 == [] || IsSpace(b2[0]);
    WordsOfWordThen(w2, b2);
    WordsOfBlank(b2);
    assert Words(t2) == [w2];
  }

  // ---------------------------------------------------------------------
  // str.split(sep), sep.join(parts), str.replace(old, new)

  /** The scan behind `s.split(sep)`: `cur` is the part being built, `rest`
      the text not yet read; occurrences of sep are taken left to right. */
  function SplitFrom(rest: string, sep: string, cur: string): (parts: seq<string>)
    requires |sep| > 0
    ensures |parts| > 0
    decreases |rest|
  {
    if rest == [] then [cur]
    else if sep <= rest then [cur] + SplitFrom(rest[|sep|..], sep, [])
    else SplitFrom(rest[1..], sep, cur + [rest[0]])
  }

  /** `s.split(sep)` for a non-empty separator. */
  function Split(s: string, sep: string): (parts: seq<string>)
    requires |sep| > 0
    ensures |parts| > 0
  {
    SplitFrom(s, sep, [])
  }

  /** `sep.join(parts)` */
  function Join(parts: seq<string>, sep: string): string {
    if |parts| == 0 then []
    else if |parts| == 1 then parts[0]
    else parts[0] + sep + Join(parts[1..], sep)
  }

  /** Tokens joined by whitespace, then trailing whitespace: the tokens again. */
  lemma {:induction false} WordsOfJoin(ws: seq<string>, sep: string, tail: string)
    requires |ws| > 0 && forall i :: 0 <= i < |ws| ==> IsWord(ws[i])
    requires IsBlank(sep) && |sep| > 0 && IsBlank(tail)
    ensures Words(Join(ws, sep) + tail) == ws
    decreases |ws|
  {
    if |ws| == 1 {
      WordsOfWordThen(ws[0], tail);
      WordsOfBlank(tail);
    } else {
      var rest := Join(ws[1..], sep) + tail;
      assert Join(ws, sep) + tail == ws[0] + (sep + rest);
      WordsOfWordThen(ws[0], sep + rest);
      WordsOfBlankThen(sep, rest);
      WordsOfJoin(ws[1..], sep, tail);
      assert [ws[0]] + ws[1..] == ws;
    }
  }

  lemma {:induction false} JoinSplitFrom(rest: string, sep: string, cur: string)
    requires |sep| > 0
    ensures Join(SplitFrom(rest, sep, cur), sep) == cur + rest
    decreases |rest|
  {
    if rest == [] {
    } else if sep <= rest {
      JoinSplitFrom(rest[|sep|..], sep, []);
      assert rest == sep + rest[|sep|..];
    } else {
      JoinSplitFrom(rest[1..], sep, cur + [rest[0]]);
      assert cur + [rest[0]] + rest[1..] == cur + rest;
    }
  }

  /** Joining the parts of a split with the same separator gives the text back. */
  lemma JoinSplit(s: string, sep: string)
    requires |sep| > 0
    ensures Join(Split(s, sep), sep) == s
  {
    JoinSplitFrom(s, sep, []);
  }

  /** Without an occurrence of sep, the split is the whole text. */
  lemma {:induction false} SplitFromAbsent(rest: string, sep: string, cur: string)
    requires |sep| > 0 && !Contains(rest, sep)
    ensures SplitFrom(rest, sep, cur) == [cur + rest]
    decreases |rest|
  {
    if rest != [] {
      assert !(sep <= rest) && !Contains(rest[1..], sep);
      assert SplitFrom(rest, sep, cur) == SplitFrom(rest[1..], sep, cur + [rest[0]]);
      SplitFromAbsent(rest[1..], sep, cur + [rest[0]]);
      assert cur + [rest[0]] + rest[1..] == cur + rest;
    } else {
      assert cur + rest == cur;
    }
  }

  /** When sep's first character is not in p, the first occurrence of sep in
      `p + sep + q` is the one right after p. */
  lemma {:induction false} SplitFromAfter(p: string, sep: string, q: string, cur: string)
    requires |sep| > 0
    requires forall i :: 0 <= i < |p| ==> p[i] != sep[0]
    ensures SplitFrom(p + sep + q, sep, cur) == [cur + p] + SplitFrom(q, sep, [])
    decreases |p|
  {
    var rest := p + sep + q;
    if p == [] {
      assert rest == sep + q && cur + p == cur;
      assert rest[|sep|..] == q;
    } else {
      assert rest[0] == p[0] != sep[0];
      assert !(sep <= rest);
      assert rest[1..] == p[1..] + sep + q;
      SplitFromAfter(p[1..], sep, q, cur + [p[0]]);
      assert cur + [p[0]] + p[1..] == cur + p;
    }
  }

  /** For a one-character separator, splitting distributes over an occurrence. */
  lemma {:induction false} SplitFromCharAppend(a: string, c: char, b: string, cur: string)
    ensures SplitFrom(a + [c] + b, [c], cur) == SplitFrom(a, [c], cur) + SplitFrom(b, [c], [])
    decreases |a|
  {
    var rest := a + [c] + b;
    if a == [] {
      assert rest == [c] + b;
      assert [c] <= rest;
      assert rest[1..] == b;
    } else {
      assert rest[1..] == a[1..] + [c] + b;
      assert rest[0] == a[0];
      if a[0] == c {
        assert [c] <= rest && [c] <= a;
        SplitFromCharAppend(a[1..], c, b, []);
        assert [cur] + (SplitFrom(a[1..], [c], []) + SplitFrom(b, [c], [])) ==
               ([cur] + SplitFrom(a[1..], [c], [])) + SplitFrom(b, [c], []);
      } else {
        assert !([c] <= rest) && !([c] <= a);
        SplitFromCharAppend(a[1..], c, b, cur + [a[0]]);
      }
    }
  }

  /** `s.replace(target, replacement)` for a non-empty `target`: every occurrence, left to right. */
  function ReplaceAll(s: string, target: string, replacement: string): string
    requires |target| > 0
  {
    Join(Split(s, target), replacement)
  }

  /** Replacing text that does not occur changes nothing. */
  lemma ReplaceAbsent(s: string, target: string, replacement: string)
    requires |target| > 0 && !Contains(s, target)
    ensures ReplaceAll(s, target, replacement) == s
  {
    SplitFromAbsent(s, target, []);
  }

  /** Replacing the single occurrence of `target` that sits between p and q. */
  lemma ReplaceSingle(p: string, target: string, q: string, replacement: string)
    requires |target| > 0
    requires forall i :: 0 <= i < |p| ==> p[i] != target[0]
    requires forall i :: 0 <= i < |q| ==> q[i] != target[0]
    ensures ReplaceAll(p + target + q, target, replacement) == p + replacement + q
  {
    SplitFromAfter(p, target, q, []);
    ContainsFirstChar(q, target);
    SplitFromAbsent(q, target, []);
    assert [] + p == p && [] + q == q;
    assert Split(p + target + q, target) == [p, q];
    assert Join([p, q], replacement) == p + replacement + Join([q], replacement);
  }

  // ---------------------------------------------------------------------
  // int(token) and str(n)

  predicate IsDigit(c: char) {
    '0' <= c <= '9'
  }

  predicate AllDigits(s: string) {
    forall i :: 0 <= i < |s| ==> IsDigit(s[i])
  }

  function DigitChar(d: nat): (c: char)
    requires d < 10
    ensures IsDigit(c)
  {
    "0123456789"[d]
  }

  function DigitValue(c: char): (d: nat)
    requires IsDigit(c)
    ensures d < 10
  {
    (c as int) - ('0' as int)
  }

  /** The value of a string of decimal digits, most significant first. */
  function DigitsValue(s: string): nat
    requires AllDigits(s)
  {
    if s == [] then 0 else 10 * DigitsValue(s[..|s| - 1]) + DigitValue(s[|s| - 1])
  }

  /** Python 2 `int(token)` on a whitespace-free token: an optional sign and
      one or more decimal digits; anything else raises ValueError (None). */
  function ParseInt(s: string): Option<int> {
    if |s| > 1 && (s[0] == '-' || s[0] == '+') && AllDigits(s[1..]) then
      var v: int := DigitsValue(s[1..]);
      Some(if s[0] == '-' then -v else v)
    else if |s| > 0 && AllDigits(s) then Some(DigitsValue(s))
    else None
  }

  /** Decimal digits of n, no leading zeros. */
  function NatToDigits(n: nat): (s: string)
    ensures |s| > 0 && AllDigits(s)
  {
    if n < 10 then [DigitChar(n)] else NatToDigits(n / 10) + [DigitChar(n % 10)]
  }

  /** `str(n)` / `'%d' % n` */
  function IntToString(n: int): (s: string)
    ensures |s| > 0
    ensures forall i :: 0 <= i < |s| ==> IsDigit(s[i]) || s[i] == '-'
  {
    if n < 0 then "-" + NatToDigits(-n) else NatToDigits(n)
  }

  lemma {:induction false} DigitsValueOfNat(n: nat)
    ensures DigitsValue(NatToDigits(n)) == n
    decreases n
  {
    var s := NatToDigits(n);
    if n >= 10 {
      DigitsValueOfNat(n / 10);
      assert s[..|s| - 1] == NatToDigits(n / 10);
      assert DigitValue(DigitChar(n % 10)) == n % 10 by {
        assert "0123456789"[n % 10] as int - '0' as int == n % 10;
      }
    } else {
      assert s[..0] == [];
      assert DigitValue(DigitChar(n)) == n by {
        assert "0123456789"[n] as int - '0' as int == n;
      }
    }
  }

  /** `int` of a plain digit string is its value. */
  lemma ParseIntOfDigits(d: string)
    requires |d| > 0 && AllDigits(d)
    ensures ParseInt(d) == Some(DigitsValue(d))
  {
    assert IsDigit(d[0]);
  }

  /** `int` of a minus sign then digits is the negated value. */
  lemma ParseIntOfNegative(d: string)
    requires |d| > 0 && AllDigits(d)
    ensures ParseInt("-" + d) == Some(-(DigitsValue(d) as int))
  {
    var s := "-" + d;
    assert s[0] == '-' && s[1..] == d;
  }

  /** `int(str(n)) == n` */
  lemma ParseIntToString(n: int)
    ensures ParseInt(IntToString(n)) == Some(n)
  {
    if n < 0 {
      ParseNegativeToString(n);
    } else {
      var m: nat := n;
      var d := NatToDigits(m);
      DigitsValueOfNat(m);
      ParseIntOfDigits(d);
      assert IntToString(n) == d;
    }
  }

  lemma ParseNegativeToString(n: int)
    requires n < 0
    ensures ParseInt(IntToString(n)) == Some(n)
  {
    var m: nat := -n;
    var d := NatToDigits(m);
    DigitsValueOfNat(m);
    ParseIntOfNegative(d);
    assert IntToString(n) == "-" + d;
  }

  /** `str` is injective on integers. */
  lemma IntToStringInjective(m: int, n: int)
    requires IntToString(m) == IntToString(n)
    ensures m == n
  {
    ParseIntToString(m);
    ParseIntToString(n);
  }

  /** `str(n)` is a single token that starts with a digit or a minus sign. */
  lemma IntToStringIsWord(n: int)
    ensures IsWord(IntToString(n))
    ensures !IsSpace(IntToString(n)[0]) && IntToString(n)[0] != '\n'
  {
  }

  // ---------------------------------------------------------------------
  // file.readlines()

  /** Length of the first line of s, its '\n' included when it has one. */
  function LineLength(s: string): (n: nat)
    ensures n <= |s|
    ensures s != [] ==> n > 0
  {
    if s == [] then 0 else if s[0] == '\n' then 1 else 1 + LineLength(s[1..])
  }

  /** `f.readlines()` on a file holding s: every line with its '\n', the
      last one without it when s does not end in '\n'. */
  function ReadLines(s: string): seq<string>
    decreases |s|
  {
    if s == [] then [] else [s[..LineLength(s)]] + ReadLines(s[LineLength(s)..])
  }

  lemma {:induction false} LineLengthOfLine(p: string, q: string)
    requires '\n' !in p
    ensures LineLength(p + "\n" + q) == |p| + 1
    decreases |p|
  {
    if p != [] {
      assert (p + "\n" + q)[0] == p[0];
      assert (p + "\n" + q)[1..] == p[1..] + "\n" + q;
      LineLengthOfLine(p[1..], q);
    }
  }

  lemma {:induction false} LineLengthOfLast(p: string)
    requires '\n' !in p
    ensures LineLength(p) == |p|
    decreases |p|
  {
    if p != [] {
      assert p[0] in p;
      LineLengthOfLast(p[1..]);
    }
  }

  /** A line without '\n' followed by '\n' is read as one line. */
  lemma ReadLinesOfLine(p: string, q: string)
    requires '\n' !in p
    ensures ReadLines(p + "\n" + q) == [p + "\n"] + ReadLines(q)
  {
    LineLengthOfLine(p, q);
    var s := p + "\n" + q;
    assert s[..|p| + 1] == p + "\n";
    assert s[|p| + 1..] == q;
  }

  /** A non-empty text without '\n' is read as one line. */
  lemma ReadLinesOfLast(p: string)
    requires p != [] && '\n' !in p
    ensures ReadLines(p) == [p]
  {
    LineLengthOfLast(p);
    assert p[..|p|] == p;
  }

  /** The lines ls as written one after another with '\n' between them:
      all but the last one end in '\n'. */
  function Terminated(ls: seq<string>): (r: seq<string>)
    ensures |r| == |ls|
  {
    seq(|ls|, i requires 0 <= i < |ls| => if i < |ls| - 1 then ls[i] + "\n" else ls[i])
  }

  /** Reading back lines joined with '\n' gives them again, each but the
      last with its '\n'. */
  lemma {:induction false} ReadLinesOfJoin(ls: seq<string>)
    requires forall i :: 0 <= i < |ls| ==> '\n' !in ls[i]
    requires ls != [] ==> ls[|ls| - 1] != []
    ensures ReadLines(Join(ls, "\n")) == Terminated(ls)
    decreases |ls|
  {
    if |ls| == 1 {
      ReadLinesOfLast(ls[0]);
    } else if |ls| > 1 {
      ReadLinesOfJoin(ls[1..]);
      ReadLinesOfLine(ls[0], Join(ls[1..], "\n"));
      assert Terminated(ls) == [ls[0] + "\n"] + Terminated(ls[1..]);
    }
  }

  /** Concatenation regroups; stated once so that callers with long
      literal strings in scope need not prove it by extensionality. */
  lemma AppendAssoc(a: string, b: string, c: string)
    ensures (a + b) + c == a + (b + c)
  {
  }
}
