/** Character-level helpers the plugin relies on: runs of spaces, Python's
    `str.lstrip(" ")`, `str.split(sep)` and the decimal digit strings that
    `int()` reads. Strings are sequences of characters. */
module Text {

  /** A line of buffer text: the buffer is split on newlines, so no line holds one. */
  predicate NoNewline(s: string) {
    '\n' !in s
  }

  /** `" " * n` */
  function Spaces(n: nat): (r: string)
    ensures |r| == n
    ensures forall i :: 0 <= i < n ==> r[i] == ' '
  {
    if n == 0 then "" else [' '] + Spaces(n - 1)
  }

  /** `s.lstrip(" ")`: removes the leading ASCII spaces and nothing else, so a
      leading tab stays where it is. */
  function LStripSpaces(s: string): (r: string)
    ensures |r| <= |s|
    ensures r == [] || r[0] != ' '
    ensures s == Spaces(|s| - |r|) + r
  {
    if |s| > 0 && s[0] == ' ' then
      var r := LStripSpaces(s[1..]);
      assert Spaces(|s| - |r|) == [' '] + Spaces(|s| - 1 - |r|);
      r
    else
      s
  }

  /** Stripping a string made of a run of spaces and a rest that does not start
      with a space gives exactly that rest. */
  lemma {:induction false} LStripSpacesOfPadded(k: nat, t: string)
    requires t == [] || t[0] != ' '
    ensures LStripSpaces(Spaces(k) + t) == t
  {
    if k > 0 {
      var s := Spaces(k) + t;
      assert s[0] == ' ';
      assert s[1..] == Spaces(k - 1) + t;
      LStripSpacesOfPadded(k - 1, t);
    }
  }

  /** Lines of text joined with `sep` between them: Python's `sep.join(ps)`. */
  function Join(ps: seq<string>, sep: char): string
    requires |ps| >= 1
  {
    if |ps| == 1 then ps[0] else ps[0] + [sep] + Join(ps[1..], sep)
  }

  /** The first piece starts the joined text. */
  lemma JoinStartsWithFirst(ps: seq<string>, sep: char)
    requires |ps| >= 1
    ensures |ps[0]| <= |Join(ps, sep)| && Join(ps, sep)[..|ps[0]|] == ps[0]
  {
  }

  /** How many times `c` occurs in `s`. */
  function Count(s: string, c: char): nat {
    if |s| == 0 then 0 else (if s[0] == c then 1 else 0) + Count(s[1..], c)
  }

  /** `s.split(sep)`: one piece more than there are separators (so the empty
      string splits into one empty piece), no piece holds `sep`, and joining
      the pieces gives `s` back. */
  function Split(s: string, sep: char): (r: seq<string>)
    ensures |r| == Count(s, sep) + 1
    ensures forall i :: 0 <= i < |r| ==> sep !in r[i]
    ensures Join(r, sep) == s
  {
    if |s| == 0 then
      [""]
    else
      var rest := Split(s[1..], sep);
      if s[0] == sep then
        assert Join([""] + rest, sep) == [sep] + Join(rest, sep) by {
          assert ([""] + rest)[1..] == rest;
        }
        [""] + rest
      else
        var r := [[s[0]] + rest[0]] + rest[1..];
        assert Join(r, sep) == [s[0]] + Join(rest, sep) by {
          if |rest| > 1 {
            assert r[1..] == rest[1..];
          }
        }
        r
  }

  /** A piece with no separator splits into itself. */
  lemma {:induction false} SplitNoSeparator(p: string, sep: char)
    requires sep !in p
    ensures Split(p, sep) == [p]
  {
    if |p| > 0 {
      SplitNoSeparator(p[1..], sep);
      assert [p[0]] + p[1..] == p;
    }
  }

  /** Splitting `p + sep + rest`, with no separator in `p`, yields `p` ahead of the pieces of `rest`. */
  lemma {:induction false} SplitCons(p: string, sep: char, rest: string)
    requires sep !in p
    ensures Split(p + [sep] + rest, sep) == [p] + Split(rest, sep)
  {
    var s := p + [sep] + rest;
    if |p| == 0 {
      assert s[0] == sep && s[1..] == rest;
    } else {
      assert s[0] == p[0];
      assert s[1..] == p[1..] + [sep] + rest;
      SplitCons(p[1..], sep, rest);
      assert [p[0]] + p[1..] == p;
    }
  }

  /** Split inverts Join on pieces that hold no separator. */
  lemma {:induction false} SplitJoin(ps: seq<string>, sep: char)
    requires |ps| >= 1
    requires forall i :: 0 <= i < |ps| ==> sep !in ps[i]
    ensures Split(Join(ps, sep), sep) == ps
  {
    if |ps| == 1 {
      SplitNoSeparator(ps[0], sep);
    } else {
      SplitCons(ps[0], sep, Join(ps[1..], sep));
      SplitJoin(ps[1..], sep);
      assert [ps[0]] + ps[1..] == ps;
    }
  }

  predicate IsDigit(c: char) {
    '0' <= c <= '9'
  }

  /** A non-empty string of ASCII decimal digits. */
  predicate IsDigits(s: string) {
    |s| > 0 && forall i :: 0 <= i < |s| ==> IsDigit(s[i])
  }

  function DigitValue(c: char): (d: nat)
    requires IsDigit(c)
    ensures d < 10
  {
    c as int - '0' as int
  }

  function DigitChar(d: nat): (c: char)
    requires d < 10
    ensures IsDigit(c) && DigitValue(c) == d
  {
    ('0' as int + d) as char
  }

  function Pow10(k: nat): (p: nat)
    ensures p >= 1
  {
    if k == 0 then 1 else 10 * Pow10(k - 1)
  }

  /** The number a digit string denotes, most significant digit first, leading
      zeros allowed, as `int()` reads it: its units digit is the last digit, and
      k digits denote a number below 10^k. */
  function DecimalValue(s: string): (r: nat)
    requires forall i :: 0 <= i < |s| ==> IsDigit(s[i])
    ensures |s| > 0 ==> r % 10 == DigitValue(s[|s| - 1])
    ensures r < Pow10(|s|)
  {
    if |s| == 0 then 0 else
      var front := DecimalValue(s[..|s| - 1]);
      assert front + 1 <= Pow10(|s| - 1);
      assert 10 * front + 10 <= Pow10(|s|);
      10 * front + DigitValue(s[|s| - 1])
  }

  /** The canonical decimal rendering of `n` (what `str(n)` prints). */
  function ShowNat(n: nat): (r: string)
    ensures IsDigits(r)
  {
    (if n < 10 then "" else ShowNat(n / 10)) + [DigitChar(n % 10)]
  }

  /** Reading a rendered number gives the number back. */
  lemma {:induction false} DecimalValueShowNat(n: nat)
    ensures DecimalValue(ShowNat(n)) == n
  {
    var s := ShowNat(n);
    var front := if n < 10 then "" else ShowNat(n / 10);
    assert s[..|s| - 1] == front;
    if n >= 10 {
      DecimalValueShowNat(n / 10);
    }
  }
}
