/**
 * Character classes and string operations of the PHP runtime that the table code relies on:
 * `trim`, the whitespace collapse `preg_replace('/\s+/', ' ', …)`, `strcasecmp`, the value of a
 * run of decimal digits, `empty()` on a string and the `(int)` cast of a string.
 * Strings are sequences of characters; the PHP functions work on bytes, and only the ASCII range
 * matters to any of them.
 */
module Text {

  /** PCRE's `\s` without the UTF flag: space, tab, line feed, vertical tab, form feed, carriage return. */
  predicate IsSpace(c: char) {
    c == ' ' || c == '\t' || c == '\n' || c == '\U{B}' || c == '\U{C}' || c == '\r'
  }

  /** The characters PHP's `trim` removes by default: space, tab, line feed, carriage return, NUL, vertical tab. */
  predicate IsTrimmed(c: char) {
    c == ' ' || c == '\t' || c == '\n' || c == '\r' || c == '\0' || c == '\U{B}'
  }

  /** PCRE's `\d`. */
  predicate IsDigit(c: char) {
    '0' <= c <= '9'
  }

  predicate AllDigits(s: string) {
    forall i :: 0 <= i < |s| ==> IsDigit(s[i])
  }

  predicate HasDigit(s: string) {
    exists i :: 0 <= i < |s| && IsDigit(s[i])
  }

  // ---------------------------------------------------------------- trim

  /** `ltrim`: the suffix left after dropping the longest prefix of trimmed characters. */
  function TrimLeft(s: string): (r: string)
    ensures |r| <= |s|
    ensures s == [] || !IsTrimmed(s[0]) ==> r == s
    ensures r == [] || !IsTrimmed(r[0])
  {
    if s != [] && IsTrimmed(s[0]) then TrimLeft(s[1..]) else s
  }

  /** `rtrim`: the prefix left after dropping the longest suffix of trimmed characters. */
  function TrimRight(s: string): (r: string)
    ensures |r| <= |s|
    ensures s == [] || !IsTrimmed(s[|s| - 1]) ==> r == s
    ensures r == [] || !IsTrimmed(r[|r| - 1])
    ensures r != [] ==> r[0] == s[0]
  {
    if s != [] && IsTrimmed(s[|s| - 1]) then TrimRight(s[..|s| - 1]) else s
  }

  /** What `ltrim` drops is a run of trimmed characters and what it keeps is the rest of the text. */
  lemma {:induction false} TrimLeftDrops(s: string)
    ensures TrimLeft(s) == s[|s| - |TrimLeft(s)|..]
    ensures forall i :: 0 <= i < |s| - |TrimLeft(s)| ==> IsTrimmed(s[i])
  {
    if s != [] && IsTrimmed(s[0]) {
      TrimLeftDrops(s[1..]);
      assert s[1..][|s| - 1 - |TrimLeft(s)|..] == s[|s| - |TrimLeft(s)|..];
      forall i | 1 <= i < |s| - |TrimLeft(s)| ensures IsTrimmed(s[i]) {
        assert s[i] == s[1..][i - 1];
      }
    }
  }

  /** What `rtrim` drops is a run of trimmed characters and what it keeps is the start of the text. */
  lemma {:induction false} TrimRightDrops(s: string)
    ensures TrimRight(s) == s[..|TrimRight(s)|]
    ensures forall i :: |TrimRight(s)| <= i < |s| ==> IsTrimmed(s[i])
  {
    if s != [] && IsTrimmed(s[|s| - 1]) {
      TrimRightDrops(s[..|s| - 1]);
      assert s[..|s| - 1][..|TrimRight(s)|] == s[..|TrimRight(s)|];
      forall i | |TrimRight(s)| <= i < |s| - 1 ensures IsTrimmed(s[i]) {
        assert s[i] == s[..|s| - 1][i];
      }
    }
  }

  /** PHP's `trim` with its default character list. */
  function Trim(s: string): (r: string)
    ensures r == [] || (!IsTrimmed(r[0]) && !IsTrimmed(r[|r| - 1]))
  {
    TrimRight(TrimLeft(s))
  }

  /** A string that starts and ends with a character `trim` keeps is its own trim. */
  lemma {:induction false} TrimOfTrimmed(s: string)
    requires s != [] && !IsTrimmed(s[0]) && !IsTrimmed(s[|s| - 1])
    ensures Trim(s) == s
  {
    assert TrimLeft(s) == s;
    assert TrimRight(s) == s;
  }

  // ---------------------------------------------------------------- whitespace collapse

  /** Drops the leading run of `\s` characters. */
  function DropSpaces(s: string): (r: string)
    ensures |r| <= |s|
    ensures s != [] && IsSpace(s[0]) ==> |r| < |s|
    ensures s == [] || !IsSpace(s[0]) ==> r == s
    ensures r == [] || !IsSpace(r[0])
  {
    if s != [] && IsSpace(s[0]) then DropSpaces(s[1..]) else s
  }

  /** No `\s` character other than a plain space, and never two spaces in a row. */
  predicate Collapsed(s: string) {
    && (forall i :: 0 <= i < |s| && IsSpace(s[i]) ==> s[i] == ' ')
    && (forall i :: 0 <= i < |s| - 1 ==> !(IsSpace(s[i]) && IsSpace(s[i + 1])))
  }

  /** `preg_replace('/\s+/', ' ', s)`: every maximal run of `\s` characters becomes one space. */
  function Collapse(s: string): (r: string)
    ensures Collapsed(r)
    ensures '\n' !in r
    ensures r == [] <==> s == []
    ensures r != [] ==> (IsSpace(r[0]) <==> IsSpace(s[0]))
    decreases |s|
  {
    if s == [] then []
    else if IsSpace(s[0]) then
      var rest := Collapse(DropSpaces(s));
      assert rest == [] || !IsSpace(rest[0]);
      [' '] + rest
    else
      [s[0]] + Collapse(s[1..])
  }

  /** Collapsing twice is collapsing once: the output of `Collapse` has no run left to shorten. */
  lemma {:induction false} CollapseOfCollapsed(s: string)
    requires Collapsed(s)
    ensures Collapse(s) == s
    decreases |s|
  {
    if s != [] {
      if IsSpace(s[0]) {
        assert s[0] == ' ';
        assert |s| == 1 || !IsSpace(s[1]);
        assert DropSpaces(s) == s[1..];
      }
      assert Collapsed(s[1..]) by {
        forall i | 0 <= i < |s[1..]| - 1
          ensures !(IsSpace(s[1..][i]) && IsSpace(s[1..][i + 1]))
        {
          assert s[1..][i] == s[i + 1] && s[1..][i + 1] == s[i + 2];
        }
      }
      CollapseOfCollapsed(s[1..]);
    }
  }

  lemma {:induction false} CollapseIdempotent(s: string)
    ensures Collapse(Collapse(s)) == Collapse(s)
  {
    CollapseOfCollapsed(Collapse(s));
  }

  /** The text with every `\s` character removed: what a whitespace rewrite must keep, in order. */
  function NonSpace(s: string): string {
    if s == [] then [] else (if IsSpace(s[0]) then [] else [s[0]]) + NonSpace(s[1..])
  }

  lemma {:induction false} NonSpaceCons(c: char, s: string)
    ensures NonSpace([c] + s) == (if IsSpace(c) then [] else [c]) + NonSpace(s)
  {
    assert ([c] + s)[1..] == s;
  }

  lemma {:induction false} NonSpaceDropSpaces(s: string)
    ensures NonSpace(DropSpaces(s)) == NonSpace(s)
    decreases |s|
  {
    if s != [] && IsSpace(s[0]) {
      NonSpaceDropSpaces(s[1..]);
    }
  }

  /** Collapsing keeps every character that is not whitespace, in order, and adds none. */
  lemma {:induction false} CollapseKeepsNonSpace(s: string)
    ensures NonSpace(Collapse(s)) == NonSpace(s)
    decreases |s|
  {
    if s != [] {
      if IsSpace(s[0]) {
        NonSpaceDropSpaces(s);
        CollapseKeepsNonSpace(DropSpaces(s));
        NonSpaceCons(' ', Collapse(DropSpaces(s)));
      } else {
        CollapseKeepsNonSpace(s[1..]);
        NonSpaceCons(s[0], Collapse(s[1..]));
      }
    }
  }

  /** Dropping the leading run of a text that ends in a non-space keeps that last character. */
  lemma {:induction false} DropSpacesKeepsLast(x: string)
    requires x != [] && !IsSpace(x[|x| - 1])
    ensures DropSpaces(x) != [] && DropSpaces(x)[|DropSpaces(x)| - 1] == x[|x| - 1]
    ensures |DropSpaces(x)| <= |x|
    decreases |x|
  {
    if IsSpace(x[0]) {
      DropSpacesKeepsLast(x[1..]);
    }
  }

  lemma {:induction false} DropSpacesAppend(x: string, y: string)
    requires x != [] && !IsSpace(x[|x| - 1])
    ensures DropSpaces(x + y) == DropSpaces(x) + y
    decreases |x|
  {
    if IsSpace(x[0]) {
      assert (x + y)[1..] == x[1..] + y;
      DropSpacesAppend(x[1..], y);
    }
  }

  /** A text that ends in a non-space collapses independently of what follows it. */
  lemma {:induction false} CollapseAppend(x: string, y: string)
    requires x == [] || !IsSpace(x[|x| - 1])
    ensures Collapse(x + y) == Collapse(x) + Collapse(y)
    decreases |x|
  {
    if x == [] {
      assert x + y == y;
    } else if IsSpace(x[0]) {
      DropSpacesAppend(x, y);
      DropSpacesKeepsLast(x);
      CollapseAppend(DropSpaces(x), y);
    } else {
      assert (x + y)[1..] == x[1..] + y;
      CollapseAppend(x[1..], y);
    }
  }

  /** A whitespace run followed by a non-space (or by nothing) collapses to one space. */
  lemma {:induction false} DropRun(w: string, v: string)
    requires forall k :: 0 <= k < |w| ==> IsSpace(w[k])
    requires v == [] || !IsSpace(v[0])
    ensures DropSpaces(w + v) == v
    decreases |w|
  {
    if w == [] {
      assert w + v == v;
    } else {
      assert (w + v)[1..] == w[1..] + v;
      DropRun(w[1..], v);
    }
  }

  /**
   * `preg_replace('/\s+/', ' ', ...)` rewrites each maximal run on its own: a non-empty run w
   * between a text u ending in a non-space and a text v starting with one (or empty) becomes one
   * space, and the texts on either side collapse as they would alone.
   */
  lemma {:induction false} CollapseRun(u: string, w: string, v: string)
    requires u == [] || !IsSpace(u[|u| - 1])
    requires w != [] && forall k :: 0 <= k < |w| ==> IsSpace(w[k])
    requires v == [] || !IsSpace(v[0])
    ensures Collapse(u + w + v) == Collapse(u) + " " + Collapse(v)
  {
    assert u + w + v == u + (w + v);
    CollapseAppend(u, w + v);
    DropRun(w, v);
    assert (w + v)[0] == w[0];
  }

  // ---------------------------------------------------------------- strcasecmp

  /** ASCII lower-casing, as `strcasecmp` applies it to each byte. */
  function Lower(c: char): (l: char)
    ensures 'A' <= c <= 'Z' ==> 'a' <= l <= 'z'
    ensures !('A' <= c <= 'Z') ==> l == c
  {
    if 'A' <= c <= 'Z' then (c as int + 32) as char else c
  }

  function LowerAll(s: string): (r: string)
    ensures |r| == |s|
    ensures forall i :: 0 <= i < |s| ==> r[i] == Lower(s[i])
  {
    if s == [] then [] else [Lower(s[0])] + LowerAll(s[1..])
  }

  /**
   * The sign of `strcasecmp(a, b)`: the first position where the lower-cased characters differ
   * decides, and a proper prefix comes first.
   */
  function CaseCmp(a: string, b: string): (r: int)
    ensures -1 <= r <= 1
  {
    if a == [] && b == [] then 0
    else if a == [] then -1
    else if b == [] then 1
    else if Lower(a[0]) < Lower(b[0]) then -1
    else if Lower(a[0]) > Lower(b[0]) then 1
    else CaseCmp(a[1..], b[1..])
  }

  /**
   * Dictionary order: x comes before y when x is a proper prefix of y, or when at the first
   * position where they differ x has the smaller character.
   */
  predicate LexLess(x: string, y: string) {
    || (|x| < |y| && x == y[..|x|])
    || (exists k :: 0 <= k < |x| && k < |y| && x[..k] == y[..k] && x[k] < y[k])
  }

  lemma {:induction false} LexLessTail(x: string, y: string)
    requires x != [] && y != [] && x[0] == y[0]
    ensures LexLess(x, y) <==> LexLess(x[1..], y[1..])
  {
    if LexLess(x, y) {
      if |x| < |y| && x == y[..|x|] {
        assert x[1..] == y[1..][..|x[1..]|];
      } else {
        var k :| 0 <= k < |x| && k < |y| && x[..k] == y[..k] && x[k] < y[k];
        assert k != 0;
        assert x[1..][..k - 1] == x[..k][1..] == y[..k][1..] == y[1..][..k - 1];
        assert x[1..][k - 1] == x[k];
      }
    }
    if LexLess(x[1..], y[1..]) {
      if |x[1..]| < |y[1..]| && x[1..] == y[1..][..|x[1..]|] {
        assert x == [x[0]] + x[1..] == [y[0]] + y[1..][..|x| - 1] == y[..|x|];
      } else {
        var k :| 0 <= k < |x[1..]| && k < |y[1..]| && x[1..][..k] == y[1..][..k] && x[1..][k] < y[1..][k];
        assert x[..k + 1] == [x[0]] + x[1..][..k] == [y[0]] + y[1..][..k] == y[..k + 1];
        assert x[k + 1] < y[k + 1];
      }
    }
  }

  /** `strcasecmp` orders a before b exactly when the lower-cased a comes first in dictionary order. */
  lemma {:induction false} CaseCmpLess(a: string, b: string)
    ensures CaseCmp(a, b) < 0 <==> LexLess(LowerAll(a), LowerAll(b))
  {
    var x, y := LowerAll(a), LowerAll(b);
    if a == [] && b == [] {
    } else if a == [] {
      assert x == y[..|x|];
    } else if b == [] {
    } else {
      assert x[0] == Lower(a[0]) && y[0] == Lower(b[0]);
      if Lower(a[0]) < Lower(b[0]) {
        assert x[..0] == y[..0];
      } else if Lower(a[0]) > Lower(b[0]) {
        assert |x| < |y| ==> y[..|x|][0] == y[0];
        assert forall k :: 0 < k <= |x| && k <= |y| ==> x[..k][0] == x[0] && y[..k][0] == y[0];
      } else {
        CaseCmpLess(a[1..], b[1..]);
        assert LowerAll(a[1..]) == x[1..];
        assert LowerAll(b[1..]) == y[1..];
        LexLessTail(x, y);
      }
    }
  }

  lemma {:induction false} CaseCmpAntisymmetric(a: string, b: string)
    ensures CaseCmp(a, b) == -CaseCmp(b, a)
  {
    if a != [] && b != [] && Lower(a[0]) == Lower(b[0]) {
      CaseCmpAntisymmetric(a[1..], b[1..]);
    }
  }

  /** `strcasecmp` reports equality exactly when the two strings agree after lower-casing. */
  lemma {:induction false} CaseCmpZeroIff(a: string, b: string)
    ensures CaseCmp(a, b) == 0 <==> LowerAll(a) == LowerAll(b)
  {
    if a != [] && b != [] {
      CaseCmpZeroIff(a[1..], b[1..]);
      assert LowerAll(a) == [Lower(a[0])] + LowerAll(a[1..]);
      assert LowerAll(b) == [Lower(b[0])] + LowerAll(b[1..]);
      if LowerAll(a) == LowerAll(b) {
        assert LowerAll(a)[0] == LowerAll(b)[0];
        assert LowerAll(a[1..]) == LowerAll(a)[1..];
      }
    } else if a != [] || b != [] {
      assert |LowerAll(a)| != |LowerAll(b)|;
    }
  }

  lemma {:induction false} CaseCmpTransitive(a: string, b: string, c: string)
    requires CaseCmp(a, b) <= 0 && CaseCmp(b, c) <= 0
    ensures CaseCmp(a, c) <= 0
  {
    if a != [] && b != [] && c != [] && Lower(a[0]) == Lower(b[0]) == Lower(c[0]) {
      CaseCmpTransitive(a[1..], b[1..], c[1..]);
    }
  }

  // ---------------------------------------------------------------- numbers

  function Pow10(k: nat): (p: nat)
    ensures p >= 1
  {
    if k == 0 then 1 else 10 * Pow10(k - 1)
  }

  /** The value of a decimal digit character. */
  function DigitValue(c: char): (v: nat)
    ensures IsDigit(c) ==> v == c as int - '0' as int
  {
    if IsDigit(c) then c as int - '0' as int else 0
  }

  /** The value of a run of decimal digits, leading zeros allowed: the `(int)` of such a run. */
  function DigitsValue(ds: string): nat {
    if ds == [] then 0 else 10 * DigitsValue(ds[..|ds| - 1]) + DigitValue(ds[|ds| - 1])
  }

  /** The longest prefix made of digits. */
  function LeadingDigits(s: string): (r: string)
    ensures |r| <= |s|
    ensures |r| == |s| || !IsDigit(s[|r|])
  {
    if s != [] && IsDigit(s[0]) then [s[0]] + LeadingDigits(s[1..]) else []
  }

  /** The prefix `LeadingDigits` takes is made of digits, and is the whole of a string of digits. */
  lemma {:induction false} LeadingDigitsRun(s: string)
    ensures AllDigits(LeadingDigits(s)) && LeadingDigits(s) == s[..|LeadingDigits(s)|]
    ensures AllDigits(s) ==> LeadingDigits(s) == s
  {
    if s != [] && IsDigit(s[0]) {
      LeadingDigitsRun(s[1..]);
      assert s == [s[0]] + s[1..];
      if AllDigits(s) {
        assert AllDigits(s[1..]) by {
          forall i | 0 <= i < |s| - 1 ensures IsDigit(s[1..][i]) { assert s[1..][i] == s[i + 1]; }
        }
      }
    }
  }

  // ---------------------------------------------------------------- PHP conversions

  /** PHP's `empty()` on a string: true for the empty string and for "0". */
  predicate IsEmptyString(s: string) {
    s == "" || s == "0"
  }

  /**
   * `(int)` of a string: leading whitespace, an optional sign and the leading digits; 0 when there
   * are no digits.
   */
  function IntOfString(s: string): int {
    var t := DropSpaces(s);
    if t != [] && t[0] == '-' then -(DigitsValue(LeadingDigits(t[1..])) as int)
    else if t != [] && t[0] == '+' then DigitsValue(LeadingDigits(t[1..]))
    else DigitsValue(LeadingDigits(t))
  }

  /**
   * Unsigned input casts to the value of its leading digits after the leading whitespace; a string
   * of digits casts to its own value.
   */
  lemma {:induction false} IntOfStringDigits(s: string)
    ensures LeadingDigits(DropSpaces(s)) != [] ==> IntOfString(s) == DigitsValue(LeadingDigits(DropSpaces(s)))
    ensures AllDigits(s) && s != [] ==> IntOfString(s) == DigitsValue(s)
  {
    var t := DropSpaces(s);
    var ds := LeadingDigits(t);
    LeadingDigitsRun(t);
    if ds != [] {
      assert t[0] == ds[0] && IsDigit(ds[0]);
    }
    if AllDigits(s) && s != [] {
      assert !IsSpace(s[0]);
      assert t == s;
      LeadingDigitsRun(s);
    }
  }
}
