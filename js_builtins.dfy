// The JavaScript built-ins the components rely on, stated over Dafny values:
// String.prototype.trim, Number.prototype.toString for naturals,
// String.prototype.padStart with a one-character pad, and the
// `Math.floor(Math.random() * n)` idiom used to pick a list index.

module Lists {
  /** No element occurs twice. */
  predicate Distinct<T(==)>(s: seq<T>) {
    forall i, j :: 0 <= i < j < |s| ==> s[i] != s[j]
  }

  lemma {:induction false} DistinctCons<T>(h: T, t: seq<T>)
    ensures Distinct([h] + t) <==> h !in t && Distinct(t)
  {
    var s := [h] + t;
    if h !in t && Distinct(t) {
      forall i, j | 0 <= i < j < |s| ensures s[i] != s[j] {
        if i == 0 {
          assert s[j] == t[j - 1];
        } else {
          assert s[i] == t[i - 1] && s[j] == t[j - 1];
        }
      }
    }
    if Distinct(s) {
      forall i, j | 0 <= i < j < |t| ensures t[i] != t[j] {
        assert t[i] == s[i + 1] && t[j] == s[j + 1];
      }
      forall k | 0 <= k < |t| ensures t[k] != h {
        assert s[0] == h && s[k + 1] == t[k];
      }
    }
  }
}

module JsString {
  /**
   * The code points String.prototype.trim removes: ECMAScript's WhiteSpace
   * (TAB, VT, FF, SP, NBSP, ZWNBSP and the Space_Separator category) and
   * LineTerminator (LF, CR, LS, PS).
   */
  predicate IsJsWhitespace(c: char) {
    c == '\t' || c == '\n' || c == '\U{000B}' || c == '\U{000C}' || c == '\r' ||
    c == ' ' || c == '\U{00A0}' || c == '\U{1680}' ||
    ('\U{2000}' <= c <= '\U{200A}') ||
    c == '\U{2028}' || c == '\U{2029}' || c == '\U{202F}' || c == '\U{205F}' ||
    c == '\U{3000}' || c == '\U{FEFF}'
  }

  predicate AllWhitespace(s: string) {
    forall i :: 0 <= i < |s| ==> IsJsWhitespace(s[i])
  }

  /** Neither end of `s` is whitespace. */
  predicate IsTrimmed(s: string) {
    s == [] || (!IsJsWhitespace(s[0]) && !IsJsWhitespace(s[|s| - 1]))
  }

  /** Drops the leading whitespace: what is dropped is all whitespace, what is kept is a suffix. */
  function TrimStart(s: string): (r: string)
    ensures |r| <= |s| && r == s[|s| - |r|..]
    ensures AllWhitespace(s[..|s| - |r|])
    ensures r == [] || !IsJsWhitespace(r[0])
  {
    if s != [] && IsJsWhitespace(s[0]) then TrimStart(s[1..]) else s
  }

  /** Drops the trailing whitespace: what is dropped is all whitespace, what is kept is a prefix. */
  function TrimEnd(s: string): (r: string)
    ensures |r| <= |s| && r == s[..|r|]
    ensures AllWhitespace(s[|r|..])
    ensures r == [] || !IsJsWhitespace(r[|r| - 1])
  {
    if s != [] && IsJsWhitespace(s[|s| - 1]) then TrimEnd(s[..|s| - 1]) else s
  }

  /** String.prototype.trim. */
  function Trim(s: string): (r: string)
    ensures IsTrimmed(r)
    ensures |r| <= |s|
    ensures r == [] <==> AllWhitespace(s)
  {
    var t := TrimStart(s);
    var r := TrimEnd(t);
    assert r != [] ==> r[0] == t[0];
    BlankIffNothingKept(s, t, r);
    r
  }

  lemma BlankSuffix(s: string, k: nat)
    requires AllWhitespace(s) && k <= |s|
    ensures AllWhitespace(s[k..])
  {
    forall i | 0 <= i < |s| - k ensures IsJsWhitespace(s[k..][i]) {
      assert s[k..][i] == s[k + i];
    }
  }

  lemma BlankIffNothingKept(s: string, t: string, r: string)
    requires t == TrimStart(s) && r == TrimEnd(t)
    ensures r == [] <==> AllWhitespace(s)
  {
    var k := |s| - |t|;
    if r == [] {
      assert t[|r|..] == t;
      assert s[..k] == s;
    }
    if AllWhitespace(s) {
      BlankSuffix(s, k);
    }
  }

  lemma {:induction false} TrimStartPadded(a: string, u: string)
    requires AllWhitespace(a)
    requires u == [] || !IsJsWhitespace(u[0])
    ensures TrimStart(a + u) == u
  {
    if a != [] {
      assert (a + u)[1..] == a[1..] + u;
      TrimStartPadded(a[1..], u);
    } else {
      assert a + u == u;
    }
  }

  lemma {:induction false} TrimEndPadded(u: string, b: string)
    requires AllWhitespace(b)
    requires u == [] || !IsJsWhitespace(u[|u| - 1])
    ensures TrimEnd(u + b) == u
  {
    if b != [] {
      assert (u + b)[..|u + b| - 1] == u + b[..|b| - 1];
      TrimEndPadded(u, b[..|b| - 1]);
    } else {
      assert u + b == u;
    }
  }

  /**
   * Trim's reference characterisation: a trimmed text surrounded by any
   * whitespace trims back to exactly that text.
   */
  lemma TrimOfPadded(a: string, t: string, b: string)
    requires AllWhitespace(a) && AllWhitespace(b) && IsTrimmed(t)
    ensures Trim(a + t + b) == t
  {
    if t == [] {
      assert AllWhitespace(a + t + b) by {
        assert a + t + b == a + b;
      }
    } else {
      assert a + t + b == a + (t + b);
      TrimStartPadded(a, t + b);
      TrimEndPadded(t, b);
    }
  }

  /** A trimmed text is its own trim. */
  lemma TrimOfTrimmed(s: string)
    requires IsTrimmed(s)
    ensures Trim(s) == s
  {
    var none: string := [];
    assert none + s + none == s;
    TrimOfPadded(none, s, none);
  }

  /** Trimming twice is trimming once. */
  lemma TrimIdempotent(s: string)
    ensures Trim(Trim(s)) == Trim(s)
  {
    TrimOfTrimmed(Trim(s));
  }

  predicate IsDigit(c: char) {
    '0' <= c <= '9'
  }

  predicate AllDigits(s: string) {
    forall i :: 0 <= i < |s| ==> IsDigit(s[i])
  }

  function DigitChar(d: nat): (c: char)
    requires d < 10
    ensures IsDigit(c)
  {
    ('0' as int + d) as char
  }

  /** The number a string of decimal digits denotes (leading zeros allowed). */
  function ParseDecimal(s: string): nat
    requires AllDigits(s)
  {
    if s == [] then 0
    else ParseDecimal(s[..|s| - 1]) * 10 + (s[|s| - 1] as int - '0' as int)
  }

  /** Number.prototype.toString() of a natural number: its shortest decimal numeral. */
  function NatToString(n: nat): (r: string)
    ensures AllDigits(r)
    ensures 1 <= |r|
    ensures r[0] == '0' ==> n == 0
    ensures n < 10 ==> |r| == 1
    ensures 10 <= n < 100 ==> |r| == 2
  {
    if n < 10 then [DigitChar(n)] else NatToString(n / 10) + [DigitChar(n % 10)]
  }

  /** The numeral NatToString writes denotes the number it was given. */
  lemma {:induction false} ParseNatToString(n: nat)
    ensures ParseDecimal(NatToString(n)) == n
  {
    var r := NatToString(n);
    if n < 10 {
      assert r[..0] == [];
    } else {
      ParseNatToString(n / 10);
      assert r[..|r| - 1] == NatToString(n / 10);
    }
  }

  /** `n` copies of `c`. */
  function Repeat(c: char, n: nat): (r: string)
    ensures |r| == n
    ensures forall i :: 0 <= i < n ==> r[i] == c
  {
    if n == 0 then [] else [c] + Repeat(c, n - 1)
  }

  /** String.prototype.padStart(targetLength, fill) with a one-character pad string. */
  function PadStart(s: string, targetLength: nat, fill: char): (r: string)
    ensures |r| == if |s| < targetLength then targetLength else |s|
    ensures r[|r| - |s|..] == s
    ensures forall i :: 0 <= i < |r| - |s| ==> r[i] == fill
  {
    if |s| < targetLength then
      var pad := Repeat(fill, targetLength - |s|);
      assert (pad + s)[|pad|..] == s;
      pad + s
    else s
  }

  lemma {:induction false} ParseLeadingZero(s: string)
    requires AllDigits(s)
    ensures AllDigits(['0'] + s) && ParseDecimal(['0'] + s) == ParseDecimal(s)
  {
    var z := ['0'] + s;
    if s != [] {
      assert z[..|z| - 1] == ['0'] + s[..|s| - 1];
      ParseLeadingZero(s[..|s| - 1]);
    } else {
      assert z[..0] == [];
    }
  }

  lemma {:induction false} ParseLeadingZeros(k: nat, s: string)
    requires AllDigits(s)
    ensures AllDigits(Repeat('0', k) + s)
    ensures ParseDecimal(Repeat('0', k) + s) == ParseDecimal(s)
  {
    if k > 0 {
      ParseLeadingZeros(k - 1, s);
      assert Repeat('0', k) + s == ['0'] + (Repeat('0', k - 1) + s);
      ParseLeadingZero(Repeat('0', k - 1) + s);
    } else {
      assert Repeat('0', k) + s == s;
    }
  }

  /** Padding a numeral with zeros on the left keeps the number it denotes. */
  lemma ParseZeroPadded(s: string, targetLength: nat)
    requires AllDigits(s)
    ensures AllDigits(PadStart(s, targetLength, '0'))
    ensures ParseDecimal(PadStart(s, targetLength, '0')) == ParseDecimal(s)
  {
    if |s| < targetLength {
      ParseLeadingZeros(targetLength - |s|, s);
    }
  }
}

module JsRandom {
  /**
   * `Math.floor(Math.random() * n)`: `draw` is the value Math.random()
   * returned, taken as an exact real in [0, 1).
   */
  function RandomIndex(draw: real, n: nat): (i: nat)
    requires 0.0 <= draw < 1.0
    requires n > 0
    ensures i < n
  {
    var x := draw * n as real;
    assert x < n as real by {
      assert (1.0 - draw) * n as real > 0.0;
    }
    x.Floor
  }

  /** Every index of a non-empty list is picked by some draw. */
  lemma RandomIndexReaches(i: nat, n: nat)
    requires i < n
    ensures 0.0 <= i as real / n as real < 1.0
    ensures RandomIndex(i as real / n as real, n) == i
  {
    assert (i as real / n as real) * n as real == i as real;
  }
}
