/**
 * Output file names `layer_{i:04d}.png`: the loop index in decimal, left-filled
 * with '0' to at least four digits (never truncated), between a fixed prefix and
 * suffix. A parser and Python's string ordering are defined alongside so that
 * injectivity and sort order can be stated.
 */
module Naming {
  import opened Wrappers

  const Prefix: string := "layer_"
  const Suffix: string := ".png"
  /** Minimum digit count of the index field. */
  const Width: nat := 4

  predicate IsDigit(c: char) { '0' <= c <= '9' }

  predicate AllDigits(s: string) { forall k :: 0 <= k < |s| ==> IsDigit(s[k]) }

  function DigitValue(c: char): (d: nat)
    requires IsDigit(c)
    ensures d < 10
  {
    c as int - '0' as int
  }

  function DigitChar(d: nat): (c: char)
    requires d < 10
    ensures IsDigit(c) && DigitValue(c) == d
  {
    ('0' as int + d) as char
  }

  function Pow10(k: nat): (p: nat)
    ensures 1 <= p
  {
    if k == 0 then 1 else 10 * Pow10(k - 1)
  }

  /** Value of a digit string read most significant first; leading zeros are allowed. */
  function ValueOf(s: string): nat
    requires AllDigits(s)
    decreases |s|
  {
    if |s| == 0 then 0 else DigitValue(s[0]) * Pow10(|s| - 1) + ValueOf(s[1..])
  }

  /** Decimal digits of `n` without leading zeros, as `%d` prints a non-negative int. */
  function Decimal(n: nat): (s: string)
    ensures 1 <= |s| && AllDigits(s)
    ensures n > 0 ==> s[0] != '0'
    decreases n
  {
    if n < 10 then [DigitChar(n)] else Decimal(n / 10) + [DigitChar(n % 10)]
  }

  function Zeros(k: nat): (s: string)
    ensures |s| == k && AllDigits(s)
  {
    seq(k, _ => '0')
  }

  /** `s` left-filled with '0' up to `width` characters; a longer `s` is kept whole. */
  function ZeroPad(s: string, width: nat): (r: string)
    ensures |r| == if |s| < width then width else |s|
    ensures r[|r| - |s|..] == s
    ensures forall k :: 0 <= k < |r| - |s| ==> r[k] == '0'
  {
    if |s| < width then Zeros(width - |s|) + s else s
  }

  /** The index field of a layer's file name. */
  function IndexField(i: nat): (f: string)
    ensures AllDigits(f) && Width <= |f|
  {
    ZeroPad(Decimal(i), Width)
  }

  /** File name written for loop index `i`. */
  function LayerName(i: nat): string {
    Prefix + IndexField(i) + Suffix
  }

  /** Reads a layer index back from a file name, if it has the layer-name shape. */
  function ParseLayerName(s: string): Option<nat> {
    if |Prefix| + Width + |Suffix| <= |s| && s[..|Prefix|] == Prefix && s[|s| - |Suffix|..] == Suffix
       && AllDigits(s[|Prefix|..|s| - |Suffix|])
    then Some(ValueOf(s[|Prefix|..|s| - |Suffix|]))
    else None
  }

  /** Python's `<` on strings: lexicographic by code point, a proper prefix first. */
  predicate StrLess(a: string, b: string)
    decreases |a|
  {
    if |a| == 0 then 0 < |b|
    else if |b| == 0 then false
    else a[0] < b[0] || (a[0] == b[0] && StrLess(a[1..], b[1..]))
  }

  // ---------------------------------------------------------------- digit values

  /** Unfolds `ValueOf` once: the leading digit weighted by its place, plus the rest. */
  lemma ValueOfHead(s: string)
    requires AllDigits(s) && 0 < |s|
    ensures AllDigits(s[1..])
    ensures ValueOf(s) == DigitValue(s[0]) * Pow10(|s| - 1) + ValueOf(s[1..])
  {
  }

  lemma ShiftPlace(d: nat, p: nat, v: nat, e: nat)
    ensures d * (10 * p) + (v * 10 + e) == (d * p + v) * 10 + e
  {
  }

  lemma {:induction false} ValueOfAppendDigit(s: string, c: char)
    requires AllDigits(s) && IsDigit(c)
    ensures AllDigits(s + [c])
    ensures ValueOf(s + [c]) == ValueOf(s) * 10 + DigitValue(c)
    decreases |s|
  {
    var t := s + [c];
    if |s| == 0 {
      assert t == [c];
      ValueOfHead(t);
      assert t[1..] == [];
    } else {
      assert t[0] == s[0];
      assert t[1..] == s[1..] + [c];
      ValueOfHead(s);
      ValueOfHead(t);
      ValueOfAppendDigit(s[1..], c);
      assert Pow10(|t| - 1) == 10 * Pow10(|s| - 1);
      ShiftPlace(DigitValue(s[0]), Pow10(|s| - 1), ValueOf(s[1..]), DigitValue(c));
    }
  }

  /** Reading back the decimal digits of `n` gives `n`. */
  lemma {:induction false} ValueOfDecimal(n: nat)
    ensures ValueOf(Decimal(n)) == n
    decreases n
  {
    if n >= 10 {
      ValueOfDecimal(n / 10);
      ValueOfAppendDigit(Decimal(n / 10), DigitChar(n % 10));
    }
  }

  /** Leading zeros do not change a digit string's value. */
  lemma {:induction false} ValueOfLeadingZeros(k: nat, s: string)
    requires AllDigits(s)
    ensures AllDigits(Zeros(k) + s)
    ensures ValueOf(Zeros(k) + s) == ValueOf(s)
    decreases k
  {
    if k > 0 {
      var t := Zeros(k) + s;
      assert t[0] == '0' && DigitValue(t[0]) == 0;
      assert t[1..] == Zeros(k - 1) + s;
      ValueOfLeadingZeros(k - 1, s);
      assert ValueOf(t) == 0 * Pow10(|t| - 1) + ValueOf(t[1..]);
    } else {
      assert Zeros(k) + s == s;
    }
  }

  lemma PlaceBound(d: nat, p: nat, v: nat)
    requires d < 10 && v < p
    ensures d * p + v < 10 * p
  {
    assert (9 - d) * p >= 0;
    assert 10 * p == d * p + (9 - d) * p + p;
  }

  lemma {:induction false} ValueOfBound(s: string)
    requires AllDigits(s)
    ensures ValueOf(s) < Pow10(|s|)
    decreases |s|
  {
    if |s| > 0 {
      ValueOfHead(s);
      ValueOfBound(s[1..]);
      PlaceBound(DigitValue(s[0]), Pow10(|s| - 1), ValueOf(s[1..]));
    }
  }

  /** Below 10^k, `n` has at most k decimal digits. */
  lemma {:induction false} DecimalLength(n: nat, k: nat)
    requires 1 <= k && n < Pow10(k)
    ensures |Decimal(n)| <= k
    decreases n
  {
    if n >= 10 {
      assert Pow10(1) == 10;
      assert 2 <= k;
      assert n / 10 < Pow10(k - 1);
      DecimalLength(n / 10, k - 1);
    }
  }

  /** The index field always reads back as the index: padding adds zeros and never truncates. */
  lemma IndexFieldValue(i: nat)
    ensures ValueOf(IndexField(i)) == i
    ensures IndexField(i)[|IndexField(i)| - |Decimal(i)|..] == Decimal(i)
  {
    var d := Decimal(i);
    ValueOfDecimal(i);
    if |d| < Width {
      ValueOfLeadingZeros(Width - |d|, d);
    }
  }

  // ---------------------------------------------------------------- file names

  lemma LayerNameSplit(i: nat)
    ensures var s := LayerName(i);
      && |Prefix| + Width + |Suffix| <= |s|
      && s[..|Prefix|] == Prefix
      && s[|s| - |Suffix|..] == Suffix
      && s[|Prefix|..|s| - |Suffix|] == IndexField(i)
  {
    var f := IndexField(i);
    var s := LayerName(i);
    assert s == Prefix + f + Suffix;
    assert s[..|Prefix|] == Prefix;
    assert s[|s| - |Suffix|..] == Suffix;
    assert s[|Prefix|..|s| - |Suffix|] == f;
  }

  /** Parsing a generated name recovers its index. */
  lemma LayerNameRoundTrip(i: nat)
    ensures ParseLayerName(LayerName(i)) == Some(i)
  {
    LayerNameSplit(i);
    IndexFieldValue(i);
  }

  /** Distinct indices give distinct file names, so no layer overwrites another. */
  lemma LayerNameInjective(i: nat, j: nat)
    ensures LayerName(i) == LayerName(j) ==> i == j
  {
    LayerNameRoundTrip(i);
    LayerNameRoundTrip(j);
  }

  /** Names are 10 characters plus the index field; below 10000 all have length 14. */
  lemma LayerNameLength(i: nat)
    ensures |LayerName(i)| == |Prefix| + |Suffix| + (if |Decimal(i)| < Width then Width else |Decimal(i)|)
    ensures i < 10000 ==> |LayerName(i)| == 14
  {
    if i < 10000 {
      assert Pow10(4) == 10000;
      DecimalLength(i, 4);
    }
  }

  // ---------------------------------------------------------------- ordering

  lemma {:induction false} StrLessIrreflexive(a: string)
    ensures !StrLess(a, a)
    decreases |a|
  {
    if |a| > 0 {
      StrLessIrreflexive(a[1..]);
    }
  }

  /** Comparing strings of equal-length heads: the heads decide unless they are equal. */
  lemma {:induction false} StrLessEqualLengthHeads(a: string, b: string, u: string, v: string)
    requires |a| == |b|
    ensures StrLess(a + u, b + v) == (StrLess(a, b) || (a == b && StrLess(u, v)))
    decreases |a|
  {
    if |a| > 0 {
      assert (a + u)[0] == a[0] && (b + v)[0] == b[0];
      assert (a + u)[1..] == a[1..] + u;
      assert (b + v)[1..] == b[1..] + v;
      StrLessEqualLengthHeads(a[1..], b[1..], u, v);
      if a[0] == b[0] {
        assert (a == b) == (a[1..] == b[1..]) by {
          if a[1..] == b[1..] {
            assert a == [a[0]] + a[1..] && b == [b[0]] + b[1..];
          }
        }
      }
    } else {
      assert a + u == u && b + v == v;
    }
  }

  /** A smaller leading digit wins whatever follows it. */
  lemma LeadingDigitDecides(da: nat, db: nat, ra: nat, rb: nat, p: nat)
    requires da < db && ra < p
    ensures da * p + ra < db * p + rb
  {
    assert (db - da - 1) * p >= 0;
    assert db * p == da * p + p + (db - da - 1) * p;
  }

  /** For digit strings of equal length, string order is numeric order. */
  lemma {:induction false} DigitStringOrder(a: string, b: string)
    requires |a| == |b| && AllDigits(a) && AllDigits(b)
    ensures ValueOf(a) < ValueOf(b) <==> StrLess(a, b)
    decreases |a|
  {
    if |a| > 0 {
      var da, db := DigitValue(a[0]), DigitValue(b[0]);
      var ra, rb := ValueOf(a[1..]), ValueOf(b[1..]);
      var p := Pow10(|a| - 1);
      ValueOfHead(a);
      ValueOfHead(b);
      ValueOfBound(a[1..]);
      ValueOfBound(b[1..]);
      if da < db {
        LeadingDigitDecides(da, db, ra, rb, p);
        assert a[0] < b[0];
      } else if db < da {
        LeadingDigitDecides(db, da, rb, ra, p);
        assert b[0] < a[0];
      } else {
        assert a[0] == b[0];
        DigitStringOrder(a[1..], b[1..]);
      }
    }
  }

  /** Below 10000 the index field is exactly four digits wide. */
  lemma IndexFieldWidth(i: nat)
    requires i < 10000
    ensures |IndexField(i)| == Width
  {
    assert Pow10(4) == 10000;
    DecimalLength(i, 4);
  }

  /** Names that share prefix and suffix compare as their equal-length middles do. */
  lemma FramedOrder(p: string, a: string, b: string, q: string)
    requires |a| == |b|
    ensures StrLess(p + a + q, p + b + q) <==> StrLess(a, b)
  {
    assert p + a + q == p + (a + q);
    assert p + b + q == p + (b + q);
    StrLessIrreflexive(p);
    StrLessEqualLengthHeads(p, p, a + q, b + q);
    StrLessIrreflexive(q);
    StrLessEqualLengthHeads(a, b, q, q);
  }

  /**
   * For indices below 10000 every name has the same length and Python's string
   * order on names is the numeric order of the indices.
   */
  lemma LayerNameOrder(i: nat, j: nat)
    requires i < 10000 && j < 10000
    ensures |LayerName(i)| == |LayerName(j)|
    ensures i < j <==> StrLess(LayerName(i), LayerName(j))
  {
    IndexFieldWidth(i);
    IndexFieldWidth(j);
    IndexFieldValue(i);
    IndexFieldValue(j);
    DigitStringOrder(IndexField(i), IndexField(j));
    FramedOrder(Prefix, IndexField(i), IndexField(j), Suffix);
  }

  /** One more digit on the right: `Decimal(n)` for n >= 10 is `Decimal(n / 10)` then the last digit. */
  lemma DecimalStep(n: nat, d: string, c: char)
    requires 10 <= n && Decimal(n / 10) == d && c == DigitChar(n % 10)
    ensures Decimal(n) == d + [c]
  {
  }

  lemma DecimalOf10000()
    ensures Decimal(10000) == "10000"
  {
    assert DigitChar(0) == '0' && DigitChar(1) == '1';
    assert Decimal(1) == "1";
    DecimalStep(10, "1", '0');
    DecimalStep(100, "10", '0');
    DecimalStep(1000, "100", '0');
    DecimalStep(10000, "1000", '0');
  }

  lemma DecimalOf9999()
    ensures Decimal(9999) == "9999"
  {
    assert DigitChar(9) == '9';
    assert Decimal(9) == "9";
    DecimalStep(99, "9", '9');
    DecimalStep(999, "99", '9');
    DecimalStep(9999, "999", '9');
  }

  lemma LayerNamesAround10000()
    ensures LayerName(10000) == Prefix + ("10000" + Suffix)
    ensures LayerName(9999) == Prefix + ("9999" + Suffix)
  {
    DecimalOf10000();
    DecimalOf9999();
    assert IndexField(10000) == "10000";
    assert IndexField(9999) == "9999";
  }

  /**
   * The four-digit field does not bound the index: index 10000 gets a five-digit
   * field, and its name sorts before the name of index 9999.
   */
  lemma LayerNameOrderBreaksAt10000()
    ensures |LayerName(10000)| == 15
    ensures StrLess(LayerName(10000), LayerName(9999))
  {
    LayerNamesAround10000();
    StrLessIrreflexive(Prefix);
    StrLessEqualLengthHeads(Prefix, Prefix, "10000" + Suffix, "9999" + Suffix);
    assert ("10000" + Suffix)[0] == '1' && ("9999" + Suffix)[0] == '9';
  }
}
