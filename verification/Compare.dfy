/** Comparing message contents: the two comparison functions and the byte order they mean. */
module Comparing {
  import opened Frames

  const TWO_31: int := 0x8000_0000
  const TWO_32: int := 0x1_0000_0000
  const TWO_64: int := 0x1_0000_0000_0000_0000

  function Sign(x: int): int {
    if x < 0 then -1 else if x > 0 then 1 else 0
  }

  /** Lexicographic order of byte strings: -1, 0 or 1. */
  function Lex(a: Content, b: Content): int {
    if a == [] || b == [] then Sign(|a| - |b|)
    else if a[0] != b[0] then Sign(a[0] as int - b[0] as int)
    else Lex(a[1..], b[1..])
  }

  /** The order decided by the bytes that both strings have. */
  function Common(a: Content, b: Content): int {
    if a == [] || b == [] then 0
    else if a[0] != b[0] then Sign(a[0] as int - b[0] as int)
    else Common(a[1..], b[1..])
  }

  /** What `memcmp` over the shorter length may return: an int of which only the sign is
      specified. */
  ghost predicate IsMemcmp(ret: int, a: Content, b: Content) {
    -TWO_31 <= ret < TWO_31 && Sign(ret) == Common(a, b)
  }

  /** Subtraction of sizes as the unsigned 64-bit type does it. */
  function SizeDifference(m: nat, n: nat): nat {
    (m - n) % TWO_64
  }

  /** Conversion of an unsigned 64-bit value to a 32-bit int, which keeps the low half. */
  function ToInt(x: nat): int {
    var low := x % TWO_32;
    if low < TWO_31 then low else low - TWO_32
  }

  /** Both results pass through the unsigned 64-bit type on their way to an int. */
  function MsgCmp(a: Content, b: Content, memcmp: int): int {
    ToInt(if memcmp != 0 then memcmp % TWO_64 else SizeDifference(|a|, |b|))
  }

  function StringFaceCompare(a: Content, b: Content, memcmp: int): int {
    if memcmp != 0 then memcmp
    else if |a| == |b| then 0 else if |a| < |b| then -1 else 1
  }

  // --- the order itself ---------------------------------------------------------------

  lemma {:induction false} LexByCommonPart(a: Content, b: Content)
    ensures Lex(a, b) == if Common(a, b) != 0 then Common(a, b) else Sign(|a| - |b|)
  {
    if a != [] && b != [] {
      LexByCommonPart(a[1..], b[1..]);
    }
  }

  /** The order is total and strict: equal only on equal strings, reversed by swapping. */
  lemma {:induction false} LexIsTotal(a: Content, b: Content)
    ensures (Lex(a, b) == 0 <==> a == b) && Lex(b, a) == -Lex(a, b)
  {
    if a != [] && b != [] {
      LexIsTotal(a[1..], b[1..]);
      if a[1..] == b[1..] && a[0] == b[0] {
        assert a == [a[0]] + a[1..] && b == [b[0]] + b[1..];
      }
    }
  }

  /** `a` comes before `b` at `k`: they agree up to there, and then `a` ends or has the smaller
      byte, as an unsigned number. */
  predicate BeforeAt(a: Content, b: Content, k: nat) {
    && k <= |a| && k < |b| && a[..k] == b[..k]
    && (k == |a| || a[k] as int < b[k] as int)
  }

  lemma FirstAgrees(a: Content, b: Content, k: nat)
    requires BeforeAt(a, b, k)
    ensures k > 0 ==> a != [] && b != [] && a[0] == b[0]
  {
    assert k > 0 ==> a[..k][0] == a[0] && b[..k][0] == b[0];
  }

  /** The order is that of the first difference. */
  lemma {:induction false} LexIsFirstDifference(a: Content, b: Content)
    ensures Lex(a, b) < 0 <==> exists k: nat :: BeforeAt(a, b, k)
    ensures -1 <= Lex(a, b) <= 1
  {
    if a == [] || b == [] {
      assert a == [] && b != [] ==> BeforeAt(a, b, 0);
      assert forall k: nat :: BeforeAt(a, b, k) ==> a == [] && b != [];
    } else if a[0] != b[0] {
      assert (a[0] as int) < b[0] as int ==> BeforeAt(a, b, 0);
      forall k: nat | BeforeAt(a, b, k) ensures k > 0 ==> a[0] == b[0] {
        FirstAgrees(a, b, k);
      }
    } else {
      LexIsFirstDifference(a[1..], b[1..]);
      forall k: nat | BeforeAt(a[1..], b[1..], k) ensures BeforeAt(a, b, k + 1) {
        assert a[..k + 1] == [a[0]] + a[1..][..k] && b[..k + 1] == [b[0]] + b[1..][..k];
      }
      forall k: nat | BeforeAt(a, b, k) ensures k > 0 && BeforeAt(a[1..], b[1..], k - 1) {
        assert a[1..][..k - 1] == a[..k][1..] && b[1..][..k - 1] == b[..k][1..];
      }
    }
  }

  lemma {:induction false} LexIsTransitive(a: Content, b: Content, c: Content)
    requires Lex(a, b) <= 0 && Lex(b, c) <= 0
    ensures Lex(a, c) <= 0 && (Lex(a, b) < 0 || Lex(b, c) < 0 ==> Lex(a, c) < 0)
  {
    if a != [] && b != [] && c != [] && a[0] == b[0] == c[0] {
      LexIsTransitive(a[1..], b[1..], c[1..]);
    }
  }

  // --- what the functions compute -----------------------------------------------------

  /** When the sizes decide, the sign survives the two conversions in these cases only. */
  predicate SizesDecide(m: nat, n: nat) {
    if m >= n then m == n || 0 < (m - n) % TWO_32 < TWO_31
    else 0 < (n - m) % TWO_32 <= TWO_31
  }

  /** The low 32 bits of a difference taken modulo 2^64. */
  lemma LowHalf(m: nat, n: nat)
    requires m < TWO_64 && n < TWO_64
    ensures m >= n ==> SizeDifference(m, n) % TWO_32 == (m - n) % TWO_32
    ensures m < n ==> SizeDifference(m, n) % TWO_32 == (TWO_32 - (n - m) % TWO_32) % TWO_32
  {
    if m >= n {
      assert SizeDifference(m, n) == m - n;
    } else {
      var d := n - m;
      var q, r := d / TWO_32, d % TWO_32;
      assert SizeDifference(m, n) == TWO_64 - d;
      assert TWO_64 - d == TWO_32 * (TWO_32 - q - 1) + (TWO_32 - r);
      if r == 0 {
        assert TWO_64 - d == TWO_32 * (TWO_32 - q);
      }
    }
  }

  lemma IntSurvives(x: int)
    requires -TWO_31 <= x < TWO_31
    ensures ToInt(x % TWO_64) == x
  {
    if x < 0 {
      assert x % TWO_64 == TWO_64 + x;
      assert TWO_64 + x == TWO_32 * (TWO_32 - 1) + (TWO_32 + x);
    }
  }

  /** What becomes of the difference of two sizes on its way to an int. */
  lemma SizesExact(m: nat, n: nat)
    requires m < TWO_64 && n < TWO_64
    ensures Sign(ToInt(SizeDifference(m, n))) == Sign(m - n) <==> SizesDecide(m, n)
  {
    LowHalf(m, n);
  }

  /** `msgcmp` has the sign of the byte order exactly when the bytes in common decide or the
      sizes do not differ by so much that the conversion to int loses the sign. */
  lemma MsgCmpExact(a: Content, b: Content, memcmp: int)
    requires |a| < TWO_64 && |b| < TWO_64 && IsMemcmp(memcmp, a, b)
    ensures Sign(MsgCmp(a, b, memcmp)) == Lex(a, b) <==> memcmp != 0 || SizesDecide(|a|, |b|)
  {
    hide Lex, Common, ToInt, SizeDifference, SizesDecide;
    LexByCommonPart(a, b);
    if memcmp != 0 {
      IntSurvives(memcmp);
    } else {
      SizesExact(|a|, |b|);
    }
  }

  /** Below 2^31 bytes it always has. */
  lemma MsgCmpInRange(a: Content, b: Content, memcmp: int)
    requires |a| < TWO_31 && |b| < TWO_31 && IsMemcmp(memcmp, a, b)
    ensures Sign(MsgCmp(a, b, memcmp)) == Lex(a, b)
    ensures MsgCmp(a, b, memcmp) == 0 <==> a == b
  {
    hide Lex, Common, MsgCmp;
    MsgCmpExact(a, b, memcmp);
    LexIsTotal(a, b);
  }

  lemma {:induction false} CommonWithEmpty(a: Content, b: Content)
    requires a == [] || b == []
    ensures Common(a, b) == 0 && IsMemcmp(0, a, b)
  {
  }

  /** Beyond that it fails both ways: a string of 2^32 bytes compares equal to the empty one,
      and of one of 2^31 bytes and the empty one each compares below the other. */
  lemma MsgCmpFails(a: Content, b: Content)
    requires |a| == TWO_32 && |b| == TWO_31
    ensures IsMemcmp(0, a, []) && a != [] && MsgCmp(a, [], 0) == 0
    ensures IsMemcmp(0, b, []) && IsMemcmp(0, [], b) && MsgCmp(b, [], 0) < 0 && MsgCmp([], b, 0) < 0
  {
    CommonWithEmpty(a, []);
    CommonWithEmpty(b, []);
    CommonWithEmpty([], b);
    LowHalf(0, TWO_31);
    LowHalf(TWO_31, 0);
  }

  /** `StringFace::compare` has the sign of the byte order for all sizes; where sizes are in
      range the two functions agree. */
  lemma StringFaceExact(a: Content, b: Content, memcmp: int, memcmp': int)
    requires IsMemcmp(memcmp, a, b) && IsMemcmp(memcmp', a, b)
    ensures Sign(StringFaceCompare(a, b, memcmp)) == Lex(a, b)
    ensures |a| < TWO_31 && |b| < TWO_31 ==>
              Sign(StringFaceCompare(a, b, memcmp)) == Sign(MsgCmp(a, b, memcmp'))
  {
    LexByCommonPart(a, b);
    if |a| < TWO_31 && |b| < TWO_31 {
      MsgCmpInRange(a, b, memcmp');
    }
  }

  /** The `<` used for sorting is a strict total order on contents, whatever the values that
      `memcmp` returns. */
  lemma StringFaceOrder(a: Content, b: Content, c: Content, ab: int, ba: int, bc: int, ac: int)
    requires IsMemcmp(ab, a, b) && IsMemcmp(ba, b, a) && IsMemcmp(bc, b, c) && IsMemcmp(ac, a, c)
    ensures var less, more := StringFaceCompare(a, b, ab) < 0, StringFaceCompare(b, a, ba) < 0;
            && !(less && more) && (a == b <==> !less && !more)
            && (less && StringFaceCompare(b, c, bc) < 0 ==> StringFaceCompare(a, c, ac) < 0)
  {
    StringFaceExact(a, b, ab, ab);
    StringFaceExact(b, a, ba, ba);
    StringFaceExact(b, c, bc, bc);
    StringFaceExact(a, c, ac, ac);
    LexIsTotal(a, b);
    if Lex(a, b) < 0 && Lex(b, c) < 0 {
      LexIsTransitive(a, b, c);
    }
  }
}
