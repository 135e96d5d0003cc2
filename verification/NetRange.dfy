/** Network and broadcast address as the ends of a range of numbers (section 3.1 of RFC 4632). */
module NetRange {
  import opened Bytes
  import opened BitNat
  import opened NetCalc

  /** An address as the number it stands for in network byte order. */
  function Value(b: seq<Byte>): nat {
    if b == [] then 0 else 256 * Value(b[..|b| - 1]) + b[|b| - 1]
  }

  function BitsOf(b: seq<Byte>): (s: seq<bool>)
    ensures |s| == 8 * |b|
  {
    seq(8 * |b|, i requires 0 <= i < 8 * |b| => GBit(b, i))
  }

  lemma {:induction false} BitValueInjective(p: seq<bool>, q: seq<bool>)
    requires |p| == |q| && BitValue(p) == BitValue(q)
    ensures p == q
    decreases |p|
  {
    if p != [] {
      BitValueInjective(p[..|p| - 1], q[..|q| - 1]);
      assert p == p[..|p| - 1] + [p[|p| - 1]] && q == q[..|q| - 1] + [q[|q| - 1]];
    }
  }

  lemma {:induction false} Constant(q: seq<bool>, v: bool)
    requires forall i :: 0 <= i < |q| ==> q[i] == v
    ensures BitValue(q) == if v then Pow2(|q|) - 1 else 0
    decreases |q|
  {
    if q != [] {
      Constant(q[..|q| - 1], v);
    }
  }

  // ----- bytes and bits denote the same number

  lemma {:induction false} BitsDenoteValue(b: seq<Byte>)
    ensures BitValue(BitsOf(b)) == Value(b)
    decreases |b|
  {
    if b != [] {
      var front, x := b[..|b| - 1], b[|b| - 1];
      BitsDenoteValue(front);
      PowerEight();
      hide Bit, Pow2;
      MsbFirstValue(x, 8);
      forall i | 0 <= i < 8 * |b|
        ensures BitsOf(b)[i] == (BitsOf(front) + MsbFirst(x, 8))[i]
      {
        if i >= 8 * |front| {
          var j := i - 8 * |front|;
          assert i / 8 == |front| && i % 8 == j;
        }
      }
      assert BitsOf(b) == BitsOf(front) + MsbFirst(x, 8);
      BitValueConcat(BitsOf(front), MsbFirst(x, 8));
    }
  }

  // ----- the block of a prefix is a range

  ghost predicate SamePrefix(x: seq<Byte>, a: seq<Byte>, n: nat)
    requires |x| == |a| && n <= 8 * |a|
  {
    forall k :: 0 <= k < n ==> GBit(x, k) == GBit(a, k)
  }

  lemma InRange(p: nat, q: nat, size: nat, v: nat)
    requires v < size
    ensures p * size <= q * size + v <= p * size + (size - 1) <==> p == q
  {
    if p < q {
      assert q * size >= (p + 1) * size == p * size + size;
    } else if q < p {
      assert p * size >= (q + 1) * size == q * size + size;
    }
  }

  /** The addresses from the network to the broadcast address are exactly those with the same prefix. */
  lemma BlockIsRange(a: seq<Byte>, n: nat, lo: seq<Byte>, hi: seq<Byte>, x: seq<Byte>)
    requires n <= 8 * |a| && |x| == |a|
    requires IsNetwork(lo, a, n) && IsBroadcast(hi, a, n)
    ensures Value(lo) <= Value(x) <= Value(hi) <==> SamePrefix(x, a, n)
  {
    hide GBit, Value, BitValue, Pow2;
    var w := 8 * |a|;
    var P, Q, v := BitsOf(a)[..n], BitsOf(x)[..n], BitsOf(x)[n..];
    var zeros, ones := BitsOf(lo)[n..], BitsOf(hi)[n..];
    assert BitsOf(lo) == P + zeros && BitsOf(hi) == P + ones && BitsOf(x) == Q + v;
    BitsDenoteValue(lo);
    BitsDenoteValue(hi);
    BitsDenoteValue(x);
    BitValueConcat(P, zeros);
    BitValueConcat(P, ones);
    BitValueConcat(Q, v);
    Constant(zeros, false);
    Constant(ones, true);
    BitValueBound(v);
    InRange(BitValue(P), BitValue(Q), Pow2(w - n), BitValue(v));
    assert P == Q <==> SamePrefix(x, a, n) by {
      if SamePrefix(x, a, n) {
        assert forall k :: 0 <= k < n ==> Q[k] == P[k];
      } else {
        var k :| 0 <= k < n && GBit(x, k) != GBit(a, k);
        assert P[k] != Q[k];
      }
    }
    if BitValue(P) == BitValue(Q) {
      BitValueInjective(P, Q);
    }
  }
}
