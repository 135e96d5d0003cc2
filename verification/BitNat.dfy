/** Bits of natural numbers, and C's bitwise operators on them. */
module BitNat {
  function Pow2(n: nat): (p: nat)
    ensures p > 0
  {
    if n == 0 then 1 else 2 * Pow2(n - 1)
  }

  /** Bit k of x, counted from the least significant. */
  predicate Bit(x: nat, k: nat)
    decreases k
  {
    if k == 0 then x % 2 == 1 else Bit(x / 2, k - 1)
  }

  function And(x: nat, y: nat): nat {
    if x == 0 || y == 0 then 0 else 2 * And(x / 2, y / 2) + (x % 2) * (y % 2)
  }

  function Or(x: nat, y: nat): nat
    decreases x + y
  {
    if x == 0 then y else if y == 0 then x
    else 2 * Or(x / 2, y / 2) + if x % 2 == 1 || y % 2 == 1 then 1 else 0
  }

  /** x & ~y */
  function AndNot(x: nat, y: nat): nat {
    if x == 0 then 0 else 2 * AndNot(x / 2, y / 2) + (x % 2) * (1 - y % 2)
  }

  lemma {:induction false} BitOfZero(k: nat)
    ensures !Bit(0, k)
    decreases k
  {
    if k > 0 {
      BitOfZero(k - 1);
    }
  }

  lemma {:induction false} BitOfAnd(x: nat, y: nat, k: nat)
    ensures Bit(And(x, y), k) <==> Bit(x, k) && Bit(y, k)
    decreases k
  {
    if x == 0 || y == 0 {
      BitOfZero(k);
    } else if k > 0 {
      assert And(x, y) / 2 == And(x / 2, y / 2);
      BitOfAnd(x / 2, y / 2, k - 1);
    }
  }

  lemma {:induction false} BitOfOr(x: nat, y: nat, k: nat)
    ensures Bit(Or(x, y), k) <==> Bit(x, k) || Bit(y, k)
    decreases k
  {
    if x == 0 || y == 0 {
      BitOfZero(k);
    } else {
      var h, l := Or(x / 2, y / 2), if x % 2 == 1 || y % 2 == 1 then 1 else 0;
      assert Or(x, y) == 2 * h + l;
      hide Or;
      assert Or(x, y) / 2 == h && Or(x, y) % 2 == l;
      if k > 0 {
        BitOfOr(x / 2, y / 2, k - 1);
      }
    }
  }

  lemma {:induction false} BitOfAndNot(x: nat, y: nat, k: nat)
    ensures Bit(AndNot(x, y), k) <==> Bit(x, k) && !Bit(y, k)
    decreases k
  {
    if x == 0 {
      BitOfZero(k);
    } else if k > 0 {
      assert AndNot(x, y) / 2 == AndNot(x / 2, y / 2);
      BitOfAndNot(x / 2, y / 2, k - 1);
    }
  }

  lemma {:induction false} BitOfPow2(n: nat, k: nat)
    ensures Bit(Pow2(n), k) <==> n == k
    decreases k
  {
    if n == 0 {
      if k > 0 {
        BitOfZero(k - 1);
      }
    } else if k > 0 {
      assert Pow2(n) / 2 == Pow2(n - 1);
      BitOfPow2(n - 1, k - 1);
    }
  }

  /** Numbers below 2^w are determined by their w bits. */
  lemma {:induction false} SameBits(x: nat, y: nat, w: nat)
    requires x < Pow2(w) && y < Pow2(w)
    requires forall k :: 0 <= k < w ==> Bit(x, k) == Bit(y, k)
    ensures x == y
    decreases w
  {
    if w > 0 {
      forall k | 0 <= k < w - 1
        ensures Bit(x / 2, k) == Bit(y / 2, k)
      {
        assert Bit(x, k + 1) == Bit(y, k + 1);
      }
      SameBits(x / 2, y / 2, w - 1);
      assert Bit(x, 0) == Bit(y, 0);
    }
  }

  lemma {:induction false} OrBelow(x: nat, y: nat, w: nat)
    requires x < Pow2(w) && y < Pow2(w)
    ensures Or(x, y) < Pow2(w)
    decreases w
  {
    if w > 0 && x > 0 && y > 0 {
      OrBelow(x / 2, y / 2, w - 1);
    }
  }

  lemma {:induction false} AndBelow(x: nat, y: nat)
    ensures And(x, y) <= x && AndNot(x, y) <= x
    decreases x
  {
    if x > 0 {
      AndBelow(x / 2, y / 2);
    }
  }

  // ----- numbers as bit strings, most significant bit first

  function BitValue(s: seq<bool>): nat {
    if s == [] then 0 else 2 * BitValue(s[..|s| - 1]) + if s[|s| - 1] then 1 else 0
  }

  lemma LastBit(s: seq<bool>)
    requires s != []
    ensures BitValue(s) == 2 * BitValue(s[..|s| - 1]) + if s[|s| - 1] then 1 else 0
  {
  }

  lemma DoubleProduct(x: nat, y: nat)
    ensures 2 * (x * y) == x * (2 * y)
  {
  }

  lemma {:induction false} BitValueConcat(p: seq<bool>, q: seq<bool>)
    ensures BitValue(p + q) == BitValue(p) * Pow2(|q|) + BitValue(q)
    decreases |q|
  {
    if q == [] {
      assert p + q == p;
    } else {
      var q' := q[..|q| - 1];
      LastBit(p + q);
      LastBit(q);
      assert Pow2(|q|) == 2 * Pow2(|q'|);
      hide BitValue, Pow2;
      assert (p + q)[..|p + q| - 1] == p + q';
      BitValueConcat(p, q');
      DoubleProduct(BitValue(p), Pow2(|q'|));
    }
  }

  lemma {:induction false} BitValueBound(q: seq<bool>)
    ensures BitValue(q) < Pow2(|q|)
    decreases |q|
  {
    if q != [] {
      BitValueBound(q[..|q| - 1]);
    }
  }

  function MsbFirst(x: nat, w: nat): (s: seq<bool>)
    ensures |s| == w
  {
    seq(w, i requires 0 <= i < w => Bit(x, w - 1 - i))
  }

  lemma {:induction false} MsbFirstValue(x: nat, w: nat)
    requires x < Pow2(w)
    ensures BitValue(MsbFirst(x, w)) == x
    decreases w
  {
    if w > 0 {
      var s := MsbFirst(x, w);
      var t := MsbFirst(x / 2, w - 1);
      forall i | 0 <= i < w - 1
        ensures s[i] == t[i]
      {
        assert Bit(x, w - 1 - i) == Bit(x / 2, w - 2 - i);
      }
      assert s[..w - 1] == t;
      MsbFirstValue(x / 2, w - 1);
      assert s[w - 1] == Bit(x, 0);
    }
  }
}
