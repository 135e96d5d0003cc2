/** netcalc: CIDR arithmetic on IPv4 and IPv6 addresses, bit by bit over byte arrays. */
module NetCalc {
  import opened Bytes
  import opened BitNat

  const ERR_UNKNOWN_TYPE: int := -1
  const ERR_INVALID_NETMASK: int := -3
  const ERR_INVALID_NETBITMASK: int := -4
  const ERR_COMBINATION_FAILED: int := -7

  datatype Family = Inet | Inet6 | Invalid(code: int)

  /** Bit i of an address, counted from the most significant bit of the first byte. */
  predicate GBit(b: seq<Byte>, i: nat)
    requires i < 8 * |b|
  {
    Bit(b[i / 8], 7 - i % 8)
  }

  function Edited(x: Byte, m: nat, put: bool): nat {
    if put then Or(x, m) else AndNot(x, m)
  }

  lemma EditBit(x: Byte, j: nat, put: bool, t: nat)
    requires j < 8 && t < 8
    ensures Edited(x, Pow2(j), put) < 256
    ensures Bit(Edited(x, Pow2(j), put), t) == if t == j then put else Bit(x, t)
  {
    MaskBelow(j);
    PowerEight();
    hide Or, AndNot, Pow2, Bit;
    OrBelow(x, Pow2(j), 8);
    AndBelow(x, Pow2(j));
    BitOfOr(x, Pow2(j), t);
    BitOfAndNot(x, Pow2(j), t);
    BitOfPow2(j, t);
  }

  lemma EditAt(b: seq<Byte>, i: nat, put: bool, k: nat)
    requires i < 8 * |b| && k < 8 * |b|
    ensures var v := Edited(b[i / 8], Pow2(7 - i % 8), put);
            v < 256 && GBit(b[i / 8 := v], k) == if k == i then put else GBit(b, k)
  {
    hide Edited, Pow2, Bit;
    EditBit(b[i / 8], 7 - i % 8, put, 7 - k % 8);
    assert i == 8 * (i / 8) + i % 8 && k == 8 * (k / 8) + k % 8;
  }

  /** Setting or clearing one bit through a one-bit mask touches that bit only. */
  lemma EditOne(b: seq<Byte>, i: nat, put: bool)
    requires i < 8 * |b|
    ensures var v := Edited(b[i / 8], Pow2(7 - i % 8), put);
            v < 256 && forall k :: 0 <= k < 8 * |b| ==> GBit(b[i / 8 := v], k) == if k == i then put else GBit(b, k)
  {
    hide Edited, Pow2, GBit;
    EditAt(b, i, put, i);
    var v := Edited(b[i / 8], Pow2(7 - i % 8), put);
    forall k | 0 <= k < 8 * |b|
      ensures GBit(b[i / 8 := v], k) == if k == i then put else GBit(b, k)
    {
      EditAt(b, i, put, k);
    }
  }

  lemma MaskBelow(k: nat)
    requires k <= 7
    ensures Pow2(k) < 256 && Pow2(7) == 0x80 && Pow2(0) == 1
    ensures k > 0 ==> Pow2(k) / 2 == Pow2(k - 1) > 0
    ensures k == 0 ==> Pow2(k) / 2 == 0
  {
    assert Pow2(1) == 2 && Pow2(2) == 4 && Pow2(3) == 8 && Pow2(4) == 16 && Pow2(5) == 32 && Pow2(6) == 64;
    assert k == 0 || k == 1 || k == 2 || k == 3 || k == 4 || k == 5 || k == 6 || k == 7;
  }

  /** The loop four of the conversions share: a sliding one-bit mask that moves on to the next byte when
      it runs out, editing `count` bits from bit `from` on. */
  method EditBits(a: array<Byte>, from: nat, count: nat, put: bool)
    requires from + count <= 8 * a.Length
    modifies a
    ensures forall k :: 0 <= k < 8 * a.Length ==>
              GBit(a[..], k) == if from <= k < from + count then put else old(GBit(a[..], k))
  {
    hide Bit, Or, AndNot, Pow2, GBit;
    var p := from / 8;
    MaskBelow(7 - from % 8);
    var bitmask := MaskFor(from % 8);
    var bits := count;
    ghost var start := a[..];
    while bits > 0
      invariant 0 <= bits <= count && |start| == a.Length
      invariant p == (from + count - bits) / 8
      invariant bitmask == Pow2(7 - (from + count - bits) % 8)
      invariant forall k :: 0 <= k < 8 * a.Length ==>
                  GBit(a[..], k) == if from <= k < from + count - bits then put else GBit(start, k)
    {
      ghost var i, before := from + count - bits, a[..];
      EditOne(before, i, put);
      a[p] := Edited(a[p], bitmask, put);
      assert a[..] == before[p := a[p]];
      assert forall k :: 0 <= k < 8 * a.Length ==> GBit(a[..], k) == if k == i then put else GBit(before, k);
      assert forall k :: 0 <= k < 8 * a.Length ==>
               GBit(before, k) == if from <= k < i then put else GBit(start, k);
      bits := bits - 1;
      MaskBelow(7 - i % 8);
      assert if i % 8 == 7 then (i + 1) % 8 == 0 && (i + 1) / 8 == p + 1
             else (i + 1) % 8 == i % 8 + 1 && (i + 1) / 8 == p;
      assert 7 - i % 8 - 1 == 7 - (i % 8 + 1);
      bitmask := bitmask / 2;
      if bitmask == 0 {
        bitmask := 0x80;
        p := p + 1;
      }
    }
  }

  /** `0x80 >> k`. */
  function MaskFor(k: nat): (m: nat)
    requires k < 8
    ensures m == Pow2(7 - k)
  {
    MaskBelow(7 - k);
    assert Pow2(1) == 2 && Pow2(2) == 4 && Pow2(3) == 8 && Pow2(4) == 16 && Pow2(5) == 32 && Pow2(6) == 64;
    [0x80, 0x40, 0x20, 0x10, 8, 4, 2, 1][k]
  }

  lemma {:induction false} NonzeroHasBit(x: nat, w: nat)
    requires 0 < x < Pow2(w)
    ensures exists k :: 0 <= k < w && Bit(x, k)
    decreases w
  {
    if x % 2 == 1 {
      assert Bit(x, 0);
    } else {
      NonzeroHasBit(x / 2, w - 1);
      var k :| 0 <= k < w - 1 && Bit(x / 2, k);
      assert Bit(x, k + 1);
    }
  }

  /** `(x & bitmask) != 0` tests the bit of a one-bit mask. */
  lemma AndTests(x: Byte, k: nat)
    requires k < 8
    ensures And(x, Pow2(k)) != 0 <==> Bit(x, k)
  {
    hide And, Bit, Pow2;
    var r := And(x, Pow2(k));
    BitOfAnd(x, Pow2(k), k);
    BitOfPow2(k, k);
    BitOfZero(k);
    AndBelow(x, Pow2(k));
    if r != 0 {
      assert Pow2(8) == 256 by { assert 256 == 2 * 128; PowerEight(); }
      NonzeroHasBit(r, 8);
      var j :| 0 <= j < 8 && Bit(r, j);
      BitOfAnd(x, Pow2(k), j);
      BitOfPow2(k, j);
    }
  }

  lemma PowerEight()
    ensures Pow2(8) == 256
  {
  }

  /** `struct Address`, with the union as a byte array. */
  class Address {
    var family: Family
    const bytes: array<Byte>
    var netmaskbits: nat

    ghost predicate Valid()
      reads this
    {
      (family.Inet? ==> bytes.Length == 4) && (family.Inet6? ==> bytes.Length == 16)
    }

    constructor (family: Family, value: seq<Byte>, netmaskbits: nat)
      requires (family.Inet? ==> |value| == 4) && (family.Inet6? ==> |value| == 16)
      ensures Valid() && fresh(bytes) && bytes[..] == value
      ensures this.family == family && this.netmaskbits == netmaskbits
    {
      this.family := family;
      this.netmaskbits := netmaskbits;
      bytes := new Byte[|value|](i requires 0 <= i < |value| => value[i]);
      new;
      assert bytes[..] == value;
    }

    /** `convertCIDRToNetmask`. */
    method ToNetmask() returns (ok: bool)
      requires Valid()
      modifies this`family, bytes
      ensures Valid()
      ensures old(family).Invalid? ==> !ok && family == old(family) && bytes[..] == old(bytes[..])
      ensures !old(family).Invalid? ==>
                && (ok <==> netmaskbits <= 8 * bytes.Length)
                && family == (if ok then old(family) else Invalid(-4))
                && forall k :: 0 <= k < 8 * bytes.Length ==> (GBit(bytes[..], k) <==> k < netmaskbits)
    {
      if family.Invalid? {
        return false;
      }
      forall i | 0 <= i < bytes.Length {
        bytes[i] := 0;
      }
      ZeroBits(bytes[..]);
      hide GBit;
      EditBits(bytes, 0, Min(netmaskbits, 8 * bytes.Length), true);
      if netmaskbits > 8 * bytes.Length {
        family := Invalid(ERR_INVALID_NETBITMASK);
        return false;
      }
      return true;
    }

    /** `convertCIDRToNetwork`. */
    method ToNetwork() returns (ok: bool)
      requires Valid()
      modifies bytes
      ensures ok <==> !family.Invalid?
      ensures !ok ==> bytes[..] == old(bytes[..])
      ensures ok ==> forall k :: 0 <= k < 8 * bytes.Length ==>
                (GBit(bytes[..], k) <==> k < netmaskbits && old(GBit(bytes[..], k)))
    {
      if family.Invalid? {
        return false;
      }
      hide GBit;
      var bits := 8 * bytes.Length - netmaskbits;
      if bits > 0 {
        EditBits(bytes, netmaskbits, bits, false);
      }
      return true;
    }

    /** `convertCIDRToHost`, for a prefix length that parsing has checked. */
    method ToHost() returns (ok: bool)
      requires Valid() && netmaskbits <= 8 * bytes.Length
      modifies bytes
      ensures ok <==> !family.Invalid?
      ensures !ok ==> bytes[..] == old(bytes[..])
      ensures ok ==> forall k :: 0 <= k < 8 * bytes.Length ==>
                (GBit(bytes[..], k) <==> k >= netmaskbits && old(GBit(bytes[..], k)))
    {
      if family.Invalid? {
        return false;
      }
      hide GBit;
      EditBits(bytes, 0, netmaskbits, false);
      return true;
    }

    /** `convertCIDRToBroadcast`. */
    method ToBroadcast() returns (ok: bool)
      requires Valid()
      modifies bytes
      ensures ok <==> !family.Invalid?
      ensures !ok ==> bytes[..] == old(bytes[..])
      ensures ok ==> forall k :: 0 <= k < 8 * bytes.Length ==>
                (GBit(bytes[..], k) <==> k >= netmaskbits || old(GBit(bytes[..], k)))
    {
      if family.Invalid? {
        return false;
      }
      hide GBit;
      var bits := 8 * bytes.Length - netmaskbits;
      if bits > 0 {
        EditBits(bytes, netmaskbits, bits, true);
      }
      return true;
    }

    /** The first loop of convertNetmaskToCIDR: counts leading ones. */
    method CountOnes() returns (p: nat, bitmask: nat)
      modifies this`netmaskbits
      ensures netmaskbits <= 8 * bytes.Length && p == netmaskbits / 8
      ensures forall k :: 0 <= k < netmaskbits ==> GBit(bytes[..], k)
      ensures netmaskbits < 8 * bytes.Length ==>
                bitmask == Pow2(7 - netmaskbits % 8) && !GBit(bytes[..], netmaskbits)
    {
      hide Bit, And, Pow2;
      netmaskbits, p, bitmask := 0, 0, 0;
      while p < bytes.Length
        invariant p <= bytes.Length && netmaskbits == 8 * p
        invariant forall k :: 0 <= k < netmaskbits ==> GBit(bytes[..], k)
      {
        MaskBelow(7);
        bitmask := 0x80;
        ghost var j := 0;
        while bitmask != 0
          invariant 0 <= j <= 8 && netmaskbits == 8 * p + j
          invariant bitmask == if j == 8 then 0 else Pow2(7 - j)
          invariant forall k :: 0 <= k < netmaskbits ==> GBit(bytes[..], k)
          decreases 8 - j
        {
          AndTests(bytes[p], 7 - j);
          assert (8 * p + j) / 8 == p && (8 * p + j) % 8 == j;
          if And(bytes[p], bitmask) == 0 {
            return;
          }
          netmaskbits := netmaskbits + 1;
          MaskBelow(7 - j);
          bitmask := bitmask / 2;
          j := j + 1;
        }
        p := p + 1;
      }
    }

    /** The second loop of convertNetmaskToCIDR: no bit may follow the first zero. */
    method OnlyZerosFrom(from: nat, start: nat, mask: nat) returns (ok: bool)
      requires from < 8 * bytes.Length && start == from / 8 && mask == Pow2(7 - from % 8)
      ensures ok <==> forall k :: from <= k < 8 * bytes.Length ==> !GBit(bytes[..], k)
    {
      hide Bit, And, Pow2;
      var p, bitmask := start, mask;
      ghost var i := from;
      MaskBelow(7 - from % 8);
      while p < bytes.Length
        invariant p <= bytes.Length && from <= i <= 8 * bytes.Length
        invariant p < bytes.Length ==> p == i / 8 && bitmask == Pow2(7 - i % 8)
        invariant p == bytes.Length ==> i == 8 * bytes.Length
        invariant forall k :: from <= k < i ==> !GBit(bytes[..], k)
        decreases bytes.Length - p
      {
        ghost var j := i % 8;
        MaskBelow(7 - j);
        while bitmask != 0
          invariant 0 <= j <= 8 && i == 8 * p + j && from <= i
          invariant bitmask == if j == 8 then 0 else Pow2(7 - j)
          invariant forall k :: from <= k < i ==> !GBit(bytes[..], k)
          decreases 8 - j
        {
          AndTests(bytes[p], 7 - j);
          assert (8 * p + j) / 8 == p && (8 * p + j) % 8 == j;
          if And(bytes[p], bitmask) != 0 {
            assert GBit(bytes[..], i);
            return false;
          }
          MaskBelow(7 - j);
          bitmask := bitmask / 2;
          j := j + 1;
          i := i + 1;
        }
        p := p + 1;
        MaskBelow(7);
        bitmask := 0x80;
        assert i / 8 == p && i % 8 == 0;
      }
      return true;
    }

    /** `convertNetmaskToCIDR`. */
    method ToCIDR() returns (ok: bool)
      requires Valid()
      modifies this`family, this`netmaskbits
      ensures Valid()
      ensures old(family).Invalid? ==> !ok && family == Invalid(-1)
      ensures !old(family).Invalid? ==>
                && netmaskbits <= 8 * bytes.Length
                && family == (if ok then old(family) else Invalid(-3))
                && (ok <==> HoleFree(bytes[..]))
                && (ok ==> IsMask(bytes[..], netmaskbits))
    {
      if family.Invalid? {
        family := Invalid(ERR_UNKNOWN_TYPE);
        return false;
      }
      hide GBit;
      var p, bitmask := CountOnes();
      ok := true;
      if netmaskbits < 8 * bytes.Length {
        ok := OnlyZerosFrom(netmaskbits, p, bitmask);
      }
      if ok {
        assert IsMask(bytes[..], netmaskbits);
      } else {
        NotHoleFree(bytes[..], netmaskbits);
        family := Invalid(ERR_INVALID_NETMASK);
      }
    }
  }

  // ----- combining a network with a host part

  lemma NoCommonBits(x: Byte, y: Byte)
    ensures And(x, y) == 0 <==> forall k :: 0 <= k < 8 ==> !(Bit(x, k) && Bit(y, k))
  {
    hide And, Bit, Pow2;
    var r := And(x, y);
    AndBelow(x, y);
    if r != 0 {
      PowerEight();
      NonzeroHasBit(r, 8);
      var j :| 0 <= j < 8 && Bit(r, j);
      BitOfAnd(x, y, j);
    } else {
      forall k | 0 <= k < 8
        ensures !(Bit(x, k) && Bit(y, k))
      {
        BitOfAnd(x, y, k);
        BitOfZero(k);
      }
    }
  }

  function CombinedByte(x: Byte, m: Byte, h: Byte): (r: nat)
    ensures r < 256
  {
    AndBelow(x, m);
    PowerEight();
    OrBelow(And(x, m), h, 8);
    Or(And(x, m), h)
  }

  lemma CombinedBits(x: Byte, m: Byte, h: Byte, k: nat)
    requires k < 8
    ensures Bit(CombinedByte(x, m, h), k) <==> (Bit(x, k) && Bit(m, k)) || Bit(h, k)
  {
    hide And, Or, Bit;
    BitOfOr(And(x, m), h, k);
    BitOfAnd(x, m, k);
  }

  /** The loop of combineAddresses up to byte i. */
  ghost predicate CombinedUpTo(b: seq<Byte>, x: seq<Byte>, m: seq<Byte>, h: seq<Byte>, i: nat)
    requires |b| == |x| == |m| == |h| && i <= |b|
  {
    && (forall j :: 0 <= j < i ==> And(m[j], h[j]) == 0 && b[j] == CombinedByte(x[j], m[j], h[j]))
    && forall j :: i <= j < |b| ==> b[j] == x[j]
  }

  /** The bytes in front of the first one that overlaps the mask of n ones are combined, the others are not. */
  ghost predicate StoppedAtOverlap(b: seq<Byte>, x: seq<Byte>, h: seq<Byte>, n: nat)
    requires |b| == |x| == |h|
  {
    exists m: seq<Byte>, i: nat ::
      |m| == |x| && 0 <= i < |x| && IsMask(m, n) && And(m[i], h[i]) != 0 && CombinedUpTo(b, x, m, h, i)
  }

  /** `combineAddresses`: refused exactly if the host part overlaps the netmask. */
  method Combine(network: Address, host: Address) returns (ok: bool)
    requires network.Valid() && network.bytes.Length == host.bytes.Length && network.bytes != host.bytes
    modifies network`family, network.bytes
    ensures network.Valid()
    ensures old(network.family).Invalid? || network.netmaskbits > 8 * network.bytes.Length ==>
              !ok && network.family == old(network.family) && network.bytes[..] == old(network.bytes[..])
    ensures !old(network.family).Invalid? && network.netmaskbits <= 8 * network.bytes.Length ==>
              && (ok <==> HostFits(host.bytes[..], network.netmaskbits))
              && network.family == (if ok then old(network.family) else Invalid(-7))
              && (ok ==> IsCombined(network.bytes[..], old(network.bytes[..]), host.bytes[..], network.netmaskbits))
              && (!ok ==>
                    StoppedAtOverlap(network.bytes[..], old(network.bytes[..]), host.bytes[..], network.netmaskbits))
  {
    if network.family.Invalid? {
      return false;
    }
    hide GBit;
    ghost var x := network.bytes[..];
    var netmask := new Address(network.family, network.bytes[..], network.netmaskbits);
    var fits := netmask.ToNetmask();
    if !fits {
      return false;
    }
    var m, h := netmask.bytes[..], host.bytes[..];
    var i := 0;
    while i < network.bytes.Length
      invariant 0 <= i <= network.bytes.Length && network.family == old(network.family)
      invariant network.bytes.Length == |x| == |m| == |h| && host.bytes[..] == h
      invariant CombinedUpTo(network.bytes[..], x, m, h, i)
    {
      if And(m[i], h[i]) != 0 {
        Overlap(m, h, network.netmaskbits, i);
        network.family := Invalid(ERR_COMBINATION_FAILED);
        assert StoppedAtOverlap(network.bytes[..], x, h, network.netmaskbits);
        return false;
      }
      network.bytes[i] := CombinedByte(network.bytes[i], m[i], h[i]);
      i := i + 1;
    }
    CombinedIs(network.bytes[..], x, m, h, network.netmaskbits);
    return true;
  }

  /** No bit of the host part lies under the prefix. */
  ghost predicate HostFits(h: seq<Byte>, n: nat)
    requires n <= 8 * |h|
  {
    forall k :: 0 <= k < n ==> !GBit(h, k)
  }

  ghost predicate IsCombined(r: seq<Byte>, x: seq<Byte>, h: seq<Byte>, n: nat) {
    |r| == |x| == |h| && forall k :: 0 <= k < 8 * |r| ==> (GBit(r, k) <==> if k < n then GBit(x, k) else GBit(h, k))
  }

  lemma Overlap(m: seq<Byte>, h: seq<Byte>, n: nat, i: nat)
    requires IsMask(m, n) && |h| == |m| && i < |m| && And(m[i], h[i]) != 0
    ensures !HostFits(h, n)
  {
    hide And, Bit;
    NoCommonBits(m[i], h[i]);
    var k :| 0 <= k < 8 && Bit(m[i], k) && Bit(h[i], k);
    var g := 8 * i + 7 - k;
    assert g / 8 == i && 7 - g % 8 == k;
    assert GBit(m, g) && GBit(h, g);
  }

  lemma CombinedIs(b: seq<Byte>, x: seq<Byte>, m: seq<Byte>, h: seq<Byte>, n: nat)
    requires |b| == |x| == |m| == |h| && IsMask(m, n) && CombinedUpTo(b, x, m, h, |b|)
    ensures HostFits(h, n) && IsCombined(b, x, h, n)
  {
    hide And, Bit, CombinedByte;
    forall k | 0 <= k < 8 * |b|
      ensures (k < n ==> !GBit(h, k)) && (GBit(b, k) <==> if k < n then GBit(x, k) else GBit(h, k))
    {
      var j, e := k / 8, 7 - k % 8;
      NoCommonBits(m[j], h[j]);
      CombinedBits(x[j], m[j], h[j], e);
      assert GBit(m, k) <==> k < n;
    }
  }

  lemma ZeroBits(b: seq<Byte>)
    requires forall i :: 0 <= i < |b| ==> b[i] == 0
    ensures forall k :: 0 <= k < 8 * |b| ==> !GBit(b, k)
  {
    forall k | 0 <= k < 8 * |b|
      ensures !GBit(b, k)
    {
      BitOfZero(7 - k % 8);
    }
  }

  // ----- netmasks

  /** n ones followed by zeros. */
  ghost predicate IsMask(b: seq<Byte>, n: nat) {
    n <= 8 * |b| && forall k :: 0 <= k < 8 * |b| ==> (GBit(b, k) <==> k < n)
  }

  /** The set bits form a block without holes starting at the most significant bit. */
  ghost predicate HoleFree(b: seq<Byte>) {
    exists n :: IsMask(b, n)
  }

  lemma NotHoleFree(b: seq<Byte>, n: nat)
    requires n < 8 * |b| && !GBit(b, n)
    requires !(forall k :: n <= k < 8 * |b| ==> !GBit(b, k))
    ensures !HoleFree(b)
  {
    hide GBit;
    var k :| n <= k < 8 * |b| && GBit(b, k);
  }

  /** Addresses are determined by their bits. */
  lemma SameAddress(a: seq<Byte>, b: seq<Byte>)
    requires |a| == |b| && forall k :: 0 <= k < 8 * |a| ==> GBit(a, k) == GBit(b, k)
    ensures a == b
  {
    forall j | 0 <= j < |a|
      ensures a[j] == b[j]
    {
      PowerEight();
      hide Bit, Pow2;
      forall k | 0 <= k < 8
        ensures Bit(a[j], k) == Bit(b[j], k)
      {
        var g := 8 * j + 7 - k;
        assert g / 8 == j && 7 - g % 8 == k;
        assert GBit(a, g) == GBit(b, g);
      }
      SameBits(a[j], b[j], 8);
    }
  }

  /** Mask and prefix length determine each other: the two netmask conversions are mutually inverse. */
  lemma MasksAndLengths(a: seq<Byte>, b: seq<Byte>, n: nat, m: nat)
    requires |a| == |b| && IsMask(a, n) && IsMask(b, m)
    ensures a == b <==> n == m
  {
    hide GBit;
    if n == m {
      SameAddress(a, b);
    } else if n < m {
      assert GBit(b, n) && !GBit(a, n);
    } else {
      assert GBit(a, m) && !GBit(b, m);
    }
  }

  // ----- network, host and broadcast addresses

  ghost predicate IsNetwork(r: seq<Byte>, a: seq<Byte>, n: nat) {
    |r| == |a| && forall k :: 0 <= k < 8 * |a| ==> (GBit(r, k) <==> k < n && GBit(a, k))
  }

  ghost predicate IsHost(r: seq<Byte>, a: seq<Byte>, n: nat) {
    |r| == |a| && forall k :: 0 <= k < 8 * |a| ==> (GBit(r, k) <==> k >= n && GBit(a, k))
  }

  ghost predicate IsBroadcast(r: seq<Byte>, a: seq<Byte>, n: nat) {
    |r| == |a| && forall k :: 0 <= k < 8 * |a| ==> (GBit(r, k) <==> k >= n || GBit(a, k))
  }

  /** Splitting an address and combining the parts gives it back; the host part never overlaps. */
  method SplitAndCombine(family: Family, a: seq<Byte>, n: nat) returns (ok: bool, r: seq<Byte>)
    requires (family.Inet? && |a| == 4) || (family.Inet6? && |a| == 16)
    requires n <= 8 * |a|
    ensures ok && r == a
  {
    hide GBit;
    var network := new Address(family, a, n);
    var host := new Address(family, a, n);
    var done := network.ToNetwork();
    done := host.ToHost();
    ghost var x, h := network.bytes[..], host.bytes[..];
    assert IsNetwork(x, a, n) && IsHost(h, a, n);
    assert HostFits(h, n);
    ok := Combine(network, host);
    r := network.bytes[..];
    SameAddress(r, a);
  }
}
