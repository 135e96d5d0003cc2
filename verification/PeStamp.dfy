/** petsset: setting the time stamp of an image, and what a later checksum update makes of the result. */
module PeStamp {
  import opened Bytes
  import opened Checksum
  import opened PeFile

  // ----- a stamp inside the MZ header

  /** What the regions of two headers have in common behind their MZ headers. */
  lemma SummedSplits(h: Headers, f: seq<Byte>)
    requires Fits(h, f)
    ensures Summed(h, f)[..MZ_SIZE] == h.mz
    ensures PlainSum(Whole(Summed(h, f))) == PlainSum(h.mz) + PlainSum(Whole(Summed(h, f)[MZ_SIZE..]))
  {
    hide PlainSum, PeOffset, OptLen;
    var s := Summed(h, f);
    assert s == h.mz + s[MZ_SIZE..];
    WholeBehind(h.mz, s[MZ_SIZE..]);
    PlainSumConcat(h.mz, Whole(s[MZ_SIZE..]));
  }

  lemma SameBehind(h: Headers, f: seq<Byte>, g: Headers, n: seq<Byte>)
    requires Fits(h, f) && Fits(g, n) && |f| == |n| && PeOffset(h.mz) == PeOffset(g.mz)
    requires h.pe == g.pe && h.opt == g.opt
    requires PeOffset(h.mz) >= MZ_SIZE ==> f[MZ_SIZE..PeOffset(h.mz)] == n[MZ_SIZE..PeOffset(h.mz)]
    requires var end := PeOffset(h.mz) + PE_SIZE + |h.opt|; f[end..] == n[end..]
    ensures Summed(h, f)[MZ_SIZE..] == Summed(g, n)[MZ_SIZE..]
  {
    hide PeOffset, OptLen, Whole;
  }

  /** Two updates give the same checksum exactly if the MZ headers, all that differs, have the same word
      sum modulo 65535. */
  lemma SameChecksum(h: Headers, f: seq<Byte>, g: Headers, n: seq<Byte>)
    requires Fits(h, f) && Fits(g, n) && |f| == |n| && Word16(h.mz, 0) != 0 && Word16(g.mz, 0) != 0
    requires Summed(h, f)[MZ_SIZE..] == Summed(g, n)[MZ_SIZE..]
    ensures Finish(PieceSum(h, f), |f|) == Finish(PieceSum(g, n), |n|) <==> Congruent(PlainSum(h.mz), PlainSum(g.mz))
  {
    hide Sum32, Fold, PieceSum, Summed, PlainSum, Whole, PeOffset, OptLen, Word16;
    PieceSumIsSum(h, f);
    PieceSumIsSum(g, n);
    SummedSplits(h, f);
    SummedSplits(g, n);
    SignedSum(h, f);
    SignedSum(g, n);
    FoldedSame(Summed(h, f), Summed(g, n));
    SameFinish(Fold(Sum32(0, Summed(h, f))), Fold(Sum32(0, Summed(g, n))), |f|);
  }

  /** The image petsset writes for a stamp, whatever the checksum. */
  function Stamped(f: seq<Byte>, stamp: nat, v: nat): (n: seq<Byte>)
    requires Acceptable(f) && stamp < TWO32 && v < TWO32
    ensures |n| == |f|
  {
    Overwrite(Overwrite(f, PeOffset(f) + STAMP_AT, Bytes32(stamp)), PeOffset(f) + PE_SIZE + CHECKSUM_AT, Bytes32(v))
  }

  /** As long as the stamp does not touch the offset of the PE header, the image is loaded with the flushed
      PE and optional headers, and the MZ header as it is in the image. */
  lemma StampedLoads(f: seq<Byte>, stamp: nat, v: nat)
    requires Acceptable(f) && |f| < TWO32 && stamp < TWO32 && v < TWO32
    requires PeOffset(Stamped(f, stamp, v)) == PeOffset(f)
    ensures var n, g := Stamped(f, stamp, v), WithChecksum(WithStamp(HeadersOf(f), stamp), v);
            && Acceptable(n) && HeadersOf(n) == Headers(n[..MZ_SIZE], g.pe, g.opt)
            && Word16(n, 0) == Word16(f, 0)
            && (PeOffset(f) >= MZ_SIZE ==> n[MZ_SIZE..PeOffset(f)] == f[MZ_SIZE..PeOffset(f)])
            && var end := PeOffset(f) + PE_SIZE + |g.opt|; n[end..] == f[end..]
  {
    hide Bytes32, Overwrite, Flushed;
    LoadedHeaders(f);
    var h, off, n := HeadersOf(f), PeOffset(f), Stamped(f, stamp, v);
    StampKeeps(h, f, stamp);
    ChecksumKeeps(WithStamp(h, stamp), f, v);
    var g := WithChecksum(WithStamp(h, stamp), v);
    FlushedImage(f, stamp, v);
    FlushedParts(g, f);
    SignatureKept(f, stamp, v);
    LoadsAt(n, off, g);
  }

  /** An image with genuine headers in place is accepted and yields them. */
  lemma LoadsAt(n: seq<Byte>, off: nat, g: Headers)
    requires MZ_SIZE <= |n| && PeOffset(n) == off && |g.mz| == MZ_SIZE && |g.pe| == PE_SIZE
    requires |g.opt| == OptLen(g.pe) >= OPT_SIZE && off + PE_SIZE + |g.opt| <= |n|
    requires Genuine(g) && Word16(n, 0) == Word16(g.mz, 0)
    requires n[off..off + PE_SIZE] == g.pe && n[off + PE_SIZE..off + PE_SIZE + |g.opt|] == g.opt
    ensures Acceptable(n) && HeadersOf(n) == Headers(n[..MZ_SIZE], g.pe, g.opt)
  {
    hide PeOffset;
    assert Word32(n, off) == Word32(g.pe, 0) && Word16(n, off + OPT_LEN_AT) == OptLen(g.pe);
    assert Word16(n, off + PE_SIZE) == Word16(g.opt, 0);
  }

  lemma SignatureKept(f: seq<Byte>, stamp: nat, v: nat)
    requires Acceptable(f) && stamp < TWO32 && v < TWO32
    ensures Word16(Stamped(f, stamp, v), 0) == Word16(f, 0)
  {
    hide Bytes32, Overwrite, PeOffset;
    var off := PeOffset(f);
    var e := Overwrite(f, off + STAMP_AT, Bytes32(stamp));
    OverwriteAt(f, off + STAMP_AT, Bytes32(stamp), 0);
    OverwriteAt(f, off + STAMP_AT, Bytes32(stamp), 1);
    OverwriteAt(e, off + PE_SIZE + CHECKSUM_AT, Bytes32(v), 0);
    OverwriteAt(e, off + PE_SIZE + CHECKSUM_AT, Bytes32(v), 1);
  }

  /** The checksum petsset stores, and the one an update of the loaded image gives. */
  function FirstChecksum(f: seq<Byte>, stamp: nat): (v: nat)
    requires Acceptable(f) && |f| < TWO32 && stamp < TWO32
    ensures v < TWO32
  {
    LoadedHeaders(f);
    StampKeeps(HeadersOf(f), f, stamp);
    var h := WithStamp(HeadersOf(f), stamp);
    UpdatedFacts(h, f);
    StoredChecksum(Updated(h, f))
  }

  function UpdateOf(f: seq<Byte>): (v: nat)
    requires Acceptable(f) && |f| < TWO32
    ensures v < TWO32
  {
    LoadedHeaders(f);
    StoredChecksum(Updated(HeadersOf(f), f))
  }

  /** The second update reproduces the checksum exactly if the stamp leaves the word sum of the MZ header
      alone, modulo 65535: always if the stamp field lies behind that header. */
  lemma SecondUpdate(f: seq<Byte>, stamp: nat)
    requires Acceptable(f) && |f| < TWO32 && stamp < TWO32
    requires PeOffset(Stamped(f, stamp, FirstChecksum(f, stamp))) == PeOffset(f)
    ensures var n := Stamped(f, stamp, FirstChecksum(f, stamp));
            && Acceptable(n)
            && (UpdateOf(n) == FirstChecksum(f, stamp) <==>
                Congruent(PlainSum(f[..MZ_SIZE]), PlainSum(n[..MZ_SIZE])))
  {
    hide Finish, PieceSum, PlainSum, Stamped, Overwrite, Summed, Acceptable, Word32;
    var v := FirstChecksum(f, stamp);
    var n := Stamped(f, stamp, v);
    LoadedHeaders(f);
    var h := WithStamp(HeadersOf(f), stamp);
    StampKeeps(HeadersOf(f), f, stamp);
    UpdatedFacts(h, f);
    StampedLoads(f, stamp, v);
    LoadedHeaders(n);
    var g := HeadersOf(n);
    UpdatedFacts(g, n);
    OverwriteTwice(h.opt, CHECKSUM_AT, Bytes32(v), [0, 0, 0, 0]);
    assert Zeroed(g).opt == Zeroed(h).opt && Zeroed(g).pe == Zeroed(h).pe;
    SameBehind(Zeroed(h), f, Zeroed(g), n);
    SameChecksum(Zeroed(h), f, Zeroed(g), n);
  }

  lemma StampedFront(f: seq<Byte>, stamp: nat, v: nat)
    requires Acceptable(f) && stamp < TWO32 && v < TWO32 && PeOffset(f) + STAMP_AT + 4 <= PE_OFFSET_AT
    ensures var at, n := PeOffset(f) + STAMP_AT, Stamped(f, stamp, v);
            && n[..MZ_SIZE] == f[..at] + (Bytes32(stamp) + f[at + 4..MZ_SIZE])
            && f[..MZ_SIZE] == f[..at] + (f[at..at + 4] + f[at + 4..MZ_SIZE])
            && PeOffset(n) == PeOffset(f)
  {
    hide Bytes32, Overwrite;
    var at, n, b := PeOffset(f) + STAMP_AT, Stamped(f, stamp, v), Bytes32(stamp);
    var e := Overwrite(f, at, b);
    forall i | 0 <= i < MZ_SIZE
      ensures n[i] == if at <= i < at + 4 then b[i - at] else f[i]
    {
      OverwriteAt(f, at, b, i);
      OverwriteAt(e, PeOffset(f) + PE_SIZE + CHECKSUM_AT, Bytes32(v), i);
    }
  }

  lemma FourBytes(b: seq<Byte>)
    requires |b| == 4
    ensures Congruent(PlainSum(b), Word32(b, 0))
  {
    PlainSumOfFour(b);
    assert b[4..] == [];
    NoSum();
    hide PlainSum;
    var hi: int := Word16(b, 2);
    assert PlainSum(b) - Word32(b, 0) == 0xFFFF * -hi;
  }

  /** Two differences: p - q is that of x and y up to multiples of 65535. */
  lemma CongruentDifference(x: int, y: int, p: int, q: int, s: int, t: int)
    requires Congruent(p, x) && Congruent(q, y) && s - t == p - q
    ensures Congruent(s, t) <==> Congruent(x, y)
  {
    var i, j := (p - x) / 0xFFFF, (q - y) / 0xFFFF;
    assert p == x + 0xFFFF * i && q == y + 0xFFFF * j;
    if Congruent(s, t) {
      CongruentPlus(s, t, j - i, x, y);
    }
    if Congruent(x, y) {
      CongruentPlus(x, y, i - j, s, t);
    }
  }

  /** With the stamp field inside the MZ header, at an even offset in front of the field that locates the
      PE header, the second update reproduces the checksum exactly if the new stamp is the old one modulo
      65535: the first one had summed the old stamp with the MZ header. */
  lemma SecondUpdateIff(f: seq<Byte>, stamp: nat)
    requires Acceptable(f) && |f| < TWO32 && stamp < TWO32
    requires PeOffset(f) % 2 == 0 && PeOffset(f) + STAMP_AT + 4 <= PE_OFFSET_AT
    ensures var n := Stamped(f, stamp, FirstChecksum(f, stamp));
            && Acceptable(n)
            && (UpdateOf(n) == FirstChecksum(f, stamp) <==>
                Congruent(Word32(f, PeOffset(f) + STAMP_AT), stamp))
  {
    hide PlainSum, Stamped, Acceptable, FirstChecksum, UpdateOf, PeOffset, Word32, Congruent;
    AcceptableSize(f);
    StampShiftsSum(f, stamp, FirstChecksum(f, stamp));
    SecondUpdate(f, stamp);
  }

  lemma FrontDifference(f: seq<Byte>, stamp: nat, v: nat)
    requires Acceptable(f) && stamp < TWO32 && v < TWO32
    requires PeOffset(f) % 2 == 0 && PeOffset(f) + STAMP_AT + 4 <= PE_OFFSET_AT
    ensures var at, n := PeOffset(f) + STAMP_AT, Stamped(f, stamp, v);
            PlainSum(f[..MZ_SIZE]) - PlainSum(n[..MZ_SIZE]) == PlainSum(f[at..at + 4]) - PlainSum(Bytes32(stamp))
  {
    hide PlainSum, Stamped, Acceptable, Bytes32, PeOffset;
    AcceptableSize(f);
    StampedFront(f, stamp, v);
    var at, n := PeOffset(f) + STAMP_AT, Stamped(f, stamp, v);
    MiddleDifference(f[..at], f[at..at + 4], Bytes32(stamp), f[at + 4..MZ_SIZE], f[..MZ_SIZE], n[..MZ_SIZE]);
  }

  lemma MiddleDifference(a: seq<Byte>, b: seq<Byte>, d: seq<Byte>, c: seq<Byte>, s: seq<Byte>, t: seq<Byte>)
    requires |a| % 2 == 0 && |b| % 2 == 0 && |d| % 2 == 0 && s == a + (b + c) && t == a + (d + c)
    ensures PlainSum(s) - PlainSum(t) == PlainSum(b) - PlainSum(d)
  {
    hide PlainSum;
    ThreeSums(a, b, c);
    ThreeSums(a, d, c);
  }

  lemma StampShiftsSum(f: seq<Byte>, stamp: nat, v: nat)
    requires Acceptable(f) && stamp < TWO32 && v < TWO32
    requires PeOffset(f) % 2 == 0 && PeOffset(f) + STAMP_AT + 4 <= PE_OFFSET_AT
    ensures var at, n := PeOffset(f) + STAMP_AT, Stamped(f, stamp, v);
            && PeOffset(n) == PeOffset(f)
            && (Congruent(PlainSum(f[..MZ_SIZE]), PlainSum(n[..MZ_SIZE])) <==> Congruent(Word32(f, at), stamp))
  {
    hide PlainSum, Stamped, Acceptable, PeOffset, Word32, Congruent, Bytes32;
    AcceptableSize(f);
    StampedFront(f, stamp, v);
    FrontDifference(f, stamp, v);
    var at, n := PeOffset(f) + STAMP_AT, Stamped(f, stamp, v);
    var was, b := f[at..at + 4], Bytes32(stamp);
    FourBytes(was);
    FourBytes(b);
    WordInside(f, at);
    CongruentDifference(Word32(f, at), stamp, PlainSum(was), PlainSum(b),
                        PlainSum(f[..MZ_SIZE]), PlainSum(n[..MZ_SIZE]));
  }

  lemma ThreeSums(a: seq<Byte>, b: seq<Byte>, c: seq<Byte>)
    requires |a| % 2 == 0 && |b| % 2 == 0
    ensures PlainSum(a + (b + c)) == PlainSum(a) + PlainSum(b) + PlainSum(c)
  {
    hide PlainSum;
    PlainSumConcat(a, b + c);
    PlainSumConcat(b, c);
  }

  lemma WordInside(f: seq<Byte>, at: nat)
    requires at + 4 <= |f|
    ensures Word32(f[at..at + 4], 0) == Word32(f, at)
  {
  }

  /** The smallest image petools_init accepts with the PE header at offset 4: 124 bytes, stamp 0. */
  const TINY: seq<Byte> := [0x4d, 0x5a, 0, 0] + [0x50, 0x45, 0, 0] + Blank(16) + [96, 0, 0, 0] + [0x0b, 0x01]
                           + Blank(30) + [4] + Blank(63)

  function Blank(n: nat): (b: seq<Byte>)
    ensures |b| == n && forall i :: 0 <= i < n ==> b[i] == 0
  {
    seq(n, _ => 0)
  }

  /** Stamping it with 1 stores a checksum that loading and updating the result does not confirm. */
  lemma TinyFails()
    ensures Acceptable(TINY) && |TINY| == 124
    ensures var n := Stamped(TINY, 1, FirstChecksum(TINY, 1));
            Acceptable(n) && UpdateOf(n) != FirstChecksum(TINY, 1)
  {
    TinyBytes();
    hide TINY, Stamped, FirstChecksum, UpdateOf;
    SecondUpdateIff(TINY, 1);
  }

  lemma TinyBytes()
    ensures Acceptable(TINY) && |TINY| == 124 && PeOffset(TINY) == 4 && Word32(TINY, 12) == 0
  {
    hide Blank;
    var t := TINY;
    assert t[0] == 0x4d && t[1] == 0x5a && t[4] == 0x50 && t[5] == 0x45 && t[6] == 0 && t[7] == 0;
    assert t[12] == 0 && t[13] == 0 && t[14] == 0 && t[15] == 0;
    assert t[24] == 96 && t[25] == 0 && t[28] == 0x0b && t[29] == 0x01;
    assert t[60] == 4 && t[61] == 0 && t[62] == 0 && t[63] == 0;
    hide TINY;
  }

  // ----- petsset as a whole

  datatype Option<T> = None | Some(value: T)

  /** petsset, then loading the result and updating once more.  Nothing but the stamp and checksum fields
      changes; unless the stamp touches the MZ header it is stored and the checksum reproduced; and as
      long as it does not touch the offset of the PE header, the checksum is reproduced exactly if the word
      sum of the MZ header stays the same modulo 65535. */
  method SetStampAndCheck(f: seq<Byte>, stamp: nat) returns (image: seq<Byte>, stored: nat, again: Option<nat>)
    requires Acceptable(f) && |f| < TWO32 && stamp < TWO32
    ensures stored == FirstChecksum(f, stamp) && image == Stamped(f, stamp, stored)
    ensures again == if Acceptable(image) then Some(UpdateOf(image)) else None
    ensures StampClear(f, stamp) ==>
              && again == Some(stored)
              && Word32(HeadersOf(image).pe, STAMP_AT) == stamp
              && StoredChecksum(HeadersOf(image)) == stored
    ensures PeOffset(image) == PeOffset(f) ==>
              (again == Some(stored) <==> Congruent(PlainSum(f[..MZ_SIZE]), PlainSum(image[..MZ_SIZE])))
  {
    hide Flushed, PieceSum, Finish, Acceptable, Word32, Overwrite, Bytes32, Genuine, Unspoiled, StampClear, PlainSum;
    LoadedHeaders(f);
    var handle := Open(f);
    ghost var h0 := handle.h;
    StampKeeps(h0, f, stamp);
    handle.SetTimestamp(stamp);
    ghost var h1 := handle.h;
    StampSpoils(f, stamp);
    UpdatedFacts(h1, f);
    handle.UpdateChecksum();
    ghost var h2 := handle.h;
    if StampClear(f, stamp) {
      UpdateKeepsUnspoiled(h1, h2, f);
      ReloadFlushed(h2, f);
      UpdateIsStable(h1, f);
    }
    handle.Flush();
    image := handle.file;
    stored := StoredChecksum(handle.h);
    SameUpdate(h1, f, stored);
    FlushedImage(f, stamp, stored);
    if PeOffset(image) == PeOffset(f) {
      SecondUpdate(f, stamp);
    }
    var second := Open(image);
    if second == null {
      return image, stored, None;
    }
    second.UpdateChecksum();
    again := Some(StoredChecksum(second.h));
  }

  lemma SameUpdate(h: Headers, f: seq<Byte>, v: nat)
    requires Fits(h, f) && v < TWO32
    requires v == Finish(PieceSum(Zeroed(h), f), |f|)
    ensures Updated(h, f) == WithChecksum(h, v)
  {
    hide Finish, PieceSum, Bytes32;
    OverwriteTwice(h.opt, CHECKSUM_AT, [0, 0, 0, 0], Bytes32(v));
  }
}
