/** The file handle of petools: headers loaded from an image, a timestamp or checksum set, headers flushed. */
module PeFile {
  import opened Bytes
  import opened Checksum

  const MZ_SIZE: nat := 64
  const PE_SIZE: nat := 24
  const OPT_SIZE: nat := 96        // sizeof(struct pe32_opt_header_t)
  const PE_OFFSET_AT: nat := 60    // mz_header_t.peOffset
  const STAMP_AT: nat := 8         // pe32_header_t.timeDateStamp
  const OPT_LEN_AT: nat := 20      // pe32_header_t.sizeOfOptionalHeader
  const CHECKSUM_AT: nat := 64     // pe32_opt_header_t.checkSum
  const BUFSIZE: nat := 4096

  function Overwrite(f: seq<Byte>, at: nat, b: seq<Byte>): (r: seq<Byte>)
    requires at + |b| <= |f|
    ensures |r| == |f|
  {
    f[..at] + b + f[at + |b|..]
  }

  function Bytes32(v: nat): (b: seq<Byte>)
    requires v < TWO32
    ensures |b| == 4 && Word32(b, 0) == v
  {
    ByteDigits(v);
    [v % 256, v / 256 % 256, v / 0x1_0000 % 256, v / 0x100_0000]
  }

  lemma ByteDigits(v: nat)
    ensures v == v % 256 + 256 * (v / 256 % 256) + 0x1_0000 * (v / 0x1_0000 % 256) + 0x100_0000 * (v / 0x100_0000)
  {
    assert v / 256 / 256 == v / 0x1_0000 && v / 0x1_0000 / 256 == v / 0x100_0000;
  }

  function PeOffset(mz: seq<Byte>): nat
    requires |mz| >= MZ_SIZE
  {
    Word32(mz, PE_OFFSET_AT)
  }

  function OptLen(pe: seq<Byte>): nat
    requires |pe| >= PE_SIZE
  {
    Word16(pe, OPT_LEN_AT)
  }

  /** The images petools_init accepts. */
  predicate Acceptable(f: seq<Byte>) {
    && |f| >= MZ_SIZE
    && (Word16(f, 0) == 0x4d5a || Word16(f, 0) == 0x5a4d)
    && PeOffset(f) + PE_SIZE <= |f|
    && var off := PeOffset(f);
       && Word32(f, off) == 0x4550
       && OPT_SIZE <= Word16(f, off + OPT_LEN_AT)
       && off + PE_SIZE + Word16(f, off + OPT_LEN_AT) <= |f|
       && Word16(f, off + PE_SIZE) == 0x10b
  }

  datatype Headers = Headers(mz: seq<Byte>, pe: seq<Byte>, opt: seq<Byte>)

  ghost predicate Fits(h: Headers, f: seq<Byte>) {
    && |h.mz| == MZ_SIZE && |h.pe| == PE_SIZE && |h.opt| == OptLen(h.pe) >= OPT_SIZE
    && PeOffset(h.mz) + PE_SIZE + |h.opt| <= |f| < TWO32
  }

  function HeadersOf(f: seq<Byte>): Headers
    requires Acceptable(f)
  {
    var off := PeOffset(f);
    Headers(f[..MZ_SIZE], f[off..off + PE_SIZE], f[off + PE_SIZE..off + PE_SIZE + Word16(f, off + OPT_LEN_AT)])
  }

  /** The file after petools_flush. */
  function Flushed(h: Headers, f: seq<Byte>): (r: seq<Byte>)
    requires Fits(h, f)
    ensures |r| == |f|
  {
    var off := PeOffset(h.mz);
    Overwrite(Overwrite(Overwrite(f, 0, h.mz), off, h.pe), off + PE_SIZE, h.opt)
  }

  /** What petools_update_checksum sums up, region by region. */
  function PieceSum(h: Headers, f: seq<Byte>): (r: nat)
    requires Fits(h, f)
    ensures r < TWO32
  {
    var off := PeOffset(h.mz);
    var s1 := Sum32(0, h.mz);
    var s2 := Sum32(s1, if MZ_SIZE < off then f[MZ_SIZE..off] else []);
    var s3 := Sum32(s2, h.pe);
    var s4 := Sum32(s3, h.opt);
    Sum32(s4, f[off + PE_SIZE + |h.opt|..])
  }

  function Zeroed(h: Headers): Headers
    requires |h.opt| >= OPT_SIZE
  {
    h.(opt := Overwrite(h.opt, CHECKSUM_AT, [0, 0, 0, 0]))
  }

  function WithChecksum(h: Headers, v: nat): Headers
    requires |h.opt| >= OPT_SIZE && v < TWO32
  {
    h.(opt := Overwrite(h.opt, CHECKSUM_AT, Bytes32(v)))
  }

  function WithStamp(h: Headers, stamp: nat): Headers
    requires |h.pe| == PE_SIZE && stamp < TWO32
  {
    h.(pe := Overwrite(h.pe, STAMP_AT, Bytes32(stamp)))
  }

  /** The headers petools_update_checksum leaves behind. */
  function Updated(h: Headers, f: seq<Byte>): Headers
    requires Fits(h, f)
  {
    WithChecksum(Zeroed(h), Finish(PieceSum(Zeroed(h), f), |f|))
  }

  function StoredChecksum(h: Headers): nat
    requires |h.opt| >= OPT_SIZE
  {
    Word32(h.opt, CHECKSUM_AT)
  }

  class Handle {
    var file: seq<Byte>
    var h: Headers

    ghost predicate Valid()
      reads this
    {
      Fits(h, file)
    }

    /** The part of petools_init behind opening the file. */
    constructor (f: seq<Byte>)
      requires Acceptable(f) && |f| < TWO32
      ensures Valid() && file == f && h == HeadersOf(f)
    {
      file := f;
      h := HeadersOf(f);
    }

    /** `readAndComputeChecksum`: a region of the file in chunks of at most 4096 bytes. */
    method ReadAndCompute(chksum: nat, from: nat, end: nat) returns (r: nat)
      requires chksum < TWO32 && end <= |file| && from <= |file|
      ensures r == Sum32(chksum, if from < end then file[from..end] else [])
    {
      r := chksum;
      var start := from;
      if start >= end {
        return;
      }
      assert file[from..start] == [] && file[start..end] == file[from..end];
      while start < end
        invariant from <= start <= end && r < TWO32
        invariant Sum32(r, file[start..end]) == Sum32(chksum, file[from..end])
      {
        var rem := end - start;
        var bytes := if rem > BUFSIZE then BUFSIZE else rem;
        ghost var chunk, rest := file[start..start + bytes], file[start + bytes..end];
        assert file[start..end] == chunk + rest;
        if rem > BUFSIZE {
          Sum32Concat(r, chunk, rest);
        } else {
          assert rest == [] && chunk + rest == chunk;
        }
        r := ComputeChecksum(r, file[start..start + bytes]);
        start := start + bytes;
      }
    }

    /** `petools_update_checksum`. */
    method UpdateChecksum()
      requires Valid()
      modifies this`h
      ensures Valid() && h == Updated(old(h), file)
    {
      hide Sum32, Finish;
      h := Zeroed(h);
      var off := PeOffset(h.mz);
      var chksum := ComputeChecksum(0, h.mz);
      chksum := ReadAndCompute(chksum, MZ_SIZE, off);
      chksum := ComputeChecksum(chksum, h.pe);
      chksum := ComputeChecksum(chksum, h.opt);
      chksum := ReadAndCompute(chksum, off + PE_SIZE + |h.opt|, |file|);
      ghost var from := off + PE_SIZE + |h.opt|;
      assert file[from..] == if from < |file| then file[from..|file|] else [];
      assert chksum == PieceSum(h, file);
      h := WithChecksum(h, Finish(chksum, |file|));
    }

    /** `petools_flush`. */
    method Flush()
      requires Valid()
      modifies this`file
      ensures Valid() && file == Flushed(h, old(file))
    {
      file := Overwrite(file, 0, h.mz);
      file := Overwrite(file, PeOffset(h.mz), h.pe);
      file := Overwrite(file, PeOffset(h.mz) + PE_SIZE, h.opt);
    }

    /** What petsset does between loading and updating. */
    method SetTimestamp(stamp: nat)
      requires Valid() && stamp < TWO32
      modifies this`h
      ensures Valid() && h == WithStamp(old(h), stamp)
    {
      h := WithStamp(h, stamp);
      assert h.pe[OPT_LEN_AT] == old(h).pe[OPT_LEN_AT] && h.pe[OPT_LEN_AT + 1] == old(h).pe[OPT_LEN_AT + 1];
    }
  }

  // ----- piecewise against the whole image

  /** The layout under which no region loses a partial word and none overlaps. */
  predicate Aligned(h: Headers)
    requires |h.mz| >= MZ_SIZE
  {
    PeOffset(h.mz) >= MZ_SIZE && PeOffset(h.mz) % 4 == 0 && |h.opt| % 4 == 0
  }

  /** Headers petools_init would accept again. */
  predicate Genuine(h: Headers)
    requires |h.mz| == MZ_SIZE && |h.pe| == PE_SIZE && |h.opt| >= OPT_SIZE
  {
    && (Word16(h.mz, 0) == 0x4d5a || Word16(h.mz, 0) == 0x5a4d)
    && Word32(h.pe, 0) == 0x4550
    && Word16(h.opt, 0) == 0x10b
  }

  lemma FlushedLayout(h: Headers, f: seq<Byte>)
    requires Fits(h, f) && PeOffset(h.mz) >= MZ_SIZE
    ensures var off := PeOffset(h.mz);
            Flushed(h, f) == h.mz + (f[MZ_SIZE..off] + (h.pe + (h.opt + f[off + PE_SIZE + |h.opt|..])))
  {
    hide Overwrite, PeOffset;
    var off := PeOffset(h.mz);
    var gap, rest, tail := f[MZ_SIZE..off], f[off + PE_SIZE..], f[off + PE_SIZE + |h.opt|..];
    assert f == [] + f[..MZ_SIZE] + f[MZ_SIZE..];
    OverwriteMiddle([], f[..MZ_SIZE], f[MZ_SIZE..], h.mz);
    assert [] + h.mz + f[MZ_SIZE..] == (h.mz + gap) + f[off..off + PE_SIZE] + rest;
    OverwriteMiddle(h.mz + gap, f[off..off + PE_SIZE], rest, h.pe);
    assert (h.mz + gap) + h.pe + rest == (h.mz + gap + h.pe) + rest[..|h.opt|] + tail;
    OverwriteMiddle(h.mz + gap + h.pe, rest[..|h.opt|], tail, h.opt);
  }

  lemma OverwriteMiddle(a: seq<Byte>, b: seq<Byte>, c: seq<Byte>, p: seq<Byte>)
    requires |p| == |b|
    ensures Overwrite(a + b + c, |a|, p) == a + p + c
  {
  }

  /** The bytes that enter the sum: `bufsize >> 2` drops a partial word at the end of every region. */
  function Summed(h: Headers, f: seq<Byte>): seq<Byte>
    requires Fits(h, f)
  {
    var off := PeOffset(h.mz);
    var gap := if MZ_SIZE < off then f[MZ_SIZE..off] else [];
    h.mz + (Whole(gap) + (h.pe + (Whole(h.opt) + f[off + PE_SIZE + |h.opt|..])))
  }

  lemma {:induction false} SumOfWhole(acc: nat, b: seq<Byte>)
    requires acc < TWO32
    ensures Sum32(acc, b) == Sum32(acc, Whole(b))
    decreases |b|
  {
    if |b| >= 4 {
      var v := Whole(b);
      assert Word32(v, 0) == Word32(b, 0) && v[4..] == Whole(b[4..]);
      SumOfWhole(AddCarry(acc, Word32(b, 0)), b[4..]);
    }
  }

  lemma PieceSumIsSum(h: Headers, f: seq<Byte>)
    requires Fits(h, f)
    ensures PieceSum(h, f) == Sum32(0, Summed(h, f))
  {
    hide Sum32, PeOffset, OptLen;
    var off := PeOffset(h.mz);
    var gap := if MZ_SIZE < off then f[MZ_SIZE..off] else [];
    var tail := f[off + PE_SIZE + |h.opt|..];
    var s1 := Sum32(0, h.mz);
    var s2 := Sum32(s1, gap);
    var s3 := Sum32(s2, h.pe);
    SumOfWhole(s1, gap);
    SumOfWhole(s3, h.opt);
    Sum32Concat(0, h.mz, Whole(gap) + (h.pe + (Whole(h.opt) + tail)));
    Sum32Concat(s1, Whole(gap), h.pe + (Whole(h.opt) + tail));
    Sum32Concat(s2, h.pe, Whole(h.opt) + tail);
    Sum32Concat(s3, Whole(h.opt), tail);
  }

  /** For aligned headers the regions make up the image. */
  lemma PieceSumIsImageSum(h: Headers, f: seq<Byte>)
    requires Fits(h, f) && Aligned(h)
    ensures Summed(h, f) == Flushed(h, f) && PieceSum(h, f) == Sum32(0, Flushed(h, f))
  {
    hide Sum32, Flushed, PeOffset, OptLen, PieceSum;
    FlushedLayout(h, f);
    PieceSumIsSum(h, f);
    var gap := f[MZ_SIZE..PeOffset(h.mz)];
    assert Whole(gap) == gap && Whole(h.opt) == h.opt;
  }

  /** For every layout, unaligned and overlapping headers included: the checksum petools stores is the
      reference checksum of the image it would flush, taken with a zero checksum field, exactly if the
      bytes that enter the sum have the same word sum, modulo 65535 and in being zero, as the image. */
  lemma ChecksumIff(h: Headers, f: seq<Byte>)
    requires Fits(h, f)
    ensures Fits(Zeroed(h), f)
    ensures var z := Zeroed(h);
            Finish(PieceSum(z, f), |f|) == Reference(Flushed(z, f)) <==>
            SameResidue(PlainSum(Whole(Summed(z, f))), PlainSum(Flushed(z, f)))
  {
    hide Sum32, Sum16, Fold, Flushed, PieceSum, Summed, SameResidue, PlainSum, Whole;
    var z := Zeroed(h);
    PieceSumIsSum(z, f);
    FoldedAgainst(Summed(z, f), Flushed(z, f));
    SameFinish(Fold(Sum32(0, Summed(z, f))), Sum16(0, Flushed(z, f)), |f|);
  }

  /** With aligned headers it is exactly if the last |f| % 4 bytes of the file, which are lost, are
      harmless: as words they add up to 0 or 0xFFFF. */
  lemma ChecksumOfImage(h: Headers, f: seq<Byte>)
    requires Fits(h, f) && Aligned(h) && Genuine(h)
    ensures Fits(Zeroed(h), f)
    ensures Finish(PieceSum(Zeroed(h), f), |f|) == Reference(Flushed(Zeroed(h), f)) <==>
            PlainSum(Tail(f)) == 0 || PlainSum(Tail(f)) == 0xFFFF
  {
    hide Sum32, Sum16, Fold, Flushed, PlainSum, TailHarmless;
    var z := Zeroed(h);
    PieceSumIsImageSum(z, f);
    FoldedSum(Flushed(z, f));
    SignatureSum(z, f);
    TailOfImage(z, f);
    HarmlessTail(Flushed(z, f));
  }

  /** Half words, an even layout's regions may end in, that the sum loses. */
  function Dropped(h: Headers, f: seq<Byte>): nat
    requires Fits(h, f) && PeOffset(h.mz) >= MZ_SIZE
  {
    var off := PeOffset(h.mz);
    PlainSum(Tail(f[MZ_SIZE..off])) + PlainSum(Tail(h.opt)) + PlainSum(Tail(f[off + PE_SIZE + |h.opt|..]))
  }

  lemma WholeBehind(a: seq<Byte>, b: seq<Byte>)
    requires |a| % 4 == 0
    ensures Whole(a + b) == a + Whole(b)
  {
  }

  lemma FiveSums(a: seq<Byte>, b: seq<Byte>, c: seq<Byte>, d: seq<Byte>, e: seq<Byte>)
    requires |a| % 2 == 0 && |b| % 2 == 0 && |c| % 2 == 0 && |d| % 2 == 0
    ensures PlainSum(a + (b + (c + (d + e)))) == PlainSum(a) + PlainSum(b) + PlainSum(c) + PlainSum(d) + PlainSum(e)
  {
    hide PlainSum;
    PlainSumConcat(a, b + (c + (d + e)));
    PlainSumConcat(b, c + (d + e));
    PlainSumConcat(c, d + e);
    PlainSumConcat(d, e);
  }

  lemma ImageSum(h: Headers, f: seq<Byte>)
    requires Fits(h, f) && PeOffset(h.mz) >= MZ_SIZE && PeOffset(h.mz) % 2 == 0 && |h.opt| % 2 == 0
    ensures var off := PeOffset(h.mz);
            PlainSum(Flushed(h, f)) == PlainSum(h.mz) + PlainSum(f[MZ_SIZE..off]) + PlainSum(h.pe)
                                       + PlainSum(h.opt) + PlainSum(f[off + PE_SIZE + |h.opt|..])
  {
    hide Flushed, PlainSum, PeOffset, OptLen;
    var off := PeOffset(h.mz);
    FlushedLayout(h, f);
    FiveSums(h.mz, f[MZ_SIZE..off], h.pe, h.opt, f[off + PE_SIZE + |h.opt|..]);
  }

  lemma WholeSumBehind(a: seq<Byte>, b: seq<Byte>)
    requires |a| % 4 == 0
    ensures PlainSum(Whole(a + b)) == PlainSum(a) + PlainSum(Whole(b))
  {
    hide PlainSum, Whole;
    WholeBehind(a, b);
    FourIsEven(|a|);
    PlainSumConcat(a, Whole(b));
  }

  lemma FourIsEven(n: nat)
    requires n % 4 == 0
    ensures n % 2 == 0
  {
    Doubled(2 * (n / 4));
  }

  lemma Doubled(m: nat)
    ensures 2 * m % 2 == 0
  {
  }

  lemma WholeFiveSums(a: seq<Byte>, b: seq<Byte>, c: seq<Byte>, d: seq<Byte>, e: seq<Byte>)
    requires |a| % 4 == 0 && |b| % 4 == 0 && |c| % 4 == 0 && |d| % 4 == 0
    ensures PlainSum(Whole(a + (b + (c + (d + e)))))
         == PlainSum(a) + PlainSum(b) + PlainSum(c) + PlainSum(d) + PlainSum(Whole(e))
  {
    hide PlainSum, Whole;
    WholeSumBehind(d, e);
    WholeSumBehind(c, d + e);
    WholeSumBehind(b, c + (d + e));
    WholeSumBehind(a, b + (c + (d + e)));
  }

  lemma SummedIs(h: Headers, f: seq<Byte>)
    requires Fits(h, f) && PeOffset(h.mz) >= MZ_SIZE
    ensures var off := PeOffset(h.mz);
            Summed(h, f) == h.mz + (Whole(f[MZ_SIZE..off]) + (h.pe + (Whole(h.opt) + f[off + PE_SIZE + |h.opt|..])))
  {
    hide PeOffset, OptLen, Whole;
    assert PeOffset(h.mz) == MZ_SIZE ==> f[MZ_SIZE..PeOffset(h.mz)] == [];
  }

  lemma SummedSum(h: Headers, f: seq<Byte>)
    requires Fits(h, f) && PeOffset(h.mz) >= MZ_SIZE
    ensures var off := PeOffset(h.mz);
            PlainSum(Whole(Summed(h, f))) == PlainSum(h.mz) + PlainSum(Whole(f[MZ_SIZE..off])) + PlainSum(h.pe)
                                             + PlainSum(Whole(h.opt)) + PlainSum(Whole(f[off + PE_SIZE + |h.opt|..]))
  {
    hide PlainSum, PeOffset, OptLen, Whole, Summed;
    var off := PeOffset(h.mz);
    var gap, rest := f[MZ_SIZE..off], f[off + PE_SIZE + |h.opt|..];
    SummedIs(h, f);
    WholeLength(gap);
    WholeLength(h.opt);
    WholeFiveSums(h.mz, Whole(gap), h.pe, Whole(h.opt), rest);
  }

  /** The image's word sum is the sum of what enters the checksum and what is dropped. */
  lemma DroppedSum(h: Headers, f: seq<Byte>)
    requires Fits(h, f) && PeOffset(h.mz) >= MZ_SIZE && PeOffset(h.mz) % 2 == 0 && |h.opt| % 2 == 0
    ensures PlainSum(Flushed(h, f)) == PlainSum(Whole(Summed(h, f))) + Dropped(h, f)
  {
    hide Flushed, PlainSum, PeOffset, OptLen, Whole, Tail, Summed;
    var off := PeOffset(h.mz);
    ImageSum(h, f);
    SummedSum(h, f);
    SplitSum(f[MZ_SIZE..off]);
    SplitSum(h.opt);
    SplitSum(f[off + PE_SIZE + |h.opt|..]);
  }

  lemma WholeLength(b: seq<Byte>)
    ensures |Whole(b)| % 4 == 0
  {
  }

  /** For even headers behind the MZ header the checksum is the reference checksum exactly if the dropped
      bytes, the ends of the gap, of the optional header and of the rest, add up to a multiple of 0xFFFF. */
  lemma ChecksumOfEven(h: Headers, f: seq<Byte>)
    requires Fits(h, f) && Genuine(h)
    requires PeOffset(h.mz) >= MZ_SIZE && PeOffset(h.mz) % 2 == 0 && |h.opt| % 2 == 0
    ensures Fits(Zeroed(h), f)
    ensures Finish(PieceSum(Zeroed(h), f), |f|) == Reference(Flushed(Zeroed(h), f)) <==>
            Dropped(Zeroed(h), f) % 0xFFFF == 0
  {
    hide PieceSum, Finish, Reference, Flushed, PlainSum, Summed, Dropped, PeOffset, OptLen;
    var z := Zeroed(h);
    ChecksumIff(h, f);
    DroppedSum(z, f);
    SignedSum(z, f);
    var p, t := PlainSum(Whole(Summed(z, f))), Dropped(z, f);
    DroppedResidue(p, t);
  }

  lemma DroppedResidue(p: nat, t: nat)
    requires p > 0
    ensures SameResidue(p, p + t) <==> t % 0xFFFF == 0
  {
    var m: int := t;
    assert p - (p + t) == -m;
    assert -m % 0xFFFF == 0 <==> m % 0xFFFF == 0;
  }

  /** The signature alone makes the sum positive. */
  lemma SignedSum(h: Headers, f: seq<Byte>)
    requires Fits(h, f) && Word16(h.mz, 0) != 0
    ensures PlainSum(Whole(Summed(h, f))) > 0
  {
    hide PeOffset, OptLen;
    var v := Whole(Summed(h, f));
    assert Word16(v, 0) == Word16(h.mz, 0);
    hide Word16;
    assert PlainSum(v) == FirstWord(v) + PlainSum(AfterWord(v));
  }

  lemma HarmlessTail(b: seq<Byte>)
    requires PlainSum(Whole(b)) != 0
    ensures TailHarmless(b) <==> PlainSum(Tail(b)) == 0 || PlainSum(Tail(b)) == 0xFFFF
  {
  }

  /** The signature alone makes the image's word sum positive. */
  lemma SignatureSum(h: Headers, f: seq<Byte>)
    requires Fits(h, f) && Aligned(h) && Word16(h.mz, 0) != 0
    ensures PlainSum(Whole(Flushed(h, f))) != 0
  {
    FlushedLayout(h, f);
    hide Flushed, PeOffset, OptLen;
    var n := Flushed(h, f);
    assert Word16(Whole(n), 0) == Word16(h.mz, 0);
    hide Word16;
    assert PlainSum(Whole(n)) == FirstWord(Whole(n)) + PlainSum(AfterWord(Whole(n)));
  }

  lemma TailOfImage(h: Headers, f: seq<Byte>)
    requires Fits(h, f) && Aligned(h)
    ensures Tail(Flushed(h, f)) == Tail(f)
  {
    hide Flushed, PeOffset, OptLen;
    FlushedLayout(h, f);
    var n, k, end := Flushed(h, f), |f| / 4 * 4, PeOffset(h.mz) + PE_SIZE + |h.opt|;
    assert end % 4 == 0 && end <= k;
    assert n[k..] == f[k..] by {
      forall i | k <= i < |f|
        ensures n[i] == f[i]
      {
        assert n[i] == f[end..][i - end];
      }
    }
  }

  // ----- loading, and loading again what was flushed

  /** `petools_init`: the checks in the order of the source, NULL on the first that fails. */
  method Open(f: seq<Byte>) returns (handle: Handle?)
    requires |f| < TWO32
    ensures handle != null <==> Acceptable(f)
    ensures handle != null ==> fresh(handle) && handle.Valid() && handle.file == f && handle.h == HeadersOf(f)
  {
    if |f| < MZ_SIZE {                                          // could not read MZ header
      return null;
    }
    var signature := Word16(f, 0);
    if signature != 0x4d5a && signature != 0x5a4d {             // MZ header not found
      return null;
    }
    var off := PeOffset(f);
    if |f| < off + PE_SIZE {                                    // could not read PE32 header
      return null;
    }
    if Word32(f, off) != 0x4550 {                               // PE32 header not found
      return null;
    }
    var size := Word16(f, off + OPT_LEN_AT);
    if size == 0 || size < OPT_SIZE {                           // optional header missing or too small
      return null;
    }
    if |f| < off + PE_SIZE + size {                             // could not read optional header
      return null;
    }
    if Word16(f, off + PE_SIZE) != 0x10b {                      // wrong magic
      return null;
    }
    handle := new Handle(f);
  }

  /** Flushing leaves the MZ header alone: it does not overlap the others, or only in equal bytes. */
  ghost predicate Unspoiled(h: Headers, f: seq<Byte>)
    requires Fits(h, f)
  {
    Flushed(h, f)[..MZ_SIZE] == h.mz
  }

  lemma OverwriteAt(f: seq<Byte>, at: nat, b: seq<Byte>, i: nat)
    requires at + |b| <= |f| && i < |f|
    ensures Overwrite(f, at, b)[i] == if at <= i < at + |b| then b[i - at] else f[i]
  {
  }

  /** What the last two headers written and the bytes outside all headers look like afterwards. */
  lemma FlushedParts(h: Headers, f: seq<Byte>)
    requires Fits(h, f)
    ensures var off, n := PeOffset(h.mz), Flushed(h, f);
            && n[off..off + PE_SIZE] == h.pe
            && n[off + PE_SIZE..off + PE_SIZE + |h.opt|] == h.opt
            && n[off + PE_SIZE + |h.opt|..] == f[off + PE_SIZE + |h.opt|..]
            && (MZ_SIZE <= off ==> n[MZ_SIZE..off] == f[MZ_SIZE..off] && n[..MZ_SIZE] == h.mz)
  {
    hide Overwrite, PeOffset, OptLen;
    var off, n := PeOffset(h.mz), Flushed(h, f);
    forall i | 0 <= i < |f|
      ensures n[i] == if off + PE_SIZE <= i < off + PE_SIZE + |h.opt| then h.opt[i - off - PE_SIZE]
                      else if off <= i < off + PE_SIZE then h.pe[i - off]
                      else if i < MZ_SIZE then h.mz[i] else f[i]
    {
      var g := Overwrite(f, 0, h.mz);
      OverwriteAt(f, 0, h.mz, i);
      OverwriteAt(g, off, h.pe, i);
      OverwriteAt(Overwrite(g, off, h.pe), off + PE_SIZE, h.opt, i);
    }
  }

  /** A flushed image is loaded again with the same headers exactly if flushing left the MZ header alone. */
  lemma ReloadFlushed(h: Headers, f: seq<Byte>)
    requires Fits(h, f) && Genuine(h)
    ensures Acceptable(Flushed(h, f)) && HeadersOf(Flushed(h, f)) == h <==> Unspoiled(h, f)
    ensures PeOffset(h.mz) >= MZ_SIZE ==> Unspoiled(h, f)
  {
    hide Flushed;
    var off, n := PeOffset(h.mz), Flushed(h, f);
    FlushedParts(h, f);
    if Unspoiled(h, f) {
      assert Word16(n, 0) == Word16(h.mz, 0) && PeOffset(n) == off;
      assert Word32(n, off) == Word32(h.pe, 0) && Word16(n, off + OPT_LEN_AT) == OptLen(h.pe);
      assert Word16(n, off + PE_SIZE) == Word16(h.opt, 0);
    }
  }

  lemma PieceSumAfterFlush(h: Headers, g: Headers, f: seq<Byte>)
    requires Fits(h, f) && Fits(g, f) && g.mz == h.mz && |g.opt| == |h.opt|
    ensures PieceSum(g, Flushed(h, f)) == PieceSum(g, f)
  {
    hide Sum32, Flushed;
    FlushedParts(h, f);
  }

  lemma OverwriteTwice(b: seq<Byte>, at: nat, p: seq<Byte>, q: seq<Byte>)
    requires at + |p| <= |b| && |p| == |q|
    ensures Overwrite(Overwrite(b, at, p), at, q) == Overwrite(b, at, q)
  {
  }

  lemma OverwriteReads(b: seq<Byte>, at: nat, p: seq<Byte>)
    requires at + 4 <= |b| && |p| == 4
    ensures Word32(Overwrite(b, at, p), at) == Word32(p, 0)
    ensures forall i :: 0 <= i && i + 2 <= at ==> Word16(Overwrite(b, at, p), i) == Word16(b, i)
    ensures forall i :: at + 4 <= i && i + 2 <= |b| ==> Word16(Overwrite(b, at, p), i) == Word16(b, i)
  {
  }

  /** Setting a stamp keeps the headers loadable. */
  lemma StampKeeps(h: Headers, f: seq<Byte>, stamp: nat)
    requires Fits(h, f) && Genuine(h) && stamp < TWO32
    ensures var g := WithStamp(h, stamp); Fits(g, f) && Genuine(g) && Word32(g.pe, STAMP_AT) == stamp
  {
    OverwriteReads(h.pe, STAMP_AT, Bytes32(stamp));
  }

  /** So does setting a checksum, which also does not disturb what is summed. */
  lemma ChecksumKeeps(h: Headers, f: seq<Byte>, v: nat)
    requires Fits(h, f) && Genuine(h) && v < TWO32
    ensures var g := WithChecksum(h, v);
            Fits(g, f) && Genuine(g) && StoredChecksum(g) == v && Zeroed(g) == Zeroed(h)
  {
    OverwriteReads(h.opt, CHECKSUM_AT, Bytes32(v));
    OverwriteTwice(h.opt, CHECKSUM_AT, Bytes32(v), [0, 0, 0, 0]);
  }

  lemma AcceptableSize(f: seq<Byte>)
    requires Acceptable(f)
    ensures |f| >= MZ_SIZE
  {
  }

  lemma LoadedHeaders(f: seq<Byte>)
    requires Acceptable(f) && |f| < TWO32
    ensures Fits(HeadersOf(f), f) && Genuine(HeadersOf(f)) && PeOffset(HeadersOf(f).mz) == PeOffset(f)
  {
    var off, h := PeOffset(f), HeadersOf(f);
    assert Word16(h.mz, 0) == Word16(f, 0) && Word32(h.pe, 0) == Word32(f, off);
    assert Word16(h.opt, 0) == Word16(f, off + PE_SIZE);
  }

  lemma UpdatedFacts(h: Headers, f: seq<Byte>)
    requires Fits(h, f) && Genuine(h)
    ensures var u := Updated(h, f);
            && Fits(Zeroed(h), f) && Fits(u, f) && Genuine(u) && Zeroed(u) == Zeroed(h)
            && u.mz == h.mz && u.pe == h.pe && |u.opt| == |h.opt| && u.opt[..CHECKSUM_AT] == h.opt[..CHECKSUM_AT]
            && StoredChecksum(u) == Finish(PieceSum(Zeroed(h), f), |f|)
  {
    hide Finish, PieceSum;
    var z := Zeroed(h);
    OverwriteReads(h.opt, CHECKSUM_AT, [0, 0, 0, 0]);
    OverwriteTwice(h.opt, CHECKSUM_AT, [0, 0, 0, 0], [0, 0, 0, 0]);
    ChecksumKeeps(z, f, Finish(PieceSum(z, f), |f|));
  }

  /** The checksum field lies behind the MZ header in every layout. */
  lemma UpdateKeepsUnspoiled(h: Headers, g: Headers, f: seq<Byte>)
    requires Fits(h, f) && Fits(g, f) && g.mz == h.mz && g.pe == h.pe && |g.opt| == |h.opt|
    requires g.opt[..CHECKSUM_AT] == h.opt[..CHECKSUM_AT]
    ensures Unspoiled(g, f) <==> Unspoiled(h, f)
  {
    hide Overwrite, PeOffset, OptLen;
    var off := PeOffset(h.mz);
    var e := Overwrite(Overwrite(f, 0, h.mz), off, h.pe);
    forall i | 0 <= i < MZ_SIZE
      ensures Flushed(g, f)[i] == Flushed(h, f)[i]
    {
      OverwriteAt(e, off + PE_SIZE, h.opt, i);
      OverwriteAt(e, off + PE_SIZE, g.opt, i);
      if off + PE_SIZE <= i {
        assert g.opt[..CHECKSUM_AT][i - off - PE_SIZE] == h.opt[..CHECKSUM_AT][i - off - PE_SIZE];
      }
    }
    assert Flushed(g, f)[..MZ_SIZE] == Flushed(h, f)[..MZ_SIZE];
  }

  /** Updating, flushing, loading and updating again changes nothing: the stored checksum is confirmed. */
  lemma UpdateIsStable(h: Headers, f: seq<Byte>)
    requires Fits(h, f) && Genuine(h) && Unspoiled(h, f)
    ensures Fits(Updated(h, f), f)
    ensures var n := Flushed(Updated(h, f), f);
            Acceptable(n) && Fits(HeadersOf(n), n) && Updated(HeadersOf(n), n) == Updated(h, f)
  {
    hide Finish, PieceSum, Flushed, Unspoiled;
    UpdatedFacts(h, f);
    var u := Updated(h, f);
    UpdateKeepsUnspoiled(h, u, f);
    ReloadFlushed(u, f);
    PieceSumAfterFlush(u, Zeroed(h), f);
    OverwriteTwice(Zeroed(h).opt, CHECKSUM_AT, Bytes32(StoredChecksum(u)), [0, 0, 0, 0]);
    assert Zeroed(u) == Zeroed(h);
  }

  lemma OverwriteSlice(f: seq<Byte>, at: nat, len: nat, k: nat, p: seq<Byte>)
    requires at + len <= |f| && k + |p| <= len
    ensures Overwrite(f, at, Overwrite(f[at..at + len], k, p)) == Overwrite(f, at + k, p)
  {
  }

  /** Writing back headers as they were loaded, but for one field in each of the last two. */
  lemma WriteBack(f: seq<Byte>, off: nat, len: nat, p: seq<Byte>, q: seq<Byte>)
    requires |p| == 4 && |q| == 4 && MZ_SIZE <= |f| && off + PE_SIZE + len <= |f| && CHECKSUM_AT + 4 <= len
    ensures var pe, opt := f[off..off + PE_SIZE], f[off + PE_SIZE..off + PE_SIZE + len];
            var g := Overwrite(f, off + STAMP_AT, p);
            && Overwrite(Overwrite(f, 0, f[0..MZ_SIZE]), off, Overwrite(pe, STAMP_AT, p)) == g
            && Overwrite(g, off + PE_SIZE, opt) == g
            && Overwrite(g, off + PE_SIZE, Overwrite(opt, CHECKSUM_AT, q))
               == Overwrite(g, off + PE_SIZE + CHECKSUM_AT, q)
  {
    OverwriteItself(f, 0, MZ_SIZE);
    OverwriteSlice(f, off, PE_SIZE, STAMP_AT, p);
    var g := Overwrite(f, off + STAMP_AT, p);
    assert g[off + PE_SIZE..off + PE_SIZE + len] == f[off + PE_SIZE..off + PE_SIZE + len];
    hide Overwrite;
    OverwriteItself(g, off + PE_SIZE, len);
    OverwriteSlice(g, off + PE_SIZE, len, CHECKSUM_AT, q);
  }

  lemma OverwriteItself(f: seq<Byte>, at: nat, len: nat)
    requires at + len <= |f|
    ensures Overwrite(f, at, f[at..at + len]) == f
  {
  }

  /** Only the two fields of the file change, in every layout. */
  lemma FlushedImage(f: seq<Byte>, stamp: nat, v: nat)
    requires Acceptable(f) && |f| < TWO32 && stamp < TWO32 && v < TWO32
    ensures Fits(WithChecksum(WithStamp(HeadersOf(f), stamp), v), f)
    ensures Flushed(WithChecksum(WithStamp(HeadersOf(f), stamp), v), f)
         == Overwrite(Overwrite(f, PeOffset(f) + STAMP_AT, Bytes32(stamp)),
                      PeOffset(f) + PE_SIZE + CHECKSUM_AT, Bytes32(v))
  {
    hide Bytes32, Acceptable, Genuine, Overwrite, PeOffset, OptLen, HeadersOf;
    AcceptableSize(f);
    LoadedHeaders(f);
    LoadedSlices(f);
    var h := HeadersOf(f);
    StampKeeps(h, f, stamp);
    ChecksumKeeps(WithStamp(h, stamp), f, v);
    WriteBack(f, PeOffset(f), |h.opt|, Bytes32(stamp), Bytes32(v));
  }

  lemma LoadedSlices(f: seq<Byte>)
    requires Acceptable(f)
    ensures var h, off := HeadersOf(f), PeOffset(f);
            && |f| >= MZ_SIZE && off + PE_SIZE + |h.opt| <= |f| && OPT_SIZE <= |h.opt|
            && h.mz == f[..MZ_SIZE] == f[0..MZ_SIZE] && h.pe == f[off..off + PE_SIZE]
            && h.opt == f[off + PE_SIZE..off + PE_SIZE + |h.opt|]
  {
    hide Word16, Word32;
  }

  /** The stamp field lies behind the MZ header, or already holds the same bytes where it does not. */
  predicate StampClear(f: seq<Byte>, stamp: nat)
    requires Acceptable(f) && stamp < TWO32
  {
    Overwrite(f, PeOffset(f) + STAMP_AT, Bytes32(stamp))[..MZ_SIZE] == f[..MZ_SIZE]
  }

  lemma StampSpoils(f: seq<Byte>, stamp: nat)
    requires Acceptable(f) && |f| < TWO32 && stamp < TWO32
    ensures Fits(WithStamp(HeadersOf(f), stamp), f)
    ensures Unspoiled(WithStamp(HeadersOf(f), stamp), f) <==> StampClear(f, stamp)
    ensures PeOffset(f) + STAMP_AT >= MZ_SIZE ==> StampClear(f, stamp)
  {
    hide Bytes32, Acceptable, Genuine, Overwrite, PeOffset, OptLen, HeadersOf;
    AcceptableSize(f);
    LoadedHeaders(f);
    LoadedSlices(f);
    var h := HeadersOf(f);
    StampKeeps(h, f, stamp);
    WriteBack(f, PeOffset(f), |h.opt|, Bytes32(stamp), Bytes32(stamp));
    FrontKept(f, PeOffset(f) + STAMP_AT, Bytes32(stamp));
    assert Flushed(WithStamp(h, stamp), f) == Overwrite(f, PeOffset(f) + STAMP_AT, Bytes32(stamp));
  }

  lemma FrontKept(f: seq<Byte>, at: nat, p: seq<Byte>)
    requires at + |p| <= |f| && MZ_SIZE <= |f|
    ensures at >= MZ_SIZE ==> Overwrite(f, at, p)[..MZ_SIZE] == f[..MZ_SIZE]
  {
  }
}
