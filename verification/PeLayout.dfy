/** The offsets petools works with, from the sizes of the fields of its header structures (pe.h). */
module PeLayout {
  import opened Bytes
  import opened Checksum
  import opened PeFile
  import opened PeStamp

  function Sum(sizes: seq<nat>): nat {
    if sizes == [] then 0 else sizes[0] + Sum(sizes[1..])
  }

  lemma SumCons(a: nat, s: seq<nat>)
    ensures Sum([a] + s) == a + Sum(s)
  {
    assert ([a] + s)[1..] == s;
  }

  lemma SumFour(a: nat, b: nat, c: nat, d: nat)
    ensures Sum([a, b, c, d]) == a + b + c + d
  {
    assert [a, b, c, d] == [a] + ([b] + ([c] + ([d] + [])));
    SumCons(a, [b] + ([c] + ([d] + [])));
    SumCons(b, [c] + ([d] + []));
    SumCons(c, [d] + []);
    SumCons(d, []);
  }

  // ----- struct mz_header_t

  const SIGNATURE_AND_PAD: seq<nat> := [2, 58, 0, 0]
  const PE_OFFSET: seq<nat> := [4, 0, 0, 0]

  // ----- struct pe32_header_t: signature, machine, numberOfSections | timeDateStamp, pointerToSymbolTable,
  //       numberOfSymbols | sizeOfOptionalHeader, characteristics

  const BEFORE_STAMP: seq<nat> := [4, 2, 2, 0]
  const STAMP_AND_SYMBOLS: seq<nat> := [4, 4, 4, 0]
  const SIZE_AND_FLAGS: seq<nat> := [2, 2, 0, 0]

  // ----- struct pe32_opt_header_t

  const MAGIC_TO_CODE: seq<nat> := [2, 1, 1, 4]           // magic, linker versions, sizeOfCode
  const DATA_TO_BASE: seq<nat> := [4, 4, 4, 4]            // data sizes, addressOfEntryPoint, baseOfCode
  const BASES: seq<nat> := [4, 4, 4, 4]                   // baseOfData, imageBase, the two alignments
  const VERSIONS: seq<nat> := [4, 4, 4, 4]                // three pairs of 16-bit versions, win32VersionValue
  const IMAGE_AND_HEADERS: seq<nat> := [4, 4, 0, 0]       // sizeOfImage, sizeOfHeaders
  const CHECK_SUM: seq<nat> := [4, 2, 2, 0]               // checkSum, subsystem, dllCharacteristics
  const RESERVES: seq<nat> := [4, 4, 4, 4]
  const LOADER: seq<nat> := [4, 4, 0, 0]

  /** Every offset is the size of the fields in front of it, and every header the size of its fields. */
  lemma Layout()
    ensures PE_OFFSET_AT == Sum(SIGNATURE_AND_PAD) && MZ_SIZE == Sum(SIGNATURE_AND_PAD) + Sum(PE_OFFSET)
    ensures STAMP_AT == Sum(BEFORE_STAMP) && OPT_LEN_AT == Sum(BEFORE_STAMP) + Sum(STAMP_AND_SYMBOLS)
    ensures PE_SIZE == Sum(BEFORE_STAMP) + Sum(STAMP_AND_SYMBOLS) + Sum(SIZE_AND_FLAGS)
    ensures CHECKSUM_AT == Sum(MAGIC_TO_CODE) + Sum(DATA_TO_BASE) + Sum(BASES) + Sum(VERSIONS) + Sum(IMAGE_AND_HEADERS)
    ensures OPT_SIZE == CHECKSUM_AT + Sum(CHECK_SUM) + Sum(RESERVES) + Sum(LOADER)
  {
    hide Sum;
    SumFour(2, 58, 0, 0);
    SumFour(4, 0, 0, 0);
    SumFour(4, 2, 2, 0);
    SumFour(4, 4, 4, 0);
    SumFour(2, 2, 0, 0);
    SumFour(2, 1, 1, 4);
    SumFour(4, 4, 4, 4);
    SumFour(4, 4, 0, 0);
  }

  /** The offset of the PE header is the little-endian number in bytes 60 to 63. */
  lemma OffsetField(f: seq<Byte>)
    requires |f| >= 64
    ensures PeOffset(f) == f[60] as int + 0x100 * f[61] as int + 0x1_0000 * f[62] as int + 0x100_0000 * f[63] as int
  {
  }

  /** In the image the stamp is at 8 and the checksum at 88 bytes behind the start of the PE header. */
  lemma FieldsOfImage(f: seq<Byte>, stamp: nat, v: nat, i: nat)
    requires Acceptable(f) && stamp < TWO32 && v < TWO32 && i < |f|
    ensures var off := PeOffset(f);
            Stamped(f, stamp, v)[i] ==
              if off + 8 <= i < off + 12 then Bytes32(stamp)[i - off - 8]
              else if off + 88 <= i < off + 92 then Bytes32(v)[i - off - 88]
              else f[i]
  {
    hide Bytes32, Overwrite, PeOffset;
    var off := PeOffset(f);
    var e := Overwrite(f, off + STAMP_AT, Bytes32(stamp));
    OverwriteAt(f, off + STAMP_AT, Bytes32(stamp), i);
    OverwriteAt(e, off + PE_SIZE + CHECKSUM_AT, Bytes32(v), i);
  }

  /** The image that is summed up is the flushed one with these four bytes zero. */
  lemma ZeroedImage(h: Headers, f: seq<Byte>, i: nat)
    requires Fits(h, f) && i < |f|
    ensures Fits(Zeroed(h), f)
    ensures var at := PeOffset(h.mz) + 88;
            Flushed(Zeroed(h), f)[i] == if at <= i < at + 4 then 0 else Flushed(h, f)[i]
  {
    hide Overwrite, PeOffset, OptLen;
    var z, off := Zeroed(h), PeOffset(h.mz);
    var e := Overwrite(Overwrite(f, 0, h.mz), off, h.pe);
    OverwriteAt(e, off + PE_SIZE, h.opt, i);
    OverwriteAt(e, off + PE_SIZE, z.opt, i);
    if off + PE_SIZE <= i < off + PE_SIZE + |h.opt| {
      OverwriteAt(h.opt, CHECKSUM_AT, [0, 0, 0, 0], i - off - PE_SIZE);
    }
  }
}
