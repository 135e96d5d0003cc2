/** The streaming interface of md5.c: init, process in pieces, finish. */
module Md5 {
  import opened Bytes
  import opened Md5Spec
  import Md5Rounds

  const TWO64: nat := 0x1_0000_0000_0000_0000

  /** The double-word byte counter after `total[0] += len; if (total[0] < len) ++total[1];`
      with 32-bit counters and a `len` of any width. */
  function AddCount(total: (nat, nat), len: nat): (nat, nat) {
    var t0 := (total.0 + len) % TWO32;
    (t0, if t0 < len then (total.1 + 1) % TWO32 else total.1)
  }

  predicate IsCount(total: (nat, nat), n: nat) {
    total.0 < TWO32 && total.1 < TWO32 && total.1 * TWO32 + total.0 == n % TWO64
  }

  lemma AddMod(n: nat, len: nat)
    ensures (n + len) % TWO64 == (n % TWO64 + len) % TWO64
  {
  }

  lemma CountBelow(total: (nat, nat), n: nat, len: nat)
    requires IsCount(total, n) && len < TWO32
    ensures IsCount(AddCount(total, len), n + len)
  {
    var m := n % TWO64;
    AddMod(n, len);
    if total.0 + len < TWO32 {
      assert AddCount(total, len) == (total.0 + len, total.1);
      assert m + len < TWO64;
    } else {
      assert AddCount(total, len).0 == total.0 + len - TWO32 < len;
      if total.1 + 1 == TWO32 {
        assert m + len - TWO64 == total.0 + len - TWO32;
        assert (m + len) % TWO64 == m + len - TWO64;
      } else {
        assert m + len < TWO64;
      }
    }
  }

  lemma CountUnique(total: (nat, nat), n: nat)
    requires total.0 < TWO32 && total.1 < TWO32
    ensures IsCount(total, n) <==> total.0 == n % TWO32 && total.1 == n / TWO32 % TWO32
  {
    var m := n % TWO64;
    assert n == n / TWO64 * TWO64 + m;
    assert n / TWO32 == n / TWO64 * TWO32 + m / TWO32;
    assert n / TWO32 % TWO32 == m / TWO32;
    assert n % TWO32 == m % TWO32;
  }

  /** The counter is advanced correctly by every call below 4 GiB; above that, exactly when the high
      word happens to have to grow by one. */
  lemma CountIff(total: (nat, nat), n: nat, len: nat)
    requires IsCount(total, n)
    ensures IsCount(AddCount(total, len), n + len) <==>
            len < TWO32 || (len / TWO32 + (total.0 + len % TWO32) / TWO32) % TWO32 == 1
  {
    if len < TWO32 {
      CountBelow(total, n, len);
    } else {
      CountAbove(total, n, len);
    }
  }

  lemma DivOfSum(n: nat, len: nat)
    ensures (n + len) / TWO32 == n / TWO32 + (len / TWO32 + (n % TWO32 + len % TWO32) / TWO32)
    ensures (n + len) % TWO32 == (n % TWO32 + len % TWO32) % TWO32
  {
    var r, s := n % TWO32, len % TWO32;
    assert n + len == (n / TWO32 + len / TWO32) * TWO32 + (r + s);
  }

  lemma AddCountAbove(total: (nat, nat), len: nat)
    requires total.0 < TWO32 && total.1 < TWO32 && len >= TWO32
    ensures AddCount(total, len) == ((total.0 + len % TWO32) % TWO32, (total.1 + 1) % TWO32)
  {
    DivOfSum(total.0, len);
    assert total.0 % TWO32 == total.0;
  }

  lemma CountAbove(total: (nat, nat), n: nat, len: nat)
    requires IsCount(total, n) && len >= TWO32
    ensures IsCount(AddCount(total, len), n + len) <==>
            (len / TWO32 + (total.0 + len % TWO32) / TWO32) % TWO32 == 1
  {
    CountUnique(total, n);
    AddCountAbove(total, len);
    hide IsCount, AddCount;
    CountUnique(AddCount(total, len), n + len);
    DivOfSum(n, len);
    HighWord(n / TWO32, total.1, len / TWO32 + (total.0 + len % TWO32) / TWO32);
  }

  /** A single call of 8 GiB advances the high word by one instead of two. */
  lemma CountFails()
    ensures IsCount((0, 0), 0) && !IsCount(AddCount((0, 0), 2 * TWO32), 2 * TWO32)
  {
  }

  lemma HighWord(a: nat, r: nat, k: nat)
    requires r == a % TWO32
    ensures (a + k) % TWO32 == (r + 1) % TWO32 <==> k % TWO32 == 1
  {
    var d := k % TWO32;
    assert (a + k) % TWO32 == (r + d) % TWO32;
  }

  /** Registers and counter after the whole blocks `data`. */
  ghost predicate IsHash(r: Regs, total: (nat, nat), data: seq<Byte>) {
    |data| % 64 == 0 && r == Blocks(INITIAL, data) && IsCount(total, |data|)
  }

  lemma HashExtends(r: Regs, total: (nat, nat), p: seq<Byte>, q: seq<Byte>)
    requires IsHash(r, total, p) && |q| % 64 == 0 && |q| < TWO32
    ensures IsHash(Blocks(r, q), AddCount(total, |q|), p + q)
  {
    hide Blocks, AddCount, IsCount;
    BlocksConcat(INITIAL, p, q);
    CountBelow(total, |p|, |q|);
  }

  method Copy(dst: array<Byte>, at: nat, src: seq<Byte>)
    requires at + |src| <= dst.Length
    modifies dst
    ensures dst[..] == old(dst[..at]) + src + old(dst[at + |src|..])
  {
    forall i | 0 <= i < |src| {
      dst[at + i] := src[i];
    }
  }

  lemma Regroup(h: seq<Byte>, p: seq<Byte>, k: nat)
    requires k <= |p|
    ensures h + p == h + p[..k] + p[k..]
  {
    assert p == p[..k] + p[k..];
  }

  /** `struct md5_ctx`. */
  class Context {
    var A: Word
    var B: Word
    var C: Word
    var D: Word
    var total: (nat, nat)
    var buflen: nat
    const buffer: array<Byte>
    ghost var hashed: seq<Byte>   // everything that has gone through ProcessBlock

    /** The context stands for `input`: whole blocks are hashed and counted, the rest is in the
        buffer, where up to one whole block may be waiting. */
    ghost predicate Holds(input: seq<Byte>)
      reads this, buffer
    {
      && buffer.Length == 128
      && buflen <= 64
      && input == hashed + buffer[..buflen]
      && Hashed()
    }

    ghost predicate Hashed()
      reads this`A, this`B, this`C, this`D, this`total, this`hashed
    {
      IsHash(Regs(A, B, C, D), total, hashed)
    }

    constructor ()
      ensures Holds([]) && fresh(buffer)
    {
      A, B, C, D := 0x67452301, 0xefcdab89, 0x98badcfe, 0x10325476;
      total := (0, 0);
      buflen := 0;
      buffer := new Byte[128](_ => 0);
      hashed := [];
    }

    /** `md5_process_block`. */
    method ProcessBlock(data: seq<Byte>)
      requires |data| % 64 == 0
      modifies this`A, this`B, this`C, this`D, this`total
      ensures Regs(A, B, C, D) == Blocks(old(Regs(A, B, C, D)), data)
      ensures total == AddCount(old(total), |data|)
    {
      hide Compress, Plus, Blocks, Operations, WordsOf;
      ghost var start := Regs(A, B, C, D);
      total := AddCount(total, |data|);
      var pos := 0;
      assert data[..0] == [];
      BlocksNone(start);
      while pos < |data|
        invariant 0 <= pos <= |data| && pos % 64 == 0 && total == AddCount(old(total), |data|)
        invariant Regs(A, B, C, D) == Blocks(start, data[..pos])
      {
        var save := Regs(A, B, C, D);
        var block := data[pos..pos + 64];
        assert data[..pos] + block == data[..pos + 64];
        BlocksConcat(start, data[..pos], block);
        BlocksOne(save, block);
        var q := Md5Rounds.Rounds2(save, WordsOf(block));
        CompressAdds(save, WordsOf(block));
        A, B, C, D := Plus(q.a, save.a), Plus(q.b, save.b), Plus(q.c, save.c), Plus(q.d, save.d);
        pos := pos + 64;
      }
      assert data[..pos] == data;
    }

    /** Hashes whole blocks and books them as hashed. */
    method Absorb(data: seq<Byte>)
      requires Hashed() && |data| % 64 == 0 && |data| < TWO32
      modifies this`A, this`B, this`C, this`D, this`total, this`hashed
      ensures Hashed() && hashed == old(hashed) + data
    {
      hide IsHash, Blocks, AddCount;
      HashExtends(Regs(A, B, C, D), total, hashed, data);
      ProcessBlock(data);
      hashed := hashed + data;
    }

    /** The first half of md5_process_bytes: top up a non-empty buffer and hash what is complete. */
    method TopUp(data: seq<Byte>, ghost input: seq<Byte>) returns (add: nat)
      requires Holds(input) && buflen != 0
      modifies this, buffer
      ensures add <= |data| && Holds(input + data[..add])
      ensures add < |data| ==> buflen == 0
    {
      hide Hashed;
      var leftOver := buflen;
      add := if 128 - leftOver > |data| then |data| else 128 - leftOver;
      Copy(buffer, leftOver, data[..add]);
      buflen := buflen + add;
      assert buffer[..buflen] == old(buffer[..leftOver]) + data[..add];
      ghost var pending := buffer[..buflen];
      assert input + data[..add] == hashed + pending;
      if leftOver + add > 64 {
        HashBuffer();
      }
    }

    /** Hashes the whole blocks in the buffer and moves the rest to its front. */
    method HashBuffer()
      requires buffer.Length == 128 && 64 < buflen <= 128 && Hashed()
      modifies this, buffer
      ensures Holds(old(hashed + buffer[..buflen])) && buflen == old(buflen) % 64
    {
      hide Hashed;
      var whole := buflen / 64 * 64;
      var pending := buffer[..buflen];
      var tail := pending[whole..];
      Regroup(hashed, pending, whole);
      Absorb(pending[..whole]);
      Copy(buffer, 0, tail);
      buflen := buflen % 64;
      assert buffer[..buflen] == tail;
    }

    /** The second half of md5_process_bytes: hash complete blocks, keep the rest (or one whole block). */
    method StoreRest(data: seq<Byte>, ghost input: seq<Byte>)
      requires Holds(input) && |data| < TWO32 && (data != [] ==> buflen == 0)
      modifies this, buffer
      ensures Holds(input + data)
    {
      hide IsHash;
      var rest := data;
      if |rest| > 64 {
        var whole := |rest| / 64 * 64;
        Absorb(rest[..whole]);
        rest := rest[whole..];
        assert data == data[..whole] + rest;
      }
      assert hashed + (buffer[..buflen] + rest) == input + data;
      if |rest| > 0 {
        Copy(buffer, 0, rest);
        buflen := |rest|;
        assert buffer[..buflen] == rest;
      }
    }

    /** `md5_process_bytes`. */
    method ProcessBytes(data: seq<Byte>, ghost input: seq<Byte>)
      requires Holds(input) && |data| < TWO32
      modifies this, buffer
      ensures Holds(input + data)
    {
      hide Hashed;
      if buflen != 0 {
        var add := TopUp(data, input);
        assert (input + data[..add]) + data[add..] == input + data;
        StoreRest(data[add..], input + data[..add]);
      } else {
        StoreRest(data, input);
      }
    }

    /** The padding and length md5_finish_ctx writes behind the pending bytes. */
    method AppendPadding() returns (end: nat)
      requires buffer.Length == 128 && buflen <= 64 && total.0 < TWO32
      modifies buffer
      ensures end <= 128 && buffer[..end] == FinalBytes(old(buffer[..buflen]), total)
    {
      var bytes := buflen;
      var pad := if bytes >= 56 then 64 + 56 - bytes else 56 - bytes;
      end := bytes + pad + 8;
      AppendMark(bytes, pad);
      var low := LittleEndian(total.0 * 8 % TWO32, 4);
      var high := LittleEndian(total.1 * 8 % TWO32 + total.0 / 0x2000_0000, 4);
      hide LittleEndian, Zeros;
      AppendWords(bytes + pad, low, high);
    }

    method AppendMark(bytes: nat, pad: nat)
      requires buffer.Length == 128 && 1 <= pad && bytes + pad <= 120
      modifies buffer
      ensures buffer[..bytes + pad] == old(buffer[..bytes]) + [0x80] + Zeros(pad - 1)
    {
      Copy(buffer, bytes, Zeros(pad));
      buffer[bytes] := 0x80;
    }

    method AppendWords(at: nat, low: seq<Byte>, high: seq<Byte>)
      requires buffer.Length == 128 && at <= 120 && |low| == |high| == 4
      modifies buffer
      ensures buffer[..at + 8] == old(buffer[..at]) + low + high
    {
      Copy(buffer, at, low);
      assert buffer[..at + 4] == old(buffer[..at]) + low;
      Copy(buffer, at + 4, high);
    }

    /** `md5_finish_ctx`. */
    method Finish(ghost input: seq<Byte>) returns (digest: seq<Byte>)
      requires Holds(input)
      modifies this, buffer
      ensures digest == Digest(input)
    {
      hide Blocks, IsCount, INITIAL, AddCount, FinalBytes, Pad;
      var bytes := buflen;
      ghost var tail := buffer[..bytes];
      CountBelow(total, |hashed|, bytes);
      total := AddCount(total, bytes);
      PaddingMatches(hashed, tail, total);
      var end := AppendPadding();
      BlocksConcat(INITIAL, hashed, FinalBytes(tail, total));
      ProcessBlock(buffer[..end]);
      digest := Output(Regs(A, B, C, D));
    }
  }

  // ----- the padding of md5_finish_ctx against sections 3.1 and 3.2

  function FinalBytes(tail: seq<Byte>, total: (nat, nat)): seq<Byte>
    requires |tail| <= 64
  {
    var pad := if |tail| >= 56 then 120 - |tail| else 56 - |tail|;
    tail + [0x80] + Zeros(pad - 1)
    + LittleEndian(total.0 * 8 % TWO32, 4)
    + LittleEndian(total.1 * 8 % TWO32 + total.0 / 0x2000_0000, 4)
  }

  lemma LittleEndianLow(v: nat)
    ensures LittleEndian(v, 4) == LittleEndian(v % TWO32, 4)
  {
    hide LittleEndian;
    LowBytes(v);
    LittleEndian4(v);
    LittleEndian4(v % TWO32);
  }

  lemma LowBytes(v: nat)
    ensures var w := v % TWO32;
            && v % 256 == w % 256 && v / 256 % 256 == w / 256 % 256
            && v / 256 / 256 % 256 == w / 256 / 256 % 256
            && v / 256 / 256 / 256 % 256 == w / 256 / 256 / 256 % 256
  {
    var q, w := v / TWO32, v % TWO32;
    assert v / 256 == q * 0x100_0000 + w / 256;
    assert v / 256 / 256 == q * 0x1_0000 + w / 256 / 256;
    assert v / 256 / 256 / 256 == q * 0x100 + w / 256 / 256 / 256;
  }

  lemma LittleEndian4(v: nat)
    ensures LittleEndian(v, 4)
         == [v % 256, v / 256 % 256, v / 256 / 256 % 256, v / 256 / 256 / 256 % 256]
  {
    var v1, v2, v3 := v / 256, v / 256 / 256, v / 256 / 256 / 256;
    assert LittleEndian(v3, 1) == [v3 % 256] + LittleEndian(v3 / 256, 0);
    assert LittleEndian(v2, 2) == [v2 % 256] + LittleEndian(v3, 1);
    assert LittleEndian(v1, 3) == [v1 % 256] + LittleEndian(v2, 2);
    assert LittleEndian(v, 4) == [v % 256] + LittleEndian(v1, 3);
  }

  lemma {:induction false} LittleEndianSplit(v: nat, n: nat)
    requires n >= 4
    ensures LittleEndian(v, n) == LittleEndian(v, 4) + LittleEndian(v / TWO32, n - 4)
  {
    var v1, v2, v3, v4 := v / 256, v / 256 / 256, v / 256 / 256 / 256, v / 256 / 256 / 256 / 256;
    assert v4 == v / TWO32;
    LittleEndian4(v);
    assert LittleEndian(v3, n - 3) == [v3 % 256] + LittleEndian(v4, n - 4);
    assert LittleEndian(v2, n - 2) == [v2 % 256] + LittleEndian(v3, n - 3);
    assert LittleEndian(v1, n - 1) == [v1 % 256] + LittleEndian(v2, n - 2);
    assert LittleEndian(v, n) == [v % 256] + LittleEndian(v1, n - 1);
  }

  lemma TimesEight(t0: nat, t1: nat)
    requires t0 < TWO32 && t1 < TWO32
    ensures var lo, hi := t0 * 8 % TWO32, t1 * 8 % TWO32 + t0 / 0x2000_0000;
            hi < TWO32 && 8 * (t1 * TWO32 + t0) == t1 * 8 / TWO32 * TWO64 + (hi * TWO32 + lo)
  {
    var c0, x := t0 / 0x2000_0000, t0 % 0x2000_0000;
    assert t0 * 8 == c0 * TWO32 + x * 8;
    assert t0 * 8 % TWO32 == x * 8;
    var c1, y := t1 / 0x2000_0000, t1 % 0x2000_0000;
    assert t1 * 8 == c1 * TWO32 + y * 8;
    assert t1 * 8 % TWO32 == y * 8 && t1 * 8 / TWO32 == c1;
  }

  lemma ModOfMultiple(k: nat, v: nat)
    requires v < TWO64
    ensures (k * TWO64 + v) % TWO64 == v
  {
  }

  lemma BitLength(total: (nat, nat), n: nat)
    requires IsCount(total, n)
    ensures 8 * n % TWO64 == (total.1 * 8 % TWO32 + total.0 / 0x2000_0000) * TWO32 + total.0 * 8 % TWO32
  {
    var v := (total.1 * 8 % TWO32 + total.0 / 0x2000_0000) * TWO32 + total.0 * 8 % TWO32;
    TimesEight(total.0, total.1);
    var k := 8 * (n / TWO64) + total.1 * 8 / TWO32;
    assert n == n / TWO64 * TWO64 + (total.1 * TWO32 + total.0);
    assert 8 * n == k * TWO64 + v;
    ModOfMultiple(k, v);
  }

  lemma TwoWords(hi: nat, lo: nat)
    requires lo < TWO32
    ensures (hi * TWO32 + lo) % TWO32 == lo && (hi * TWO32 + lo) / TWO32 == hi
  {
  }

  /** The two words written from the byte counter are the bit length modulo 2^64. */
  lemma LengthMatches(total: (nat, nat), n: nat)
    requires IsCount(total, n)
    ensures LittleEndian(total.0 * 8 % TWO32, 4)
          + LittleEndian(total.1 * 8 % TWO32 + total.0 / 0x2000_0000, 4)
         == LittleEndian(8 * n % TWO64, 8)
  {
    hide LittleEndian;
    var lo, hi := total.0 * 8 % TWO32, total.1 * 8 % TWO32 + total.0 / 0x2000_0000;
    var v := hi * TWO32 + lo;
    BitLength(total, n);
    hide IsCount;
    TwoWords(hi, lo);
    LittleEndianSplit(v, 8);
    LittleEndianLow(v);
  }

  lemma PaddingMatches(hashed: seq<Byte>, tail: seq<Byte>, total: (nat, nat))
    requires |hashed| % 64 == 0 && |tail| <= 64 && IsCount(total, |hashed| + |tail|)
    ensures |FinalBytes(tail, total)| % 64 == 0
    ensures Pad(hashed + tail) == hashed + FinalBytes(tail, total)
  {
    hide IsCount, LittleEndian, Zeros, ZeroFill;
    LengthMatches(total, |hashed| + |tail|);
    FillMatches(|hashed|, |tail|);
    var pad := if |tail| >= 56 then 120 - |tail| else 56 - |tail|;
    var lo, hi := LittleEndian(total.0 * 8 % TWO32, 4), LittleEndian(total.1 * 8 % TWO32 + total.0 / 0x2000_0000, 4);
    Reassociate(hashed, tail, [0x80], Zeros(pad - 1), lo, hi);
  }

  lemma FillMatches(n: nat, t: nat)
    requires n % 64 == 0 && t <= 64
    ensures ZeroFill(n + t) == (if t >= 56 then 120 - t else 56 - t) - 1
  {
    SixtyFour(n, t);
    FillOf(t);
  }

  lemma FillOf(t: nat)
    requires t <= 64
    ensures (119 - t % 64) % 64 == (if t >= 56 then 120 - t else 56 - t) - 1
  {
    assert t % 64 == if t == 64 then 0 else t;
  }

  lemma SixtyFour(n: nat, t: nat)
    requires n % 64 == 0
    ensures (n + t) % 64 == t % 64
  {
    assert n + t == 64 * (n / 64 + t / 64) + t % 64;
  }

  lemma Reassociate(h: seq<Byte>, t: seq<Byte>, a: seq<Byte>, z: seq<Byte>, lo: seq<Byte>, hi: seq<Byte>)
    ensures h + t + a + z + (lo + hi) == h + (t + a + z + lo + hi)
  {
  }

  // ----- whole digests

  function Flatten(chunks: seq<seq<Byte>>): seq<Byte> {
    if chunks == [] then [] else Flatten(chunks[..|chunks| - 1]) + chunks[|chunks| - 1]
  }

  /** Init, process in any pieces, finish: always the one-shot digest of the whole. */
  method DigestOfPieces(chunks: seq<seq<Byte>>) returns (digest: seq<Byte>)
    requires forall i :: 0 <= i < |chunks| ==> |chunks[i]| < TWO32
    ensures digest == Digest(Flatten(chunks))
  {
    hide Digest;
    var ctx := new Context();
    assert chunks[..0] == [];
    for i := 0 to |chunks|
      invariant fresh(ctx) && fresh(ctx.buffer)
      invariant ctx.Holds(Flatten(chunks[..i]))
    {
      assert chunks[..i + 1][..i] == chunks[..i];
      ctx.ProcessBytes(chunks[i], Flatten(chunks[..i]));
    }
    assert chunks[..|chunks|] == chunks;
    digest := ctx.Finish(Flatten(chunks));
  }

  const BLOCKSIZE: nat := 4096

  /** One fread of at most `count` bytes: short reads are allowed, nothing is returned only at the
      end, be it the end of the file or a read error. */
  method Fread(file: seq<Byte>, pos: nat, count: nat) returns (n: nat)
    requires pos <= |file| && count > 0
    ensures n <= count && pos + n <= |file| && (n == 0 ==> pos == |file|)
  {
    n :| 0 <= n <= count && pos + n <= |file| && (n == 0 ==> pos == |file|) by {
      assert pos < |file| ==> pos + 1 <= |file|;
      var k := if pos < |file| then 1 else 0;
      assert 0 <= k <= count && pos + k <= |file| && (k == 0 ==> pos == |file|);
    }
  }

  /** `md5_stream`: the digest of the whole file, whatever short counts fread returns, unless the stream
      has a read error behind `file`, which is then reported. */
  method StreamDigest(file: seq<Byte>, ferror: bool) returns (error: bool, digest: seq<Byte>)
    ensures error == ferror && (!error ==> digest == Digest(file))
  {
    hide Digest, IsHash;
    var ctx := new Context();
    var done := 0;                 // file[..done] has been processed
    var sum, n := 0, 1;
    while n != 0
      invariant 0 <= done <= done + sum <= |file| && sum < BLOCKSIZE
      invariant n != 0 ==> sum == 0
      invariant n == 0 ==> done + sum == |file| && !ferror
      invariant fresh(ctx) && fresh(ctx.buffer) && ctx.buflen == 0 && ctx.Holds(file[..done])
      decreases |file| - done, n
    {
      sum, n := FillBlock(file, done);
      if n == 0 && ferror {
        return true, [];
      }
      if n != 0 {
        assert file[..done + sum] == file[..done] + file[done..done + sum];
        ctx.Absorb(file[done..done + sum]);
        done, sum := done + sum, 0;
      }
    }
    assert file == file[..done] + file[done..done + sum] && (sum == 0 ==> file == file[..done]);
    if sum > 0 {
      ctx.ProcessBytes(file[done..done + sum], file[..done]);
    }
    error := false;
    digest := ctx.Finish(file);
  }

  /** The inner loop of md5_stream: reads until the block is full or the file ends. */
  method FillBlock(file: seq<Byte>, pos: nat) returns (sum: nat, n: nat)
    requires pos <= |file|
    ensures pos + sum <= |file|
    ensures if n != 0 then sum == BLOCKSIZE else sum < BLOCKSIZE && pos + sum == |file|
  {
    sum := 0;
    n := Fread(file, pos, BLOCKSIZE);
    sum := n;
    while sum < BLOCKSIZE && n != 0
      invariant pos + sum <= |file| && sum <= BLOCKSIZE
      invariant n == 0 ==> pos + sum == |file| && sum < BLOCKSIZE
      decreases BLOCKSIZE - sum, n
    {
      n := Fread(file, pos + sum, BLOCKSIZE - sum);
      sum := sum + n;
    }
  }
}
