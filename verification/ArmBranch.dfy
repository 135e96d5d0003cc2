/** The ARM branch instruction mkpimage writes into a boot image. */
module ArmBranch {
  import opened Bytes

  const BRANCH_INST: Byte := 0xea

  /** `>>` on a C int shifts arithmetically: it rounds towards minus infinity, as / does here. */
  function Instruction(offset: int): (code: seq<Byte>)
    ensures |code| == 4
  {
    [offset / 4 % 256, offset / 1024 % 256, offset / 262144 % 256, BRANCH_INST]
  }

  /** `branch`: the instruction at `at` that should jump to `dest`, both relative to the buffer. */
  method Branch(buf: array<Byte>, at: nat, dest: int)
    requires at + 4 <= buf.Length
    modifies buf
    ensures buf[..] == old(buf[..at]) + Instruction(dest - at - 8) + old(buf[at + 4..])
  {
    var offset := dest - at - 8;
    buf[at] := offset / 4 % 256;
    buf[at + 1] := offset / 1024 % 256;
    buf[at + 2] := offset / 262144 % 256;
    buf[at + 3] := BRANCH_INST;
  }

  datatype Effect = Jump(target: int) | Other

  /** What the processor does with a word at `at`: condition 1110 (always) and opcode 1010 (branch without
      link) go a signed 24-bit count of words from eight bytes ahead. */
  function Execute(at: int, code: seq<Byte>): Effect
    requires |code| == 4
  {
    var b0: int, b1: int, b2: int := code[0], code[1], code[2];
    var field := b0 + 0x100 * b1 + 0x1_0000 * b2;
    var words := if field < 0x80_0000 then field else field - 0x100_0000;
    if code[3] / 16 == 14 && code[3] % 16 == 10 then Jump(at + 8 + 4 * words) else Other
  }

  /** The low 24 bits of w, as a signed number. */
  function Signed24(w: int): int {
    var field := w % 0x100_0000;
    if field < 0x80_0000 then field else field - 0x100_0000
  }

  lemma FieldOf(w: int)
    ensures w % 256 + 0x100 * (w / 256 % 256) + 0x1_0000 * (w / 256 / 256 % 256) == w % 0x100_0000
  {
    var field := w % 256 + 0x100 * (w / 256 % 256) + 0x1_0000 * (w / 256 / 256 % 256);
    assert w == field + 0x100_0000 * (w / 256 / 256 / 256);
  }

  lemma TargetOf(at: int, offset: int)
    ensures Execute(at, Instruction(offset)) == Jump(at + 8 + 4 * Signed24(offset / 4))
  {
    var w := offset / 4;
    assert offset / 1024 == w / 256 && offset / 262144 == w / 256 / 256;
    FieldOf(w);
    hide Signed24;
    assert Signed24(w) == if w % 0x100_0000 < 0x80_0000 then w % 0x100_0000 else w % 0x100_0000 - 0x100_0000 by {
      SignedIs(w);
    }
  }

  lemma SignedIs(w: int)
    ensures Signed24(w) == if w % 0x100_0000 < 0x80_0000 then w % 0x100_0000 else w % 0x100_0000 - 0x100_0000
    ensures -0x80_0000 <= Signed24(w) < 0x80_0000
    ensures -0x80_0000 <= w < 0x80_0000 ==> Signed24(w) == w
  {
  }

  /** The branch arrives exactly for word-aligned destinations within 32 MiB. */
  lemma BranchReaches(at: int, dest: int)
    ensures Execute(at, Instruction(dest - at - 8)) == Jump(dest) <==>
            (dest - at) % 4 == 0 && -0x200_0000 <= dest - at - 8 < 0x200_0000
  {
    hide Execute, Instruction, Signed24;
    var offset := dest - at - 8;
    TargetOf(at, offset);
    SignedIs(offset / 4);
    assert offset == 4 * (offset / 4) + offset % 4 && offset % 4 == (dest - at) % 4;
  }
}
