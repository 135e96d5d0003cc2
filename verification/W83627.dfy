/** The port tables of the w83627hf GPIO driver, whose masks have holes and whose logical devices are shared. */
module W83627 {
  import opened GpioLines
  import opened SuperIo

  const GPIO1: int := 0x07
  const GPIO2: int := 0x08
  const GPIO3: int := 0x09
  const GPIO4: int := 0x09
  const GPIO5: int := 0x07

  /** W83627HF and W83627THF; a logical device of -1 leaves the selection alone. */
  const HF: seq<Port> := [
    Port(8, 0xff, GPIO1, 0xf0, 0xf1,
         [Cmd(-1, 0x2a, 0xfc, 0xfc), Cmd(GPIO1, REG_ENABLE, 0x03, 0x01)], [Cmd(GPIO1, REG_ENABLE, 0x03, 0x00)]),
    Port(8, 0xff, GPIO2, 0xf0, 0xf1,
         [Cmd(-1, 0x2a, 0, 0x01), Cmd(-1, 0x2b, 0, 0xff), Cmd(GPIO2, REG_ENABLE, 0x01, 0x01)],
         [Cmd(GPIO2, REG_ENABLE, 0x01, 0x00)]),
    Port(6, 0x3f, GPIO3, 0xf0, 0xf1,
         [Cmd(-1, 0x29, 0, 0xfc), Cmd(GPIO3, REG_ENABLE, 0x01, 0x01)], [Cmd(GPIO3, REG_ENABLE, 0x01, 0x01)])
  ]

  const THF: seq<Port> := [
    Port(8, 0xff, GPIO1, 0xf0, 0xf1,
         [Cmd(-1, 0x29, 0xc0, 0x40), Cmd(GPIO1, REG_ENABLE, 0x07, 0x01)], [Cmd(GPIO1, REG_ENABLE, 0x07, 0x00)]),
    Port(7, 0x7f, GPIO2, 0xf0, 0xf1,
         [Cmd(-1, 0x29, 0x03, 0x01), Cmd(-1, 0x2a, 0xfe, 0x7e), Cmd(GPIO2, REG_ENABLE, 0x01, 0x01)],
         [Cmd(GPIO2, REG_ENABLE, 0x01, 0x00)]),
    Port(7, 0xbf, GPIO3, 0xf0, 0xf1,
         [Cmd(-1, 0x2b, 0x7f, 0x10), Cmd(-1, 0x2c, 0xfc, 0x04), Cmd(GPIO3, REG_ENABLE, 0x01, 0x01)],
         [Cmd(GPIO3, REG_ENABLE, 0x01, 0x00)]),
    Port(8, 0xff, GPIO4, 0xf4, 0xf5,
         [Cmd(-1, 0x2d, 0xff, 0xfe), Cmd(GPIO4, REG_ENABLE, 0x02, 0x02)], [Cmd(GPIO4, REG_ENABLE, 0x02, 0x00)]),
    Port(6, 0x3f, GPIO5, 0xf3, 0xf4,
         [Cmd(-1, 0x29, 0x20, 0), Cmd(GPIO5, REG_ENABLE, 0x08, 0x08)], [Cmd(GPIO5, REG_ENABLE, 0x08, 0x00)])
  ]

  datatype Model = ModelHF | ModelTHF

  function Table(m: Model): seq<Port> {
    if m.ModelHF? then HF else THF
  }

  // ----- line numbers

  lemma CountUnfolded(mask: bv8)
    ensures CountBelow(mask, 8)
         == (if Has(mask, 0) then 1 else 0) + (if Has(mask, 1) then 1 else 0) + (if Has(mask, 2) then 1 else 0)
          + (if Has(mask, 3) then 1 else 0) + (if Has(mask, 4) then 1 else 0) + (if Has(mask, 5) then 1 else 0)
          + (if Has(mask, 6) then 1 else 0) + (if Has(mask, 7) then 1 else 0)
  {
    hide Has;
    assert CountBelow(mask, 2) == (if Has(mask, 0) then 1 else 0) + (if Has(mask, 1) then 1 else 0);
    assert CountBelow(mask, 4)
        == CountBelow(mask, 2) + (if Has(mask, 2) then 1 else 0) + (if Has(mask, 3) then 1 else 0);
    assert CountBelow(mask, 6)
        == CountBelow(mask, 4) + (if Has(mask, 4) then 1 else 0) + (if Has(mask, 5) then 1 else 0);
  }

  lemma MaskCounts()
    ensures CountBelow(0xff, 8) == 8 && CountBelow(0x7f, 8) == 7 && CountBelow(0xbf, 8) == 7 && CountBelow(0x3f, 8) == 6
  {
    CountUnfolded(0xff);
    CountUnfolded(0x7f);
    CountUnfolded(0xbf);
    CountUnfolded(0x3f);
    hide CountBelow;
  }

  /** Every port counts the bits of its mask, so the search numbers 22 and 36 lines one to one. */
  lemma TablesCount(m: Model)
    ensures WellFormed(Table(m)) && Total(Table(m)) == if m.ModelHF? then 22 else 36
  {
    MaskCounts();
    hide CountBelow;
    assert Before(HF, 1) == 8 && Before(HF, 2) == 16 && Before(HF, 3) == 22;
    assert Before(THF, 1) == 8 && Before(THF, 2) == 15 && Before(THF, 3) == 22;
    assert Before(THF, 4) == 30 && Before(THF, 5) == 36;
  }

  // ----- which ports a command sequence switches on and off

  /** The bits of the enable register that stand for the port. */
  function OnBits(m: Model, p: nat): bv8
    requires p < |Table(m)|
  {
    if m.ModelTHF? && p == 3 then 0x02 else if m.ModelTHF? && p == 4 then 0x08 else 0x01
  }

  /** Logical devices 7, 8 and 9 hold ports one to three; the fourth and fifth share 9 and 7. */
  function Device(m: Model, p: nat): int {
    if m.ModelTHF? && p == 3 then 9 else if m.ModelTHF? && p == 4 then 7 else 7 + p
  }

  predicate Meets(v: bv8, on: bv8) {
    v & on != 0
  }

  predicate IsOn(c: Chip, m: Model, p: nat)
    requires p < |Table(m)|
  {
    Meets(Reg(c, Device(m, p), 0x30), OnBits(m, p))
  }

  predicate IsGlobal(cmd: Cmd) {
    cmd.ld < 0 && cmd.reg != REG_ENABLE
  }

  /** Only the closing command of a sequence reaches an enable register. */
  lemma {:induction false} EnableRegister(c: Chip, cmds: seq<Cmd>, ld: int)
    requires cmds != [] && (forall i :: 0 <= i < |cmds| - 1 ==> IsGlobal(cmds[i]))
    requires var last := cmds[|cmds| - 1]; last.ld >= 0 && last.reg == REG_ENABLE
    ensures var last, v := cmds[|cmds| - 1], Reg(c, ld, REG_ENABLE);
            Reg(Exec(c, cmds), ld, REG_ENABLE) == if ld == last.ld then Replace(v, last.clr, last.put) else v
    decreases |cmds|
  {
    hide Replace;
    if |cmds| > 1 {
      assert IsGlobal(cmds[0]);
      EnableRegister(ExecOne(c, cmds[0]), cmds[1..], ld);
    } else {
      assert cmds[1..] == [];
    }
  }

  /** A command that leaves the bits alone, and one that clears them. */
  predicate Apart(clr: bv8, put: bv8, on: bv8) {
    clr & on == 0 && put & on == 0
  }

  predicate Clears(clr: bv8, put: bv8, on: bv8) {
    clr & on == on && put & on == 0
  }

  lemma Replaced(v: bv8, clr: bv8, put: bv8, on: bv8)
    ensures Apart(clr, put, on) ==> Meets(Replace(v, clr, put), on) == Meets(v, on)
    ensures Meets(put, on) ==> Meets(Replace(v, clr, put), on)
    ensures Clears(clr, put, on) ==> !Meets(Replace(v, clr, put), on)
  {
  }

  /** What the closing commands of port p's sequences clear. */
  function ClearBits(m: Model, p: nat): bv8
    requires p < |Table(m)|
  {
    if p == 0 then if m.ModelHF? then 0x03 else 0x07 else OnBits(m, p)
  }

  ghost predicate Closes(cmds: seq<Cmd>, last: Cmd) {
    cmds != [] && (forall i :: 0 <= i < |cmds| - 1 ==> IsGlobal(cmds[i])) && cmds[|cmds| - 1] == last
  }

  lemma AfterSequence(c: Chip, cmds: seq<Cmd>, last: Cmd, ld: int)
    requires Closes(cmds, last) && last.ld >= 0 && last.reg == REG_ENABLE
    ensures var v := Reg(c, ld, REG_ENABLE);
            Reg(Exec(c, cmds), ld, REG_ENABLE) == if ld == last.ld then Replace(v, last.clr, last.put) else v
  {
    hide Replace, Exec, Reg;
    EnableRegister(c, cmds, ld);
  }

  lemma SequenceShapes(m: Model, p: nat)
    requires p < |Table(m)|
    ensures var port := Table(m)[p];
            && port.ld >= 0
            && Closes(port.enable, Cmd(port.ld, REG_ENABLE, ClearBits(m, p), OnBits(m, p)))
            && Closes(port.disable, Cmd(port.ld, REG_ENABLE, ClearBits(m, p), OffBits(m, p)))
  {
    if m.ModelHF? {
      assert p == 0 || p == 1 || p == 2;
    } else {
      assert p == 0 || p == 1 || p == 2 || p == 3 || p == 4;
    }
  }

  lemma Devices(m: Model, p: nat)
    requires p < |Table(m)|
    ensures Table(m)[p].ld == Device(m, p)
  {
  }

  /** The value the closing command of port p's disable sequence puts. */
  function OffBits(m: Model, p: nat): bv8 {
    if m.ModelHF? && p == 2 then 0x01 else 0x00
  }

  /** The bits of different ports that share a logical device do not meet. */
  lemma PortsApart(m: Model, p: nat, q: nat)
    requires p < |Table(m)| && q < |Table(m)|
    ensures Meets(OnBits(m, p), OnBits(m, p))
    ensures if m.ModelHF? && p == 2 then Meets(OffBits(m, p), OnBits(m, p))
            else Clears(ClearBits(m, p), OffBits(m, p), OnBits(m, p))
    ensures p != q && Table(m)[p].ld == Table(m)[q].ld ==>
              Apart(ClearBits(m, p), OnBits(m, p), OnBits(m, q)) && Apart(ClearBits(m, p), OffBits(m, p), OnBits(m, q))
  {
    Devices(m, p);
    Devices(m, q);
    hide HF, THF;
  }

  /** Enabling a port switches on that port and no other. */
  lemma SwitchesOn(c: Chip, m: Model, p: nat, q: nat)
    requires p < |Table(m)| && q < |Table(m)|
    ensures IsOn(Exec(c, Table(m)[p].enable), m, q) <==> p == q || IsOn(c, m, q)
  {
    hide Replace, Exec, Reg, Table, OnBits, ClearBits, Closes, Meets, Apart, Clears;
    SequenceShapes(m, p);
    PortsApart(m, p, q);
    Devices(m, q);
    var port, ld := Table(m)[p], Table(m)[q].ld;
    AfterSequence(c, port.enable, Cmd(port.ld, REG_ENABLE, ClearBits(m, p), OnBits(m, p)), ld);
    Replaced(Reg(c, ld, REG_ENABLE), ClearBits(m, p), OnBits(m, p), OnBits(m, q));
  }

  /** Disabling a port switches off that port and no other, except for the third port of the W83627HF,
      which its disable sequence leaves on. */
  lemma SwitchesOff(c: Chip, m: Model, p: nat, q: nat)
    requires p < |Table(m)| && q < |Table(m)|
    ensures IsOn(Exec(c, Table(m)[p].disable), m, q) <==> if p == q then m.ModelHF? && p == 2 else IsOn(c, m, q)
  {
    hide Replace, Exec, Reg, Table, OnBits, OffBits, ClearBits, Closes, Meets, Apart, Clears;
    SequenceShapes(m, p);
    PortsApart(m, p, q);
    Devices(m, q);
    var port, ld := Table(m)[p], Table(m)[q].ld;
    AfterSequence(c, port.disable, Cmd(port.ld, REG_ENABLE, ClearBits(m, p), OffBits(m, p)), ld);
    Replaced(Reg(c, ld, REG_ENABLE), ClearBits(m, p), OffBits(m, p), OnBits(m, q));
  }

  // ----- lines and registers

  lemma CountsOfHole()
    ensures CountBelow(0xbf, 0) == 0 && CountBelow(0xbf, 1) == 1 && CountBelow(0xbf, 2) == 2 && CountBelow(0xbf, 3) == 3
    ensures CountBelow(0xbf, 4) == 4 && CountBelow(0xbf, 5) == 5 && CountBelow(0xbf, 6) == 6 && CountBelow(0xbf, 7) == 6
  {
    assert Has(0xbf, 0) && Has(0xbf, 1) && Has(0xbf, 2) && Has(0xbf, 3);
    assert Has(0xbf, 4) && Has(0xbf, 5) && !Has(0xbf, 6);
    hide Has;
    assert CountBelow(0xbf, 2) == 2;
    assert CountBelow(0xbf, 4) == 4;
    assert CountBelow(0xbf, 6) == 6;
  }

  /** The third W83627THF port, whose mask 0xbf has a hole: lines 15 to 20 are its bits 0 to 5, line 21 is
      its bit 7, and bit 6 is no line. */
  lemma LinesAtHole(b: nat)
    requires b < 8
    ensures IsLine(THF, 2, b) <==> b != 6
    ensures b < 6 ==> Rank(THF, 2, b) == 15 + b
    ensures Rank(THF, 2, 7) == 21
  {
    CountsOfHole();
    assert Before(THF, 1) == 8 && Before(THF, 2) == 15;
    assert THF[2].mask == 0xbf;
    assert b == 0 || b == 1 || b == 2 || b == 3 || b == 4 || b == 5 || b == 6 || b == 7;
    hide THF, CountBelow;
  }

  /** No two ports of a chip share a direction or a data register. */
  lemma RegistersApart(m: Model, p: nat, q: nat)
    requires p < q < |Table(m)|
    ensures var a, b := Table(m)[p], Table(m)[q];
            && a.dir != a.data && b.dir != b.data
            && (a.ld == b.ld ==> a.dir != b.dir && a.data != b.data && a.dir != b.data && a.data != b.dir)
  {
  }
}
