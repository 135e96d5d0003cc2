/** The pin multiplexing of the w83627hf GPIO driver: registers below 0x30, shared by all logical devices. */
module W83627Pins {
  import opened GpioLines
  import opened SuperIo
  import opened W83627

  /** Bits of a register, and the value they must have for a port's pins to be GPIO lines. */
  datatype Pin = Pin(reg: int, bits: bv8, value: bv8)

  function Pins(m: Model, p: nat): seq<Pin> {
    if m.ModelHF? then
      match p
      case 0 => [Pin(0x2a, 0xfc, 0xfc)]
      case 1 => [Pin(0x2a, 0x01, 0x01), Pin(0x2b, 0xff, 0xff)]
      case _ => [Pin(0x29, 0xfc, 0xfc)]
    else
      match p
      case 0 => [Pin(0x29, 0xc0, 0x40)]
      case 1 => [Pin(0x29, 0x03, 0x01), Pin(0x2a, 0xfe, 0x7e)]
      case 2 => [Pin(0x2b, 0x7f, 0x10), Pin(0x2c, 0xfc, 0x04)]
      case 3 => [Pin(0x2d, 0xff, 0xfe)]
      case _ => [Pin(0x29, 0x20, 0x00)]
  }

  function Masked(v: bv8, bits: bv8): bv8 { v & bits }

  /** Whichever device is looked at, the pin has its value. */
  predicate IsSet(c: Chip, pin: Pin, ld: int) {
    Masked(Reg(c, ld, pin.reg), pin.bits) == pin.value
  }

  // ----- what a sequence does to a shared register

  function After(v: bv8, cmds: seq<Cmd>, reg: int): bv8
    decreases |cmds|
  {
    if cmds == [] then v
    else After(if cmds[0].reg == reg then Replace(v, cmds[0].clr, cmds[0].put) else v, cmds[1..], reg)
  }

  lemma {:induction false} SharedRegister(c: Chip, cmds: seq<Cmd>, ld: int, reg: int)
    requires reg < 0x30
    ensures Reg(Exec(c, cmds), ld, reg) == After(Reg(c, ld, reg), cmds, reg)
    decreases |cmds|
  {
    hide Replace;
    if cmds != [] {
      OneShared(c, cmds[0], ld, reg);
      hide ExecOne, Reg;
      SharedRegister(ExecOne(c, cmds[0]), cmds[1..], ld, reg);
    }
  }

  lemma OneShared(c: Chip, cmd: Cmd, ld: int, reg: int)
    requires reg < 0x30
    ensures Reg(ExecOne(c, cmd), ld, reg)
         == if cmd.reg == reg then Replace(Reg(c, ld, reg), cmd.clr, cmd.put) else Reg(c, ld, reg)
  {
    hide Replace;
  }

  lemma MaskedReplace(v: bv8, clr: bv8, put: bv8, bits: bv8)
    ensures Apart(clr, put, bits) ==> Masked(Replace(v, clr, put), bits) == Masked(v, bits)
  {
  }

  /** Commands that leave the bits alone. */
  ghost predicate AllApart(cmds: seq<Cmd>, pin: Pin) {
    forall i :: 0 <= i < |cmds| && cmds[i].reg == pin.reg ==> Apart(cmds[i].clr, cmds[i].put, pin.bits)
  }

  lemma {:induction false} BitsKept(v: bv8, cmds: seq<Cmd>, pin: Pin)
    requires AllApart(cmds, pin)
    ensures Masked(After(v, cmds, pin.reg), pin.bits) == Masked(v, pin.bits)
    decreases |cmds|
  {
    hide Masked, Replace, Apart;
    if cmds != [] {
      MaskedReplace(v, cmds[0].clr, cmds[0].put, pin.bits);
      BitsKept(if cmds[0].reg == pin.reg then Replace(v, cmds[0].clr, cmds[0].put) else v, cmds[1..], pin);
    }
  }

  // ----- enabling a port

  lemma AfterOne(v: bv8, a: Cmd, b: Cmd, reg: int)
    requires b.reg != reg
    ensures After(v, [a, b], reg) == if a.reg == reg then Replace(v, a.clr, a.put) else v
  {
    hide Replace;
    assert [a, b][1..] == [b] && [b][1..] == [];
    assert forall w :: After(w, [b], reg) == w;
  }

  lemma AfterTwo(v: bv8, a: Cmd, b: Cmd, e: Cmd, reg: int)
    requires e.reg != reg && a.reg != b.reg
    ensures After(v, [a, b, e], reg)
         == if a.reg == reg then Replace(v, a.clr, a.put) else if b.reg == reg then Replace(v, b.clr, b.put) else v
  {
    hide Replace;
    assert [a, b, e][1..] == [b, e];
    AfterOne(if a.reg == reg then Replace(v, a.clr, a.put) else v, b, e, reg);
  }

  lemma PinValues(v: bv8)
    ensures Masked(Replace(v, 0xfc, 0xfc), 0xfc) == 0xfc && Masked(Replace(v, 0, 0x01), 0x01) == 0x01
    ensures Masked(Replace(v, 0, 0xff), 0xff) == 0xff && Masked(Replace(v, 0, 0xfc), 0xfc) == 0xfc
    ensures Masked(Replace(v, 0xc0, 0x40), 0xc0) == 0x40 && Masked(Replace(v, 0x03, 0x01), 0x03) == 0x01
    ensures Masked(Replace(v, 0xfe, 0x7e), 0xfe) == 0x7e && Masked(Replace(v, 0x7f, 0x10), 0x7f) == 0x10
    ensures Masked(Replace(v, 0xfc, 0x04), 0xfc) == 0x04 && Masked(Replace(v, 0xff, 0xfe), 0xff) == 0xfe
    ensures Masked(Replace(v, 0x20, 0), 0x20) == 0
  {
  }

  lemma SequenceOfTwo(v: bv8, cmds: seq<Cmd>, reg: int, bits: bv8)
    requires |cmds| == 2 && cmds[1].reg != reg && cmds[0].reg == reg
    ensures Masked(After(v, cmds, reg), bits) == Masked(Replace(v, cmds[0].clr, cmds[0].put), bits)
  {
    hide Masked, Replace, After;
    assert cmds == [cmds[0], cmds[1]];
    AfterOne(v, cmds[0], cmds[1], reg);
  }

  lemma SequenceOfThree(v: bv8, cmds: seq<Cmd>, i: nat, reg: int, bits: bv8)
    requires |cmds| == 3 && i < 2 && cmds[2].reg != reg && cmds[0].reg != cmds[1].reg && cmds[i].reg == reg
    ensures Masked(After(v, cmds, reg), bits) == Masked(Replace(v, cmds[i].clr, cmds[i].put), bits)
  {
    hide Masked, Replace, After;
    assert cmds == [cmds[0], cmds[1], cmds[2]];
    AfterTwo(v, cmds[0], cmds[1], cmds[2], reg);
  }

  lemma HfSetsPin(v: bv8, p: nat, i: nat)
    requires p < 3 && i < |Pins(ModelHF, p)|
    ensures var pin := Pins(ModelHF, p)[i]; Masked(After(v, HF[p].enable, pin.reg), pin.bits) == pin.value
  {
    PinValues(v);
    hide Masked, Replace, After;
    var pin := Pins(ModelHF, p)[i];
    if p == 1 {
      SequenceOfThree(v, HF[p].enable, i, pin.reg, pin.bits);
    } else {
      SequenceOfTwo(v, HF[p].enable, pin.reg, pin.bits);
    }
  }

  lemma ThfSetsPin(v: bv8, p: nat, i: nat)
    requires p < 5 && i < |Pins(ModelTHF, p)|
    ensures var pin := Pins(ModelTHF, p)[i]; Masked(After(v, THF[p].enable, pin.reg), pin.bits) == pin.value
  {
    PinValues(v);
    hide Masked, Replace, After;
    var pin := Pins(ModelTHF, p)[i];
    if p == 1 || p == 2 {
      SequenceOfThree(v, THF[p].enable, i, pin.reg, pin.bits);
    } else {
      SequenceOfTwo(v, THF[p].enable, pin.reg, pin.bits);
    }
  }

  lemma SequenceSetsPin(v: bv8, m: Model, p: nat, i: nat)
    requires p < |Table(m)| && i < |Pins(m, p)|
    ensures var pin := Pins(m, p)[i]; Masked(After(v, Table(m)[p].enable, pin.reg), pin.bits) == pin.value
  {
    hide Masked, After, Pins;
    if m.ModelHF? {
      HfSetsPin(v, p, i);
    } else {
      ThfSetsPin(v, p, i);
    }
  }

  /** Enabling a port gives its pins the values they need, whichever device was selected before. */
  lemma EnableSetsPins(c: Chip, m: Model, p: nat, i: nat, ld: int)
    requires p < |Table(m)| && i < |Pins(m, p)|
    ensures IsSet(Exec(c, Table(m)[p].enable), Pins(m, p)[i], ld)
  {
    PinRegisters(m, p, i);
    hide Masked, Exec, Reg, After, Table, Pins;
    SharedRegister(c, Table(m)[p].enable, ld, Pins(m, p)[i].reg);
    SequenceSetsPin(Reg(c, ld, Pins(m, p)[i].reg), m, p, i);
  }

  lemma PinRegisters(m: Model, p: nat, i: nat)
    requires p < |Table(m)| && i < |Pins(m, p)|
    ensures Pins(m, p)[i].reg < 0x30
  {
  }

  lemma HfApart(p: nat, q: nat, i: nat)
    requires p < 3 && q < 3 && p != q && i < |Pins(ModelHF, p)|
    ensures AllApart(HF[q].enable, Pins(ModelHF, p)[i]) && AllApart(HF[q].disable, Pins(ModelHF, p)[i])
  {
  }

  /** What the command for a register leaves alone, register by register. */
  lemma ThfApart(p: nat, q: nat, i: nat)
    requires p < 5 && q < 5 && p != q && i < |Pins(ModelTHF, p)|
    ensures AllApart(THF[q].enable, Pins(ModelTHF, p)[i]) && AllApart(THF[q].disable, Pins(ModelTHF, p)[i])
  {
    ThfMasks();
    hide Apart;
  }

  lemma ThfMasks()
    ensures Apart(0xc0, 0x40, 0x03) && Apart(0xc0, 0x40, 0x20) && Apart(0x03, 0x01, 0xc0)
    ensures Apart(0x03, 0x01, 0x20) && Apart(0x20, 0x00, 0xc0) && Apart(0x20, 0x00, 0x03)
  {
  }

  lemma SequencesApart(m: Model, p: nat, q: nat, i: nat)
    requires p < |Table(m)| && q < |Table(m)| && p != q && i < |Pins(m, p)|
    ensures AllApart(Table(m)[q].enable, Pins(m, p)[i]) && AllApart(Table(m)[q].disable, Pins(m, p)[i])
  {
    hide AllApart, Pins;
    if m.ModelHF? {
      HfApart(p, q, i);
    } else {
      ThfApart(p, q, i);
    }
  }

  /** Enabling or disabling another port does not touch them. */
  lemma OthersKeepPins(c: Chip, m: Model, p: nat, q: nat, i: nat, ld: int)
    requires p < |Table(m)| && q < |Table(m)| && p != q && i < |Pins(m, p)| && IsSet(c, Pins(m, p)[i], ld)
    ensures IsSet(Exec(c, Table(m)[q].enable), Pins(m, p)[i], ld)
    ensures IsSet(Exec(c, Table(m)[q].disable), Pins(m, p)[i], ld)
  {
    PinRegisters(m, p, i);
    hide Masked, Exec, Reg, After, Table, Pins, AllApart;
    var pin := Pins(m, p)[i];
    SequencesApart(m, p, q, i);
    SharedRegister(c, Table(m)[q].enable, ld, pin.reg);
    SharedRegister(c, Table(m)[q].disable, ld, pin.reg);
    BitsKept(Reg(c, ld, pin.reg), Table(m)[q].enable, pin);
    BitsKept(Reg(c, ld, pin.reg), Table(m)[q].disable, pin);
  }
}
