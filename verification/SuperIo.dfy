/** A Super-I/O chip behind its index and data ports, and the command sequences run on it. */
module SuperIo {
  import opened GpioLines

  const REG_ENABLE: int := 0x30

  /** The state both GPIO drivers work on: their usage masks, the selected logical device, the registers. */
  datatype Chip = Chip(status: seq<bv8>, selected: int, regs: map<(int, int), bv8>)

  /** Registers below 0x30 belong to the chip as a whole, the others to the selected logical device. */
  function Slot(ld: int, reg: int): (int, int) {
    if reg < REG_ENABLE then (-1, reg) else (ld, reg)
  }

  function Reg(c: Chip, ld: int, reg: int): bv8 {
    if Slot(ld, reg) in c.regs then c.regs[Slot(ld, reg)] else 0
  }

  function Write(c: Chip, reg: int, v: bv8): Chip {
    c.(regs := c.regs[Slot(c.selected, reg) := v])
  }

  function Select(c: Chip, ld: int): Chip {
    c.(selected := ld)
  }

  function Replace(v: bv8, clr: bv8, put: bv8): bv8 {
    (v & !clr) | put
  }

  function ExecOne(c: Chip, cmd: Cmd): Chip {
    var d := if cmd.ld >= 0 then Select(c, cmd.ld) else c;
    Write(d, cmd.reg, Replace(Reg(d, d.selected, cmd.reg), cmd.clr, cmd.put))
  }

  /** `exec_cmd_seq` once superio_enter has succeeded. */
  function Exec(c: Chip, cmds: seq<Cmd>): (d: Chip)
    ensures d.status == c.status
    decreases |cmds|
  {
    if cmds == [] then c else Exec(ExecOne(c, cmds[0]), cmds[1..])
  }

  lemma ExecSingle(c: Chip, cmd: Cmd)
    ensures Exec(c, [cmd]) == ExecOne(c, cmd)
  {
    hide ExecOne;
    assert [cmd][1..] == [];
  }
}
