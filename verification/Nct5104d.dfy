/** The nct5104d GPIO driver: per-port usage masks, bank enabling, and read-modify-write of registers. */
module Nct5104d {
  import opened GpioLines
  import opened SuperIo

  const LD_GPIO1: int := 0x07
  const LINES: nat := 16

  const TABLE: seq<Port> := [
    Port(8, 0xff, LD_GPIO1, 0xE0, 0xE1,
         [Cmd(LD_GPIO1, REG_ENABLE, 0x01, 0x01)], [Cmd(LD_GPIO1, REG_ENABLE, 0x01, 0x00)]),
    Port(8, 0xff, LD_GPIO1, 0xE4, 0xE5,
         [Cmd(LD_GPIO1, REG_ENABLE, 0x02, 0x02)], [Cmd(LD_GPIO1, REG_ENABLE, 0x02, 0x00)])
  ]

  function SetBit(x: bv8, bit: nat): bv8
    requires bit < 8
  {
    x | Mask(bit)
  }

  function ClearBit(x: bv8, bit: nat): bv8
    requires bit < 8
  {
    x & !Mask(bit)
  }

  lemma HasSetBit(x: bv8, b: nat, c: nat)
    requires b < 8 && c < 8
    ensures Has(SetBit(x, b), c) == (b == c || Has(x, c))
  {
  }

  lemma HasClearBit(x: bv8, b: nat, c: nat)
    requires b < 8 && c < 8
    ensures Has(ClearBit(x, b), c) == (b != c && Has(x, c))
  {
  }

  lemma ZeroHasNothing(x: bv8)
    ensures x == 0 <==> forall c :: 0 <= c < 8 ==> !Has(x, c)
  {
    if x != 0 {
      assert Has(x, 0) || Has(x, 1) || Has(x, 2) || Has(x, 3) || Has(x, 4) || Has(x, 5) || Has(x, 6) || Has(x, 7);
    }
  }

  lemma {:induction false} FullMaskCounts(n: nat)
    requires n <= 8
    ensures CountBelow(0xff, n) == n
  {
    if n > 0 {
      FullMaskCounts(n - 1);
    }
  }

  /** Sixteen lines, eight to a port, in order. */
  lemma TableLines()
    ensures WellFormed(TABLE) && Total(TABLE) == LINES
    ensures forall p, b :: 0 <= p < 2 && 0 <= b < 8 ==> IsLine(TABLE, p, b) && Rank(TABLE, p, b) == 8 * p + b
  {
    FullMaskCounts(8);
    assert Before(TABLE, 1) == 8 && Before(TABLE, 2) == 16;
    forall p, b | 0 <= p < 2 && 0 <= b < 8
      ensures IsLine(TABLE, p, b) && Rank(TABLE, p, b) == 8 * p + b
    {
      FullMaskCounts(b);
      assert Has(0xff, b);
      assert p == 0 || p == 1;
    }
  }

  datatype Op = Request | Free | DirIn | DirOut(value: bool) | SetData(value: bool)

  /** A call for a line; `busy` tells that superio_enter fails during it. */
  datatype Call = Call(op: Op, offset: nat, busy: bool)

  function PutBit(x: bv8, bit: nat, value: bool): bv8
    requires bit < 8
  {
    if value then SetBit(x, bit) else ClearBit(x, bit)
  }

  function Modify(c: Chip, ld: int, reg: int, bit: nat, value: bool): Chip
    requires bit < 8
  {
    var d := Select(c, ld);
    Write(d, reg, PutBit(Reg(d, ld, reg), bit, value))
  }

  /** What a call does to status and registers. */
  function Step(c: Chip, e: Call): (d: Chip)
    requires |c.status| == 8
    ensures |d.status| == 8
  {
    if e.offset >= LINES then c
    else
      var p, b := e.offset / 8, e.offset % 8;
      var port := TABLE[p];
      match e.op
      case Request =>
        var d := if e.busy then c else Exec(c, port.enable);
        d.(status := c.status[p := SetBit(c.status[p], b)])
      case Free =>
        var d := c.(status := c.status[p := ClearBit(c.status[p], b)]);
        if d.status[p] == 0 && !e.busy then Exec(d, port.disable) else d
      case DirIn =>
        if e.busy then c else Modify(c, port.ld, port.dir, b, true)
      case DirOut(value) =>
        if e.busy then c else Modify(Modify(c, port.ld, port.dir, b, false), port.ld, port.data, b, value)
      case SetData(value) =>
        if e.busy then c else Modify(c, port.ld, port.data, b, value)
  }

  // ----- the driver

  /** 0, -ENODEV and -EBUSY. */
  datatype Code = Success | NoDevice | Busy

  function CodeOf(offset: nat, busy: bool): Code {
    if offset >= LINES then NoDevice else if busy then Busy else Success
  }

  class Driver {
    var status: seq<bv8>
    var selected: int
    var regs: map<(int, int), bv8>

    ghost function View(): Chip
      reads this
    {
      Chip(status, selected, regs)
    }

    method Inb(reg: int) returns (v: bv8)
      ensures v == Reg(View(), selected, reg)
    {
      v := if Slot(selected, reg) in regs then regs[Slot(selected, reg)] else 0;
    }

    method Outb(reg: int, v: bv8)
      modifies this`regs
      ensures View() == Write(old(View()), reg, v)
    {
      regs := regs[Slot(selected, reg) := v];
    }

    /** `nct5104d_gpio_exec_cmd_seq`. */
    method ExecCmdSeq(cmds: seq<Cmd>, busy: bool)
      modifies this`regs, this`selected
      ensures View() == if busy then old(View()) else Exec(old(View()), cmds)
    {
      hide ExecOne;
      if busy {
        return;
      }
      var i := 0;
      assert cmds[0..] == cmds;
      while i < |cmds|
        invariant 0 <= i <= |cmds| && status == old(status)
        invariant Exec(View(), cmds[i..]) == Exec(old(View()), cmds)
      {
        assert cmds[i..][1..] == cmds[i + 1..];
        ExecCmd(cmds[i]);
        i := i + 1;
      }
    }

    method ExecCmd(cmd: Cmd)
      modifies this`regs, this`selected
      ensures View() == ExecOne(old(View()), cmd)
    {
      if cmd.ld >= 0 {
        selected := cmd.ld;
      }
      var val := Inb(cmd.reg);
      Outb(cmd.reg, Replace(val, cmd.clr, cmd.put));
    }

    /** The look-up every call starts with. */
    method Locate(offset: nat) returns (found: bool, port: nat, bit: nat)
      ensures found <==> offset < LINES
      ensures found ==> port == offset / 8 && bit == offset % 8 && port < 2
    {
      TableLines();
      found, port, bit := GetPortBit(TABLE, offset);
      if found {
        RankIsInjective(TABLE, port, bit, offset / 8, offset % 8);
      }
    }

    /** A request succeeds even if the chip cannot be entered. */
    method Request(offset: nat, busy: bool) returns (ret: Code)
      requires |status| == 8
      modifies this
      ensures ret == CodeOf(offset, false)
      ensures View() == Step(old(View()), Call(Op.Request, offset, busy))
    {
      var found, port, bit := Locate(offset);
      if !found {
        return NoDevice;
      }
      ExecCmdSeq(TABLE[port].enable, busy);
      status := status[port := SetBit(status[port], bit)];
      return Success;
    }

    method Free(offset: nat, busy: bool)
      requires |status| == 8
      modifies this
      ensures View() == Step(old(View()), Call(Op.Free, offset, busy))
    {
      var found, port, bit := Locate(offset);
      if !found {
        return;
      }
      status := status[port := ClearBit(status[port], bit)];
      if status[port] == 0 {
        ExecCmdSeq(TABLE[port].disable, busy);
      }
    }

    method DirIn(offset: nat, busy: bool) returns (ret: Code)
      requires |status| == 8
      modifies this
      ensures ret == CodeOf(offset, busy)
      ensures View() == Step(old(View()), Call(Op.DirIn, offset, busy))
    {
      var found, port, bit := Locate(offset);
      if !found {
        return NoDevice;
      }
      if busy {
        return Busy;
      }
      selected := TABLE[port].ld;
      var val := Inb(TABLE[port].dir);
      Outb(TABLE[port].dir, SetBit(val, bit));
      return Success;
    }

    method DirOut(offset: nat, value: bool, busy: bool) returns (ret: Code)
      requires |status| == 8
      modifies this
      ensures ret == CodeOf(offset, busy)
      ensures View() == Step(old(View()), Call(Op.DirOut(value), offset, busy))
    {
      var found, port, bit := Locate(offset);
      if !found {
        return NoDevice;
      }
      if busy {
        return Busy;
      }
      selected := TABLE[port].ld;
      var val := Inb(TABLE[port].dir);
      Outb(TABLE[port].dir, ClearBit(val, bit));
      val := Inb(TABLE[port].data);
      Outb(TABLE[port].data, PutBit(val, bit, value));
      return Success;
    }

    method SetData(offset: nat, value: bool, busy: bool)
      requires |status| == 8
      modifies this
      ensures View() == Step(old(View()), Call(Op.SetData(value), offset, busy))
    {
      var found, port, bit := Locate(offset);
      if !found || busy {
        return;
      }
      selected := TABLE[port].ld;
      var val := Inb(TABLE[port].data);
      Outb(TABLE[port].data, PutBit(val, bit, value));
    }

    method GetData(offset: nat, busy: bool) returns (ret: Code, value: bool)
      modifies this`selected
      ensures ret == CodeOf(offset, busy)
      ensures ret.Success? ==> value == DataOf(old(View()), offset)
    {
      var found, port, bit := Locate(offset);
      if !found {
        return NoDevice, false;
      }
      if busy {
        return Busy, false;
      }
      selected := TABLE[port].ld;
      var val := Inb(TABLE[port].data);
      return Success, Has(val, bit);
    }
  }

  // ----- lines as the user sees them: direction in registers 0xE0 and 0xE4, data in 0xE1 and 0xE5 and
  //       the enable bits in 0x30 of logical device 7

  function DirOf(c: Chip, o: nat): bool
    requires o < LINES
  {
    Has(Reg(c, 0x07, if o < 8 then 0xE0 else 0xE4), o % 8)
  }

  function DataOf(c: Chip, o: nat): bool
    requires o < LINES
  {
    Has(Reg(c, 0x07, if o < 8 then 0xE1 else 0xE5), o % 8)
  }

  function BankEnabled(c: Chip, p: nat): bool
    requires p < 2
  {
    Has(Reg(c, 0x07, 0x30), p)
  }

  function InUse(c: Chip, o: nat): bool
    requires o < LINES && |c.status| == 8
  {
    Has(c.status[o / 8], o % 8)
  }

  // ----- enabling and disabling banks

  lemma ReplaceBits(v: bv8, p: nat, q: nat)
    requires p < 2 && q < 2
    ensures Has(Replace(v, Mask(p), Mask(p)), q) == (p == q || Has(v, q))
    ensures Has(Replace(v, Mask(p), 0), q) == (p != q && Has(v, q))
  {
  }

  /** What the enable and disable sequences of bank p do: one bit of one register. */
  lemma BankCommands(c: Chip, p: nat)
    requires p < 2
    ensures var d := Exec(c, TABLE[p].enable);
            && d.status == c.status
            && (forall ld, r :: (ld, r) != (LD_GPIO1, REG_ENABLE) ==> Reg(d, ld, r) == Reg(c, ld, r))
            && forall q :: 0 <= q < 2 ==> BankEnabled(d, q) == (p == q || BankEnabled(c, q))
    ensures var d := Exec(c, TABLE[p].disable);
            && d.status == c.status
            && (forall ld, r :: (ld, r) != (LD_GPIO1, REG_ENABLE) ==> Reg(d, ld, r) == Reg(c, ld, r))
            && forall q :: 0 <= q < 2 ==> BankEnabled(d, q) == (p != q && BankEnabled(c, q))
  {
    hide Replace, Has, Exec;
    var m := Mask(p);
    assert TABLE[p].enable == [Cmd(LD_GPIO1, REG_ENABLE, m, m)];
    assert TABLE[p].disable == [Cmd(LD_GPIO1, REG_ENABLE, m, 0)];
    ExecSingle(c, Cmd(LD_GPIO1, REG_ENABLE, m, m));
    ExecSingle(c, Cmd(LD_GPIO1, REG_ENABLE, m, 0));
    ReplaceBits(Reg(c, LD_GPIO1, REG_ENABLE), p, 0);
    ReplaceBits(Reg(c, LD_GPIO1, REG_ENABLE), p, 1);
  }

  // ----- one call: its effect, and what it leaves alone

  lemma ModifyBits(c: Chip, reg: int, bit: nat, value: bool)
    requires bit < 8
    ensures var d := Modify(c, LD_GPIO1, reg, bit, value);
            && d.status == c.status
            && (forall r :: r != reg ==> Reg(d, LD_GPIO1, r) == Reg(c, LD_GPIO1, r))
            && forall x :: 0 <= x < 8 ==>
                 Has(Reg(d, LD_GPIO1, reg), x) == if x == bit then value else Has(Reg(c, LD_GPIO1, reg), x)
  {
    hide Has, SetBit, ClearBit;
    forall x | 0 <= x < 8
      ensures Has(PutBit(Reg(c, LD_GPIO1, reg), bit, value), x)
           == if x == bit then value else Has(Reg(c, LD_GPIO1, reg), x)
    {
      HasSetBit(Reg(c, LD_GPIO1, reg), bit, x);
      HasClearBit(Reg(c, LD_GPIO1, reg), bit, x);
    }
  }

  lemma ModifyOthers(c: Chip, o: nat, onDir: bool, value: bool, x: nat)
    requires o < LINES && x < LINES && x != o
    ensures var d := Modify(c, LD_GPIO1, if onDir then TABLE[o / 8].dir else TABLE[o / 8].data, o % 8, value);
            DirOf(d, x) == DirOf(c, x) && DataOf(d, x) == DataOf(c, x) && d.status == c.status
  {
    hide Has, Modify;
    assert o / 8 != x / 8 || o % 8 != x % 8;
    ModifyBits(c, if onDir then TABLE[o / 8].dir else TABLE[o / 8].data, o % 8, value);
  }

  /** What is read off the registers does not depend on status. */
  lemma RegistersDecide(c: Chip, d: Chip, x: nat)
    requires c.regs == d.regs && x < LINES
    ensures DirOf(c, x) == DirOf(d, x) && DataOf(c, x) == DataOf(d, x)
    ensures BankEnabled(c, x / 8) == BankEnabled(d, x / 8)
  {
    hide Has;
  }

  lemma BankOthers(c: Chip, p: nat, x: nat)
    requires p < 2 && x < LINES
    ensures DirOf(Exec(c, TABLE[p].enable), x) == DirOf(c, x) && DataOf(Exec(c, TABLE[p].enable), x) == DataOf(c, x)
    ensures DirOf(Exec(c, TABLE[p].disable), x) == DirOf(c, x) && DataOf(Exec(c, TABLE[p].disable), x) == DataOf(c, x)
  {
    hide Has, Exec;
    BankCommands(c, p);
  }

  /** No call, whether it succeeds or not, changes the direction or the data bit of another line. */
  lemma OthersUntouched(c: Chip, e: Call, x: nat)
    requires |c.status| == 8 && x < LINES && x != e.offset
    ensures DirOf(Step(c, e), x) == DirOf(c, x) && DataOf(Step(c, e), x) == DataOf(c, x)
  {
    hide Has, Exec, Modify, DirOf, DataOf;
    if e.offset < LINES && !e.busy {
      var o, p, b := e.offset, e.offset / 8, e.offset % 8;
      match e.op {
        case Request =>
          BankOthers(c, p, x);
          RegistersDecide(Step(c, e), Exec(c, TABLE[p].enable), x);
        case Free =>
          var d := c.(status := c.status[p := ClearBit(c.status[p], b)]);
          BankOthers(d, p, x);
          RegistersDecide(c, d, x);
        case DirIn =>
          ModifyOthers(c, o, true, true, x);
        case DirOut(v) =>
          ModifyOthers(c, o, true, false, x);
          ModifyOthers(Modify(c, LD_GPIO1, TABLE[p].dir, b, false), o, false, v, x);
        case SetData(v) =>
          ModifyOthers(c, o, false, v, x);
      }
    } else {
      RegistersDecide(c, Step(c, e), x);
    }
  }

  /** A call that enters the chip does to its own line what its name says. */
  lemma OwnLine(c: Chip, e: Call)
    requires |c.status| == 8 && e.offset < LINES && !e.busy
    ensures var d := Step(c, e);
            match e.op
            case DirIn => DirOf(d, e.offset) && DataOf(d, e.offset) == DataOf(c, e.offset)
            case DirOut(v) => !DirOf(d, e.offset) && DataOf(d, e.offset) == v
            case SetData(v) => DirOf(d, e.offset) == DirOf(c, e.offset) && DataOf(d, e.offset) == v
            case _ => DirOf(d, e.offset) == DirOf(c, e.offset) && DataOf(d, e.offset) == DataOf(c, e.offset)
  {
    hide Has, Exec, Modify;
    var p, b := e.offset / 8, e.offset % 8;
    BankCommands(c, p);
    BankCommands(c.(status := c.status[p := ClearBit(c.status[p], b)]), p);
    ModifyBits(c, TABLE[p].dir, b, true);
    ModifyBits(c, TABLE[p].dir, b, false);
    match e.op {
      case SetData(v) => ModifyBits(c, TABLE[p].data, b, v);
      case DirOut(v) => ModifyBits(Modify(c, LD_GPIO1, TABLE[p].dir, b, false), TABLE[p].data, b, v);
      case _ =>
    }
  }

  // ----- runs

  /** The lines a user holds after a call: requested and not freed since. */
  function HeldAfter(held: set<nat>, e: Call): set<nat> {
    if e.offset >= LINES then held
    else if e.op.Request? then held + {e.offset}
    else if e.op.Free? then held - {e.offset}
    else held
  }

  /** Status is exactly the set of held lines. */
  ghost predicate StatusIs(c: Chip, held: set<nat>) {
    && |c.status| == 8
    && (forall o :: o in held ==> o < LINES)
    && (forall o :: 0 <= o < LINES ==> (InUse(c, o) <==> o in held))
    && forall p :: 2 <= p < 8 ==> c.status[p] == 0
  }

  ghost predicate BanksOn(c: Chip)
    requires |c.status| == 8
  {
    forall p :: 0 <= p < 2 && c.status[p] != 0 ==> BankEnabled(c, p)
  }

  lemma StatusFollows(c: Chip, held: set<nat>, e: Call)
    requires StatusIs(c, held)
    ensures StatusIs(Step(c, e), HeldAfter(held, e))
  {
    hide Has, Exec, Modify, SetBit, ClearBit;
    if e.offset < LINES {
      var d, p, b := Step(c, e), e.offset / 8, e.offset % 8;
      StatusOfStep(c, e);
      forall o | 0 <= o < LINES
        ensures InUse(d, o) <==> o in HeldAfter(held, e)
      {
        HasSetBit(c.status[p], b, o % 8);
        HasClearBit(c.status[p], b, o % 8);
        assert o == 8 * (o / 8) + o % 8 && e.offset == 8 * p + b;
      }
    }
  }

  lemma StatusOfStep(c: Chip, e: Call)
    requires |c.status| == 8 && e.offset < LINES
    ensures var p, b := e.offset / 8, e.offset % 8;
            Step(c, e).status ==
              if e.op.Request? then c.status[p := SetBit(c.status[p], b)]
              else if e.op.Free? then c.status[p := ClearBit(c.status[p], b)]
              else c.status
  {
    hide Has, Exec, SetBit, ClearBit;
    var p, b := e.offset / 8, e.offset % 8;
    BankCommands(c.(status := c.status[p := ClearBit(c.status[p], b)]), p);
  }

  /** Exactly a request turns its bank on, exactly the free that empties a bank turns it off, and
      neither does on a busy chip. */
  lemma EnableOfStep(c: Chip, e: Call, q: nat)
    requires |c.status| == 8 && e.offset < LINES && q < 2
    ensures var p := e.offset / 8;
            BankEnabled(Step(c, e), q) ==
              if e.busy then BankEnabled(c, q)
              else if e.op.Request? && p == q then true
              else if e.op.Free? && p == q && Step(c, e).status[p] == 0 then false
              else BankEnabled(c, q)
  {
    hide Has, Exec, Modify, SetBit, ClearBit;
    var p, b := e.offset / 8, e.offset % 8;
    if e.busy {
      RegistersDecide(c, Step(c, e), 8 * q);
    } else {
      match e.op {
        case Request =>
          BankCommands(c, p);
          RegistersDecide(Step(c, e), Exec(c, TABLE[p].enable), 8 * q);
        case Free =>
          var d := c.(status := c.status[p := ClearBit(c.status[p], b)]);
          BankCommands(d, p);
          RegistersDecide(c, d, 8 * q);
        case DirIn => ModifyBits(c, TABLE[p].dir, b, true);
        case SetData(v) => ModifyBits(c, TABLE[p].data, b, v);
        case DirOut(v) =>
          ModifyBits(c, TABLE[p].dir, b, false);
          ModifyBits(Modify(c, LD_GPIO1, TABLE[p].dir, b, false), TABLE[p].data, b, v);
      }
    }
  }

  /** No held line belongs to bank q. */
  predicate Unused(held: set<nat>, q: nat) {
    forall x :: x in held ==> x / 8 != q
  }

  lemma UnusedIsZero(c: Chip, held: set<nat>, q: nat)
    requires StatusIs(c, held) && q < 2
    ensures c.status[q] == 0 <==> Unused(held, q)
  {
    hide Has;
    ZeroHasNothing(c.status[q]);
    forall b | 0 <= b < 8
      ensures Has(c.status[q], b) <==> 8 * q + b in held
    {
      var x := 8 * q + b;
      assert x / 8 == q && x % 8 == b;
      assert InUse(c, x) <==> x in held;
    }
    if Unused(held, q) {
      forall b | 0 <= b < 8
        ensures !Has(c.status[q], b)
      {
        assert (8 * q + b) / 8 == q;
      }
    }
    if c.status[q] == 0 {
      forall x | x in held
        ensures x / 8 != q
      {
        assert InUse(c, x) && !Has(c.status[q], x % 8);
      }
    }
  }

  /** Whether bank q is on after a call, in terms of the held lines alone. */
  function BankAfter(on: bool, held: set<nat>, e: Call, q: nat): bool {
    if e.offset >= LINES || e.offset / 8 != q || e.busy then on
    else if e.op.Request? then true
    else if e.op.Free? && Unused(held - {e.offset}, q) then false
    else on
  }

  lemma BankFollows(c: Chip, held: set<nat>, e: Call, q: nat)
    requires StatusIs(c, held) && q < 2
    ensures BankEnabled(Step(c, e), q) == BankAfter(BankEnabled(c, q), held, e, q)
  {
    if e.offset < LINES {
      hide Has, Step;
      EnableOfStep(c, e, q);
      StatusFollows(c, held, e);
      UnusedIsZero(Step(c, e), HeldAfter(held, e), q);
    }
  }

  lemma BanksFollow(c: Chip, e: Call)
    requires |c.status| == 8 && BanksOn(c) && !e.busy
    ensures BanksOn(Step(c, e))
  {
    if e.offset < LINES {
      hide Has, Step;
      StatusOfStep(c, e);
      EnableOfStep(c, e, 0);
      EnableOfStep(c, e, 1);
    }
  }

  function Run(c: Chip, calls: seq<Call>): (d: Chip)
    requires |c.status| == 8
    ensures |d.status| == 8
    decreases calls
  {
    if calls == [] then c else Run(Step(c, calls[0]), calls[1..])
  }

  function HeldAfterAll(held: set<nat>, calls: seq<Call>): set<nat>
    decreases calls
  {
    if calls == [] then held else HeldAfterAll(HeldAfter(held, calls[0]), calls[1..])
  }

  function BankAfterAll(on: bool, held: set<nat>, calls: seq<Call>, q: nat): bool
    decreases calls
  {
    if calls == [] then on
    else BankAfterAll(BankAfter(on, held, calls[0], q), HeldAfter(held, calls[0]), calls[1..], q)
  }

  /** In every run, with or without calls that find the chip busy, status is the set of held lines and a
      bank is on exactly if the requests and emptying frees that entered the chip left it on. */
  lemma {:induction false} RunsKeepTrack(c: Chip, held: set<nat>, calls: seq<Call>, q: nat)
    requires StatusIs(c, held) && q < 2
    ensures StatusIs(Run(c, calls), HeldAfterAll(held, calls))
    ensures BankEnabled(Run(c, calls), q) == BankAfterAll(BankEnabled(c, q), held, calls, q)
    decreases calls
  {
    if calls != [] {
      hide Step, Has, BankAfter, HeldAfter;
      StatusFollows(c, held, calls[0]);
      BankFollows(c, held, calls[0], q);
      RunsKeepTrack(Step(c, calls[0]), HeldAfter(held, calls[0]), calls[1..], q);
    }
  }

  /** As long as the chip can be entered every bank with a line in use is enabled. */
  lemma {:induction false} RunsEnable(c: Chip, calls: seq<Call>)
    requires |c.status| == 8 && BanksOn(c) && forall i :: 0 <= i < |calls| ==> !calls[i].busy
    ensures BanksOn(Run(c, calls))
    decreases calls
  {
    if calls != [] {
      hide Step, Has;
      BanksFollow(c, calls[0]);
      RunsEnable(Step(c, calls[0]), calls[1..]);
    }
  }

  /** The free that gives back the last line of a bank switches that bank off, unless the chip is busy:
      then it stays as it was, with no line in use. */
  lemma LastFreeDisables(c: Chip, held: set<nat>, o: nat, busy: bool)
    requires StatusIs(c, held) && o in held && Unused(held - {o}, o / 8)
    ensures var d := Step(c, Call(Free, o, busy));
            d.status[o / 8] == 0 && (BankEnabled(d, o / 8) <==> busy && BankEnabled(c, o / 8))
  {
    var e := Call(Free, o, busy);
    hide Has, Step;
    BankFollows(c, held, e, o / 8);
    StatusFollows(c, held, e);
    UnusedIsZero(Step(c, e), HeldAfter(held, e), o / 8);
  }

  /** When the chip cannot be entered, a request is booked all the same: the bank is enabled afterwards
      exactly if it was before. */
  lemma BusyRequest(c: Chip, o: nat, busy: bool)
    requires |c.status| == 8 && o < LINES
    ensures var d := Step(c, Call(Request, o, busy));
            InUse(d, o) && (BankEnabled(d, o / 8) <==> !busy || BankEnabled(c, o / 8))
  {
    hide Has, Exec, SetBit;
    BankCommands(c, o / 8);
    HasSetBit(c.status[o / 8], o % 8, o % 8);
    RegistersDecide(Step(c, Call(Request, o, busy)), if busy then c else Exec(c, TABLE[o / 8].enable), o);
  }

  /** On a busy chip no register changes, and of the status only what a request or free books. */
  lemma BusyLeavesChip(c: Chip, e: Call)
    requires |c.status| == 8 && e.busy
    ensures Step(c, e).regs == c.regs
    ensures !e.op.Request? && !e.op.Free? ==> Step(c, e) == c
  {
  }
}
