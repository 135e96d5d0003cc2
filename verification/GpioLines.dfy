/** Mapping of GPIO line numbers to (port, bit) in the Super-I/O drivers: rank and select over port masks. */
module GpioLines {
  /** `1 << bit` in a u8. */
  function Mask(bit: nat): bv8
    requires bit < 8
  {
    if bit == 0 then 1 else if bit == 1 then 2 else if bit == 2 then 4 else if bit == 3 then 8
    else if bit == 4 then 16 else if bit == 5 then 32 else if bit == 6 then 64 else 128
  }

  /** Mask(bit) is bit number `bit` alone, counted from the least significant. */
  lemma MaskIs(bit: nat)
    requires bit < 8
    ensures Mask(bit) == (1 as bv8) << bit
  {
    assert bit == 0 || bit == 1 || bit == 2 || bit == 3 || bit == 4 || bit == 5 || bit == 6 || bit == 7;
  }

  predicate Has(x: bv8, bit: nat)
    requires bit < 8
  {
    x & Mask(bit) != 0
  }

  /** How many of the bits below n are set. */
  function CountBelow(mask: bv8, n: nat): (c: nat)
    requires n <= 8
    ensures c <= n
  {
    if n == 0 then 0 else CountBelow(mask, n - 1) + if Has(mask, n - 1) then 1 else 0
  }

  datatype Cmd = Cmd(ld: int, reg: int, clr: bv8, put: bv8)

  /** One entry of a port table; the terminating empty entry is the end of the sequence. */
  datatype Port = Port(ngpio: nat, mask: bv8, ld: int, dir: int, data: int, enable: seq<Cmd>, disable: seq<Cmd>)

  ghost predicate WellFormed(table: seq<Port>) {
    forall p :: 0 <= p < |table| ==> table[p].ngpio == CountBelow(table[p].mask, 8) && table[p].ngpio > 0
  }

  /** Lines in the ports before port p. */
  function Before(table: seq<Port>, p: nat): nat
    requires p <= |table|
  {
    if p == 0 then 0 else Before(table, p - 1) + table[p - 1].ngpio
  }

  function Total(table: seq<Port>): nat {
    Before(table, |table|)
  }

  /** A usable (port, bit): a set bit of the port's mask. */
  predicate IsLine(table: seq<Port>, p: nat, b: nat) {
    p < |table| && b < 8 && Has(table[p].mask, b)
  }

  /** The line number of a (port, bit). */
  function Rank(table: seq<Port>, p: nat, b: nat): nat
    requires p < |table| && b < 8
  {
    Before(table, p) + CountBelow(table[p].mask, b)
  }

  // ----- Rank is a bijection from the set mask bits onto the line numbers

  lemma {:induction false} CountAscends(mask: bv8, b: nat, n: nat)
    requires b < n <= 8 && Has(mask, b)
    ensures CountBelow(mask, b) < CountBelow(mask, n)
    decreases n
  {
    hide Has;
    if b < n - 1 {
      CountAscends(mask, b, n - 1);
    }
  }

  lemma {:induction false} BeforeAscends(table: seq<Port>, p: nat, q: nat)
    requires p < q <= |table|
    ensures Before(table, p) + table[p].ngpio <= Before(table, q)
    decreases q
  {
    if p < q - 1 {
      BeforeAscends(table, p, q - 1);
    }
  }

  lemma RankInRange(table: seq<Port>, p: nat, b: nat)
    requires WellFormed(table) && IsLine(table, p, b)
    ensures Before(table, p) <= Rank(table, p, b) < Before(table, p) + table[p].ngpio <= Total(table)
  {
    hide Has;
    CountAscends(table[p].mask, b, 8);
    BeforeAscends(table, p, |table|);
  }

  lemma RankIsInjective(table: seq<Port>, p: nat, b: nat, q: nat, c: nat)
    requires WellFormed(table) && IsLine(table, p, b) && IsLine(table, q, c)
    requires Rank(table, p, b) == Rank(table, q, c)
    ensures p == q && b == c
  {
    hide Has;
    RankInRange(table, p, b);
    RankInRange(table, q, c);
    if p < q {
      BeforeAscends(table, p, q);
    } else if q < p {
      BeforeAscends(table, q, p);
    } else if b < c {
      CountAscends(table[p].mask, b, c);
    } else if c < b {
      CountAscends(table[p].mask, c, b);
    }
  }

  // ----- get_port_bit

  /** The search of both drivers: found exactly for the numbers of existing lines, and then the one
      (port, bit) whose rank is the number asked for. */
  method GetPortBit(table: seq<Port>, offset: nat) returns (found: bool, port: nat, bit: nat)
    requires WellFormed(table)
    ensures found <==> offset < Total(table)
    ensures found ==> IsLine(table, port, bit) && Rank(table, port, bit) == offset
  {
    hide Has;
    var ngpio := 0;
    port, bit := 0, 0;
    while port < |table|
      invariant 0 <= port <= |table|
      invariant ngpio == Before(table, port) <= offset
    {
      var last := ngpio;
      ngpio := ngpio + table[port].ngpio;
      if offset >= ngpio {
        port := port + 1;
        continue;
      }
      BeforeAscends(table, port, |table|);
      var test := 0;
      bit := 0;
      while bit < 8
        invariant 0 <= bit <= 8
        invariant test == CountBelow(table[port].mask, bit) <= offset - last
      {
        if Has(table[port].mask, bit) {
          if test == offset - last {
            return true, port, bit;
          }
          test := test + 1;
        }
        bit := bit + 1;
      }
      assert false;
    }
    return false, 0, 0;
  }
}
