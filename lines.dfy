/*
 * Line abstraction of the xum1541 IEC engine: the logical line selectors the
 * host uses, the physical port bits of the board, the 16-entry
 * logical-to-physical table (iec2hw) and the inverted line poll (xu1541_poll).
 */
module Lines {

  // Logical line selectors, fixed by the host library.
  const IEC_DATA: bv8 := 0x01
  const IEC_CLOCK: bv8 := 0x02
  const IEC_ATN: bv8 := 0x04
  const IEC_RESET: bv8 := 0x08

  /**
   * The physical port bits of DATA, CLOCK, ATN and RESET (IO_DATA, IO_CLK,
   * IO_ATN, IO_RESET). Their values are board-specific, so the model keeps
   * them as parameters and only assumes they are four distinct single bits.
   */
  datatype Pins = Pins(data: bv8, clk: bv8, atn: bv8, reset: bv8)

  predicate SingleBit(m: bv8) {
    m != 0 && m & (m - 1) == 0
  }

  predicate ValidPins(p: Pins) {
    && SingleBit(p.data) && SingleBit(p.clk) && SingleBit(p.atn) && SingleBit(p.reset)
    && p.data & p.clk == 0 && p.data & p.atn == 0 && p.data & p.reset == 0
    && p.clk & p.atn == 0 && p.clk & p.reset == 0 && p.atn & p.reset == 0
  }

  /** The table iec2hw_table, entry by entry. */
  function Iec2HwTable(p: Pins): seq<bv8> {
    [ 0,
      p.data,
      p.clk,
      p.data | p.clk,
      p.atn,
      p.data | p.atn,
      p.clk | p.atn,
      p.data | p.clk | p.atn,
      p.reset,
      p.data | p.reset,
      p.clk | p.reset,
      p.data | p.clk | p.reset,
      p.atn | p.reset,
      p.data | p.atn | p.reset,
      p.clk | p.atn | p.reset,
      p.data | p.clk | p.atn | p.reset ]
  }

  /**
   * iec2hw: a table lookup (an index past the 16 entries is out of bounds
   * in the firmware), which yields the port bits of exactly the lines the
   * logical mask names.
   */
  function Iec2Hw(p: Pins, iec: bv8): (r: bv8)
    requires iec < 16
    ensures r == LinesOf(p, iec)
  {
    TableIsLinesOf(p, iec);
    TableEntry(p, iec)
  }

  /** Entry iec of the table. */
  function TableEntry(p: Pins, iec: bv8): bv8
    requires iec < 16
  {
    Iec2HwTable(p)[iec as int]
  }

  /**
   * Reference definition: the physical mask holds the port bit of every line
   * whose logical bit (IEC_DATA 0x01, IEC_CLOCK 0x02, IEC_ATN 0x04, IEC_RESET 0x08) is set.
   */
  function LinesOf(p: Pins, iec: bv8): bv8 {
    (if iec & 1 != 0 then p.data else 0)
    | (if iec & 2 != 0 then p.clk else 0)
    | (if iec & 4 != 0 then p.atn else 0)
    | (if iec & 8 != 0 then p.reset else 0)
  }

  /** Every entry of the table is the union of the lines its index names. */
  lemma TableIsLinesOf(p: Pins, iec: bv8)
    requires iec < 16
    ensures TableEntry(p, iec) == LinesOf(p, iec)
  {
    if iec < 4 { TableQuarter0(p, iec); }
    else if iec < 8 { TableQuarter1(p, iec); }
    else if iec < 12 { TableQuarter2(p, iec); }
    else { TableQuarter3(p, iec); }
  }

  // The table proof, four entries at a time.
  lemma TableQuarter0(p: Pins, iec: bv8)
    requires 0 <= iec < 4
    ensures TableEntry(p, iec) == LinesOf(p, iec)
  {
    var t := Iec2HwTable(p);
    if iec == 0 { assert t[0] == LinesOf(p, 0); }
    else if iec == 1 { assert t[1] == LinesOf(p, 1); }
    else if iec == 2 { assert t[2] == LinesOf(p, 2); }
    else { assert iec == 3; assert t[3] == LinesOf(p, 3); }
  }

  lemma TableQuarter1(p: Pins, iec: bv8)
    requires 4 <= iec < 8
    ensures TableEntry(p, iec) == LinesOf(p, iec)
  {
    var t := Iec2HwTable(p);
    if iec == 4 { assert t[4] == LinesOf(p, 4); }
    else if iec == 5 { assert t[5] == LinesOf(p, 5); }
    else if iec == 6 { assert t[6] == LinesOf(p, 6); }
    else { assert iec == 7; assert t[7] == LinesOf(p, 7); }
  }

  lemma TableQuarter2(p: Pins, iec: bv8)
    requires 8 <= iec < 12
    ensures TableEntry(p, iec) == LinesOf(p, iec)
  {
    var t := Iec2HwTable(p);
    if iec == 8 { assert t[8] == LinesOf(p, 8); }
    else if iec == 9 { assert t[9] == LinesOf(p, 9); }
    else if iec == 10 { assert t[10] == LinesOf(p, 10); }
    else { assert iec == 11; assert t[11] == LinesOf(p, 11); }
  }

  lemma TableQuarter3(p: Pins, iec: bv8)
    requires 12 <= iec < 16
    ensures TableEntry(p, iec) == LinesOf(p, iec)
  {
    var t := Iec2HwTable(p);
    if iec == 12 { assert t[12] == LinesOf(p, 12); }
    else if iec == 13 { assert t[13] == LinesOf(p, 13); }
    else if iec == 14 { assert t[14] == LinesOf(p, 14); }
    else { assert iec == 15; assert t[15] == LinesOf(p, 15); }
  }

  /** The table is a homomorphism from logical masks to physical masks. */
  lemma Iec2HwUnion(p: Pins, a: bv8, b: bv8)
    requires a < 16 && b < 16
    ensures a | b < 16
    ensures Iec2Hw(p, a | b) == Iec2Hw(p, a) | Iec2Hw(p, b)
  {
    LinesOfUnion(p, a, b);
  }

  lemma LinesOfUnion(p: Pins, a: bv8, b: bv8)
    ensures LinesOf(p, a | b) == LinesOf(p, a) | LinesOf(p, b)
  {
  }

  /** Each logical bit drives exactly its own port bit, and no other port bit is touched. */
  lemma Iec2HwSelects(p: Pins, iec: bv8)
    requires ValidPins(p) && iec < 16
    ensures (Iec2Hw(p, iec) & p.data != 0) <==> (iec & IEC_DATA != 0)
    ensures (Iec2Hw(p, iec) & p.clk != 0) <==> (iec & IEC_CLOCK != 0)
    ensures (Iec2Hw(p, iec) & p.atn != 0) <==> (iec & IEC_ATN != 0)
    ensures (Iec2Hw(p, iec) & p.reset != 0) <==> (iec & IEC_RESET != 0)
    ensures Iec2Hw(p, iec) & !(p.data | p.clk | p.atn | p.reset) == 0
  {
  }

  /** Different logical masks never map to the same physical mask. */
  lemma Iec2HwInjective(p: Pins, a: bv8, b: bv8)
    requires ValidPins(p) && a < 16 && b < 16
    requires Iec2Hw(p, a) == Iec2Hw(p, b)
    ensures a == b
  {
    Iec2HwSelects(p, a);
    Iec2HwSelects(p, b);
  }

  /**
   * xu1541_poll: a port bit that reads low means the line is pulled on the
   * bus, and is reported as a set logical bit; RESET is never reported.
   */
  function Poll(p: Pins, port: bv8): (rv: bv8)
    ensures (rv & IEC_DATA != 0) <==> (port & p.data == 0)
    ensures (rv & IEC_CLOCK != 0) <==> (port & p.clk == 0)
    ensures (rv & IEC_ATN != 0) <==> (port & p.atn == 0)
    ensures rv & !(IEC_DATA | IEC_CLOCK | IEC_ATN) == 0
  {
    (if port & p.data == 0 then IEC_DATA else 0)
    | (if port & p.clk == 0 then IEC_CLOCK else 0)
    | (if port & p.atn == 0 then IEC_ATN else 0)
  }

  /**
   * Poll and the table agree on a logical set of DATA, CLOCK and ATN: the
   * poll reports every line of the set as pulled exactly when all their
   * port bits read low.
   */
  lemma PollMatchesIec2Hw(p: Pins, port: bv8, lines: bv8)
    requires ValidPins(p) && lines < 8
    ensures lines < 16
    ensures (Poll(p, port) & lines == lines) <==> (port & Iec2Hw(p, lines) == 0)
  {
  }

  /**
   * The other half: the poll reports none of the lines of the set as pulled
   * exactly when all their port bits read high.
   */
  lemma PollReleasedMatchesIec2Hw(p: Pins, port: bv8, lines: bv8)
    requires ValidPins(p) && lines < 8
    ensures lines < 16
    ensures (Poll(p, port) & lines == 0) <==> (port & Iec2Hw(p, lines) == Iec2Hw(p, lines))
  {
  }
}
