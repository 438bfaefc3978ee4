/**
  * The TDM slot map: a table of byte offsets per interface, direction and channel, written by a mixer
  * control that addresses it one way and read at stream setup by a DAI id that addresses it another.
  */
module TdmSlots {
  import opened Machine

  const MAX_PATH := 2
  const PORT_MAX := 8
  const RANGE_START := 0x9000
  const MAX_SLOTS := 8
  const SLOT_WIDTH := 32
  const UNUSED := 0xFFFF
  const LAST_OFFSET := 28

  // Offsets of at most eight slots of four bytes; the row is as long as the largest slot count.
  type Row = seq<uint32>

  /** The board's number of interfaces, of slots the control writes, and the largest offset it takes. */
  datatype Limits = Limits(interfaces: nat, slots: nat, maxOffset: uint32)

  /** The address of a row: the tables of all interfaces, receive before transmit, channel by channel. */
  datatype Port = Port(interface: nat, path: nat, channel: nat)

  predicate PortInRange(m: Limits, p: Port) {
    p.interface < m.interfaces && p.path < MAX_PATH && p.channel < PORT_MAX
  }

  function RowIndex(p: Port): nat {
    p.interface * (MAX_PATH * PORT_MAX) + p.path * PORT_MAX + p.channel
  }

  predicate Shaped(m: Limits, rows: seq<Row>) {
    && m.slots <= MAX_SLOTS
    && |rows| == m.interfaces * (MAX_PATH * PORT_MAX)
    && forall c :: 0 <= c < |rows| ==> |rows[c]| >= m.slots
  }

  // ---- Reading: from a DAI id ----

  function DaiId(p: Port): int {
    RANGE_START + 16 * p.interface + 2 * p.channel + p.path
  }

  function Decode(id: nat): Option<Port> {
    if id < RANGE_START then None
    else
      var n := id - RANGE_START;
      Some(Port(n / (MAX_PATH * PORT_MAX), id % MAX_PATH, (n / MAX_PATH) % PORT_MAX))
  }

  datatype Stream = Playback | Capture | Neither

  /** The calls that stream setup makes to the DAI; a map names the slots of the direction it is for. */
  datatype DaiCall =
    | SetTdmSlot(txMask: nat, rxMask: nat, slots: nat, width: nat)
    | SetChannelMap(stream: Stream, channels: nat, offsets: Row)
    | SetSysclk(hz: uint32)

  datatype DaiReplies = DaiReplies(slot: int, channelMap: int, sysclk: int)

  function ShiftRight(x: nat, k: nat): nat
    decreases k
  {
    if k == 0 then x else ShiftRight(x / 2, k - 1)
  }

  /** 0xFFFF shifted right until `slots` bits are left. */
  function SlotMask(slots: nat): nat
    requires slots <= MAX_SLOTS
  {
    ShiftRight(0xFFFF, 16 - slots)
  }

  lemma {:induction false} ShiftedOnes(n: nat, k: nat)
    requires k <= n
    ensures ShiftRight(Pow2(n) - 1, k) == Pow2(n - k) - 1
    decreases k
  {
    if k > 0 {
      assert Pow2(n) == 2 * Pow2(n - 1);
      ShiftedOnes(n - 1, k - 1);
    }
  }

  /** The mask has exactly the bits of the first `slots` slots. */
  lemma MaskIsTheFirstSlots(slots: nat)
    requires slots <= MAX_SLOTS
    ensures SlotMask(slots) == Pow2(slots) - 1
  {
    Pow2OfWidths();
    ShiftedOnes(16, 16 - slots);
  }

  /** The slot mask is for the stream's own direction only. */
  function SlotCall(stream: Stream, mask: nat, slots: nat): DaiCall
    requires stream != Neither
  {
    if stream == Playback then SetTdmSlot(0, mask, slots, SLOT_WIDTH) else SetTdmSlot(mask, 0, slots, SLOT_WIDTH)
  }

  /** Stream setup: the calls made, up to the first that fails, and the code returned. */
  function Setup(m: Limits, rows: seq<Row>, channels: seq<nat>, id: nat, stream: Stream, rate: uint32, r: DaiReplies)
    : (seq<DaiCall>, int)
    requires Shaped(m, rows) && |channels| == |rows| && id < RANGE_START + 16 * m.interfaces
  {
    var p := Decode(id);
    if p.None? || stream == Neither then ([], -EINVAL)
    else
      DecodedInRange(m, id);
      TargetIsARow(m, rows, p.value);
      var c, mask := RowIndex(p.value), SlotMask(m.slots);
      var slot := SlotCall(stream, mask, m.slots);
      var channelMap := SetChannelMap(stream, channels[c], rows[c]);
      if r.slot < 0 then ([slot], r.slot)
      else if r.channelMap < 0 then ([slot, channelMap], r.channelMap)
      else ([slot, channelMap, SetSysclk(ToU32(rate * SLOT_WIDTH * m.slots))], r.sysclk)
  }

  lemma DecodedInRange(m: Limits, id: nat)
    requires RANGE_START <= id < RANGE_START + 16 * m.interfaces
    ensures PortInRange(m, Decode(id).value)
  {
  }

  // ---- Writing: from a control ----

  predicate Accepted(m: Limits, offset: uint32) {
    offset % 4 == 0 && offset <= m.maxOffset
  }

  /** A control value: interface and direction in the first word, channel in the second, then the offsets. */
  predicate Control(m: Limits, values: seq<int>) {
    |values| >= 2 + m.slots
  }

  /** The row a control addresses, unless its first two words are out of range. */
  function Target(m: Limits, values: seq<int>): (p: Option<Port>)
    requires |values| >= 2
    ensures p.Some? ==> PortInRange(m, p.value)
  {
    var interface, channel := ToS32(values[0]), ToS32(values[1]);
    if interface < 0 || interface >= m.interfaces * MAX_PATH || channel < 0 || channel >= PORT_MAX then None
    else Some(Port(interface / MAX_PATH, interface % MAX_PATH, channel))
  }

  function Updated(m: Limits, row: Row, values: seq<int>, n: nat): (r: Row)
    requires n <= m.slots <= |row| && Control(m, values)
    ensures |r| == |row|
  {
    seq(|row|, s requires 0 <= s < |row| =>
      if s < n && Accepted(m, ToU32(values[2 + s])) then ToU32(values[2 + s]) else row[s])
  }

  lemma TargetIsARow(m: Limits, rows: seq<Row>, p: Port)
    requires Shaped(m, rows) && PortInRange(m, p)
    ensures RowIndex(p) < |rows|
  {
  }

  function Put(m: Limits, rows: seq<Row>, values: seq<int>): (seq<Row>, int)
    requires Shaped(m, rows) && Control(m, values)
  {
    var p := Target(m, values);
    if p.None? then (rows, -EINVAL)
    else
      TargetIsARow(m, rows, p.value);
      var c := RowIndex(p.value);
      (rows[c := Updated(m, rows[c], values, m.slots)], 0)
  }

  class SlotMap {
    const limits: Limits
    const rows: array<Row>

    ghost predicate Valid()
      reads this, rows
    {
      Shaped(limits, rows[..])
    }

    constructor (limits: Limits, rows: array<Row>)
      requires Shaped(limits, rows[..])
      ensures Valid() && this.limits == limits && this.rows == rows
    {
      this.limits := limits;
      this.rows := rows;
    }

    method SlotMapPut(values: seq<int>) returns (ret: int)
      requires Valid() && Control(limits, values)
      modifies rows
      ensures Valid() && (rows[..], ret) == Put(limits, old(rows[..]), values)
    {
      hide Accepted;
      var interface, channel := ToS32(values[0]), ToS32(values[1]);
      if interface < 0 || interface >= limits.interfaces * MAX_PATH {
        return -EINVAL;
      }
      if channel < 0 || channel >= PORT_MAX {
        return -EINVAL;
      }
      // The table of the interface, then the row of the direction and channel within it.
      var c := (interface / MAX_PATH) * (MAX_PATH * PORT_MAX) + (interface % MAX_PATH) * PORT_MAX + channel;
      ghost var was := rows[..];
      var slot := 0;
      assert Updated(limits, was[c], values, 0) == was[c];
      while slot < limits.slots
        invariant 0 <= slot <= limits.slots
        invariant rows[..] == was[c := Updated(limits, was[c], values, slot)]
      {
        var offset := ToU32(values[2 + slot]);
        if Accepted(limits, offset) {
          rows[c] := rows[c][slot := offset];
        }
        assert rows[c] == Updated(limits, was[c], values, slot + 1);
        assert rows[..] == was[c := Updated(limits, was[c], values, slot + 1)];
        slot := slot + 1;
      }
      ret := 0;
    }

    /** Stream setup; `calls` are those made to the DAI. */
    method HwParams(channels: array<nat>, id: nat, stream: Stream, rate: uint32, r: DaiReplies)
        returns (ret: int, calls: seq<DaiCall>)
      requires Valid() && channels.Length == rows.Length
      requires id < RANGE_START + 16 * limits.interfaces
      ensures (calls, ret) == Setup(limits, rows[..], channels[..], id, stream, rate, r)
    {
      hide SlotMask, Shaped;
      calls := [];
      if id < RANGE_START {
        return -EINVAL, calls;
      }
      var path := id % MAX_PATH;
      var interface := (id - RANGE_START) / (MAX_PATH * PORT_MAX);
      var channel := ((id - RANGE_START) / MAX_PATH) % PORT_MAX;
      DecodedInRange(limits, id);
      TargetIsARow(limits, rows[..], Port(interface, path, channel));
      var c := interface * (MAX_PATH * PORT_MAX) + path * PORT_MAX + channel;
      var offsets, count := rows[c], channels[c];
      assert rows[..][c] == offsets && channels[..][c] == count;
      SlotsFit(limits, rows[..]);
      if stream == Playback {
        calls := [SetTdmSlot(0, SlotMask(limits.slots), limits.slots, SLOT_WIDTH)];
      } else if stream == Capture {
        calls := [SetTdmSlot(SlotMask(limits.slots), 0, limits.slots, SLOT_WIDTH)];
      } else {
        return -EINVAL, calls;
      }
      ret := r.slot;
      if ret < 0 {
        return;
      }
      calls := [calls[0], SetChannelMap(stream, count, offsets)];
      ret := r.channelMap;
      if ret < 0 {
        return;
      }
      calls := [calls[0], calls[1], SetSysclk(ToU32(rate * SLOT_WIDTH * limits.slots))];
      ret := r.sysclk;
    }
  }

  lemma SlotsFit(m: Limits, rows: seq<Row>)
    requires Shaped(m, rows)
    ensures m.slots <= MAX_SLOTS
  {
  }

  // ---- The two addressings agree ----

  /** Decoding inverts the layout of the ids. */
  lemma DecodeInverse(p: Port)
    requires p.path < MAX_PATH && p.channel < PORT_MAX
    ensures Decode(DaiId(p)) == Some(p)
  {
    var low, pair := 2 * p.channel + p.path, 8 * p.interface + p.channel;
    SplitBy16(p.interface, low);
    SplitBy8(p.interface, p.channel);
    SplitBy2(pair, p.path);
    SplitBy2(0x4800 + pair, p.path);
    assert DaiId(p) - RANGE_START == 16 * p.interface + low == 2 * pair + p.path;
    assert DaiId(p) == 2 * (0x4800 + pair) + p.path;
  }

  lemma SplitBy16(q: nat, r: nat)
    requires r < 16
    ensures (16 * q + r) / 16 == q
  {
  }

  lemma SplitBy8(q: nat, r: nat)
    requires r < 8
    ensures (8 * q + r) % 8 == r
  {
  }

  lemma SplitBy2(q: nat, r: nat)
    requires r < 2
    ensures (2 * q + r) / 2 == q && (2 * q + r) % 2 == r
  {
  }

  /** Every id of the range is the id of the port it decodes to. */
  lemma {:induction false} EncodeInverse(id: nat)
    requires RANGE_START <= id
    ensures Decode(id).Some?
    ensures
      var p := Decode(id).value;
      DaiId(p) == id && p.path < MAX_PATH && p.channel < PORT_MAX
  {
    var n := (id - RANGE_START) / 2;
    assert id - RANGE_START == 2 * n + id % 2;
    assert (id - RANGE_START) / 16 == n / 8;
  }

  lemma RowsAreDistinct(p: Port, q: Port)
    requires p.path < MAX_PATH && p.channel < PORT_MAX && q.path < MAX_PATH && q.channel < PORT_MAX
    ensures RowIndex(p) == RowIndex(q) <==> p == q
  {
  }

  /** The control word that addresses the row of a DAI id is twice the interface plus the direction. */
  lemma {:induction false} ControlForId(m: Limits, values: seq<int>, id: nat)
    requires |values| >= 2
    requires Decode(id).Some? && Decode(id).value.interface < m.interfaces
    ensures
      var p := Decode(id).value;
      Target(m, values) == Some(p) <==> ToS32(values[0]) == 2 * p.interface + p.path && ToS32(values[1]) == p.channel
  {
  }

  // ---- Sequences of writes ----

  ghost predicate Controls(m: Limits, writes: seq<seq<int>>) {
    forall k :: 0 <= k < |writes| ==> Control(m, writes[k])
  }

  function After(m: Limits, rows: seq<Row>, writes: seq<seq<int>>): (r: seq<Row>)
    requires Shaped(m, rows) && Controls(m, writes)
    ensures Shaped(m, r) && |r| == |rows|
    decreases |writes|
  {
    if writes == [] then rows
    else Put(m, After(m, rows, writes[..|writes| - 1]), writes[|writes| - 1]).0
  }

  /** The byte at which a slot begins, up to the last that the board takes. */
  predicate SlotStart(m: Limits, x: uint32) {
    exists k :: 0 <= k <= x && x == 4 * k && x <= m.maxOffset
  }

  lemma SlotStartIff(m: Limits, x: uint32)
    ensures SlotStart(m, x) <==> Accepted(m, x)
  {
    assert x == 4 * (x / 4) + x % 4;
  }

  /** A write is refused, changing nothing, exactly if its interface and direction or its channel is out of range. */
  lemma PutReturns(m: Limits, rows: seq<Row>, values: seq<int>)
    requires Shaped(m, rows) && Control(m, values)
    ensures
      if 0 <= ToS32(values[0]) < 2 * m.interfaces && 0 <= ToS32(values[1]) < 8
      then Put(m, rows, values).1 == 0
      else Put(m, rows, values) == (rows, -EINVAL)
  {
  }

  /** The last offset that a write to this port's row offered for this slot and that was acceptable, if any. */
  function LastAccepted(m: Limits, writes: seq<seq<int>>, p: Port, slot: nat): Option<uint32>
    requires Controls(m, writes) && slot < m.slots
    decreases |writes|
  {
    if writes == [] then None
    else
      var w := writes[|writes| - 1];
      if Target(m, w) == Some(p) && SlotStart(m, ToU32(w[2 + slot])) then Some(ToU32(w[2 + slot]))
      else LastAccepted(m, writes[..|writes| - 1], p, slot)
  }

  /**
    * What a port's row holds in a slot is the last acceptable offset written for that port and slot, and nothing
    * else moves it.
    */
  lemma {:induction false} RowHoldsLastAccepted(m: Limits, rows: seq<Row>, writes: seq<seq<int>>, p: Port, slot: nat)
    requires Shaped(m, rows) && Controls(m, writes) && PortInRange(m, p) && slot < m.slots
    ensures RowIndex(p) < |rows|
    ensures
      var last := LastAccepted(m, writes, p, slot);
      After(m, rows, writes)[RowIndex(p)][slot] == if last.Some? then last.value else rows[RowIndex(p)][slot]
    decreases |writes|
  {
    hide Accepted, SlotStart, RowIndex, Target;
    TargetIsARow(m, rows, p);
    if writes != [] {
      var init, w := writes[..|writes| - 1], writes[|writes| - 1];
      SlotStartIff(m, ToU32(w[2 + slot]));
      RowHoldsLastAccepted(m, rows, init, p, slot);
      var before, q := After(m, rows, init), Target(m, w);
      if q.Some? {
        TargetIsARow(m, before, q.value);
        RowsAreDistinct(p, q.value);
      }
    }
  }

  /**
    * So stream setup for an id sees, slot by slot, what was last accepted on control (2 * interface + direction,
    * channel).
    */
  lemma {:induction false} IdSeesItsWrites(m: Limits, rows: seq<Row>, writes: seq<seq<int>>, id: nat, slot: nat)
    requires Shaped(m, rows) && Controls(m, writes) && slot < m.slots
    requires RANGE_START <= id < RANGE_START + 16 * m.interfaces
    ensures
      var p := Decode(id).value;
      var last := LastAccepted(m, writes, p, slot);
      && RowIndex(p) < |rows|
      && After(m, rows, writes)[RowIndex(p)][slot] == if last.Some? then last.value else rows[RowIndex(p)][slot]
  {
    hide After, LastAccepted, Accepted;
    RowHoldsLastAccepted(m, rows, writes, Decode(id).value, slot);
  }

  /**
    * Setup that fails nowhere announces the first slots in the stream's direction and clocks them all, at any
    * rate up to 384 kHz.
    */
  lemma {:induction false} SetupAnnouncesTheSlots(
      m: Limits, rows: seq<Row>, channels: seq<nat>, id: nat, stream: Stream, rate: uint32, r: DaiReplies)
    requires Shaped(m, rows) && |channels| == |rows| && rate <= 384000
    requires RANGE_START <= id < RANGE_START + 16 * m.interfaces && stream != Neither
    requires r.slot >= 0 && r.channelMap >= 0
    ensures
      var calls := Setup(m, rows, channels, id, stream, rate, r).0;
      var mask := Pow2(m.slots) - 1;
      && |calls| == 3
      && (stream == Playback ==> calls[0] == SetTdmSlot(0, mask, m.slots, SLOT_WIDTH))
      && (stream == Capture ==> calls[0] == SetTdmSlot(mask, 0, m.slots, SLOT_WIDTH))
      && calls[2].SetSysclk? && calls[2].hz == rate * SLOT_WIDTH * m.slots
  {
    hide SlotMask, Pow2, RowIndex;
    MaskIsTheFirstSlots(m.slots);
    assert 0 <= rate * SLOT_WIDTH * m.slots <= 384000 * SLOT_WIDTH * MAX_SLOTS;
  }

  /**
    * Setup of an id below the range, or of a stream of neither direction, makes no call; otherwise a refused slot
    * or map call is the last one made, and setup returns the code of the last call made.
    */
  lemma {:induction false} SetupStopsAtRefusal(
      m: Limits, rows: seq<Row>, channels: seq<nat>, id: nat, stream: Stream, rate: uint32, r: DaiReplies)
    requires Shaped(m, rows) && |channels| == |rows| && id < RANGE_START + 16 * m.interfaces
    ensures
      var (calls, ret) := Setup(m, rows, channels, id, stream, rate, r);
      if id < RANGE_START || stream == Neither then calls == [] && ret == -EINVAL
      else
        && |calls| == (if r.slot < 0 then 1 else if r.channelMap < 0 then 2 else 3)
        && ret == (if r.slot < 0 then r.slot else if r.channelMap < 0 then r.channelMap else r.sysclk)
  {
    hide SlotMask, RowIndex;
  }

  /**
    * What the DAI is given after any sequence of writes: slot by slot the offsets last accepted for the port of
    * the id.
    */
  lemma {:induction false} SetupSeesItsWrites(m: Limits, rows: seq<Row>, channels: seq<nat>, writes: seq<seq<int>>,
                                              id: nat, stream: Stream, rate: uint32, r: DaiReplies, slot: nat)
    requires Shaped(m, rows) && |channels| == |rows| && Controls(m, writes) && slot < m.slots
    requires RANGE_START <= id < RANGE_START + 16 * m.interfaces && stream != Neither && r.slot >= 0
    ensures
      var calls := Setup(m, After(m, rows, writes), channels, id, stream, rate, r).0;
      var last := LastAccepted(m, writes, Decode(id).value, slot);
      && |calls| >= 2 && calls[1].SetChannelMap? && calls[1].stream == stream && slot < |calls[1].offsets|
      && (last.Some? ==> calls[1].offsets[slot] == last.value)
      && (last.None? ==>
            var c := RowIndex(Decode(id).value);
            c < |rows| && calls[1].offsets[slot] == rows[c][slot])
  {
    hide After, LastAccepted, Accepted, SlotMask, RowIndex, Decode;
    assert Decode(id).Some? by { EncodeInverse(id); }
    DecodedInRange(m, id);
    IdSeesItsWrites(m, rows, writes, id, slot);
  }

  predicate Offset(x: uint32) {
    x == UNUSED || (x % 4 == 0 && x <= LAST_OFFSET)
  }

  ghost predicate AllOffsets(rows: seq<Row>) {
    forall c, s :: 0 <= c < |rows| && 0 <= s < |rows[c]| ==> Offset(rows[c][s])
  }

  /** Whatever is written, every entry of the table stays unused or a multiple of four up to the last slot. */
  lemma {:induction false} OffsetsStayOffsets(m: Limits, rows: seq<Row>, writes: seq<seq<int>>)
    requires Shaped(m, rows) && Controls(m, writes) && AllOffsets(rows) && m.maxOffset <= LAST_OFFSET
    ensures AllOffsets(After(m, rows, writes))
    decreases |writes|
  {
    hide RowIndex, Target;
    if writes != [] {
      var init, w := writes[..|writes| - 1], writes[|writes| - 1];
      OffsetsStayOffsets(m, rows, init);
      var q := Target(m, w);
      if q.Some? {
        TargetIsARow(m, After(m, rows, init), q.value);
      }
    }
  }

  // ---- The boards' tables ----

  /** The offsets a port is configured with; a build with four slots drops the end mark of three of the rows. */
  function InitialOffsets(p: Port, four: bool): Row {
    match p.channel
    case 0 =>
      if four && (p.interface == 1 || (p.interface == 0 && p.path == 1)) then [0, 4, 8, 12]
      else if p.interface == 0 && p.path == 1 then [0, 4, 8, 12, UNUSED]
      else [0, 4, UNUSED]
    case 1 => [8, 12, UNUSED]
    case 2 => [16, 20, UNUSED]
    case 3 => [24, 28, UNUSED]
    case _ => [UNUSED]
  }

  function RowLength(four: bool): nat {
    if four then 4 else MAX_SLOTS
  }

  /** The rest of a row is zero. */
  function InitialRow(p: Port, four: bool): (row: Row)
    ensures |row| == RowLength(four)
    ensures forall s :: 0 <= s < |row| ==> Offset(row[s])
  {
    var offsets := InitialOffsets(p, four);
    seq(RowLength(four), s requires 0 <= s < RowLength(four) => if s < |offsets| then offsets[s] else 0)
  }

  function PortAt(c: nat): Port {
    Port(c / (MAX_PATH * PORT_MAX), c % (MAX_PATH * PORT_MAX) / PORT_MAX, c % PORT_MAX)
  }

  function InitialRows(m: Limits, four: bool): (rows: seq<Row>)
    requires m.slots <= RowLength(four)
    ensures Shaped(m, rows)
    ensures forall c :: 0 <= c < |rows| ==> rows[c] == InitialRow(PortAt(c), four)
  {
    var n := m.interfaces * (MAX_PATH * PORT_MAX);
    seq(n, c requires 0 <= c < n => InitialRow(PortAt(c), four))
  }

  /**
    * From the boards' own tables, whatever is written, every entry is unused or a multiple of four up to the last
    * slot.
    */
  lemma TablesHoldOffsets(m: Limits, four: bool, writes: seq<seq<int>>)
    requires m.slots <= RowLength(four) && m.maxOffset <= LAST_OFFSET && Controls(m, writes)
    ensures AllOffsets(After(m, InitialRows(m, four), writes))
  {
    hide InitialRow, InitialRows, Offset;
    OffsetsStayOffsets(m, InitialRows(m, four), writes);
  }
}
