/**
  * The DAI's side of the TDM slot map: the offsets it takes from the row that stream setup points it at,
  * as many as the port has channels, and what it reads where the row is shorter than that.
  */
module TdmDai {
  import opened Machine
  import opened TdmSlots

  const DAI_INTERFACES := 10

  // The longest channel map before and from version 3 of the DSP's port service.
  const CHANNELS := 8
  const CHANNELS_V3 := 32

  /** The slots asked for in one direction: their number, and the words that can be read from the pointer on. */
  datatype Slots = Slots(num: nat, words: Option<seq<uint32>>)

  datatype Outcome =
    | Refused
    | Beyond // read past the last word behind the pointer
    | Taken(offsets: seq<uint16>, count: nat)

  predicate Known(id: nat) {
    RANGE_START <= id < RANGE_START + DAI_INTERFACES * (MAX_PATH * PORT_MAX)
  }

  /** The direction an id is for; receive ids are even. */
  function IdStream(id: nat): Stream {
    if id % MAX_PATH == 0 then Playback else Capture
  }

  function Table(limit: nat, num: nat, words: seq<uint32>): (offsets: seq<uint16>)
    requires num <= limit && num <= |words|
    ensures |offsets| == limit
    ensures forall i :: 0 <= i < num ==> offsets[i] == ToU16(words[i])
    ensures forall i :: num <= i < limit ==> offsets[i] == UNUSED
  {
    seq(limit, i requires 0 <= i < limit => if i < num then ToU16(words[i]) else UNUSED)
  }

  /** A channel map request, for an offset table of `limit` entries. */
  function MapChannels(limit: nat, id: nat, tx: Slots, rx: Slots): (o: Outcome)
    ensures o.Taken? ==> o.count <= limit == |o.offsets|
  {
    var own := if IdStream(id) == Playback then rx else tx;
    if !Known(id) || own.words.None? || own.num > limit then Refused
    else if own.num > |own.words.value| then Beyond
    else Taken(Table(limit, own.num, own.words.value), own.num)
  }

  class Dai {
    const offset: array<uint16>
    var count: nat

    constructor (v3: bool)
      ensures fresh(offset) && offset.Length == (if v3 then CHANNELS_V3 else CHANNELS) && count == 0
    {
      offset := new uint16[if v3 then CHANNELS_V3 else CHANNELS];
      count := 0;
    }

    method SetChannelMap(id: nat, tx: Slots, rx: Slots) returns (ret: int, beyond: bool)
      modifies this`count, offset
      ensures match MapChannels(offset.Length, id, tx, rx)
              case Refused => ret == -EINVAL && !beyond && offset[..] == old(offset[..]) && count == old(count)
              case Beyond => beyond
              case Taken(offsets, n) => ret == 0 && !beyond && offset[..] == offsets && count == n
    {
      ret, beyond := -EINVAL, false;
      if id < RANGE_START || id >= RANGE_START + DAI_INTERFACES * (MAX_PATH * PORT_MAX) {
        return;
      }
      var own := if id % MAX_PATH == 0 then rx else tx;
      if own.words.None? {
        return;
      }
      if own.num > offset.Length {
        return;
      }
      var words := own.words.value;
      var i := 0;
      while i < own.num
        invariant 0 <= i <= own.num && i <= |words|
        invariant forall k :: 0 <= k < i ==> offset[k] == ToU16(words[k])
      {
        if i >= |words| {
          beyond := true;
          return;
        }
        offset[i] := ToU16(words[i]);
        i := i + 1;
      }
      while i < offset.Length
        invariant own.num <= i <= offset.Length
        invariant forall k :: 0 <= k < i ==> offset[k] == if k < own.num then ToU16(words[k]) else UNUSED
      {
        offset[i] := UNUSED;
        i := i + 1;
      }
      count := own.num;
      ret := 0;
    }
  }

  // ---- What the pointer reaches ----

  /** All rows of a board are equally long, and long enough for the slots the control writes. */
  ghost predicate Rectangular(m: Limits, rows: seq<Row>, width: nat) {
    && Shaped(m, rows)
    && 0 < width && m.slots <= width
    && forall c :: 0 <= c < |rows| ==> |rows[c]| == width
  }

  /** The rows of an interface lie one behind the other; this is the number of the first one not in its table. */
  function TableEnd(c: nat): (end: nat)
    ensures c < end
  {
    c - c % (MAX_PATH * PORT_MAX) + MAX_PATH * PORT_MAX
  }

  /** The words of the rows from number c up to number `end`. */
  function Reach(rows: seq<Row>, c: nat, end: nat): seq<uint32>
    requires c <= end <= |rows|
    decreases end - c
  {
    if c == end then [] else rows[c] + Reach(rows, c + 1, end)
  }

  lemma {:induction false} ReachLength(rows: seq<Row>, c: nat, end: nat, width: nat)
    requires c <= end <= |rows| && forall r :: 0 <= r < |rows| ==> |rows[r]| == width
    ensures |Reach(rows, c, end)| == width * (end - c)
    decreases end - c
  {
    if c < end {
      ReachLength(rows, c + 1, end, width);
      Distributes(width, 1, end - c - 1);
    }
  }

  lemma Distributes(w: nat, a: nat, b: nat)
    ensures w * (a + b) == w * a + w * b && w * a <= w * (a + b)
  {
  }

  /** The words behind the rows from c up to `mid` are those of the rows from `mid` on. */
  lemma {:induction false} ReachSplits(rows: seq<Row>, c: nat, mid: nat, end: nat)
    requires c <= mid <= end <= |rows|
    ensures Reach(rows, c, end) == Reach(rows, c, mid) + Reach(rows, mid, end)
    decreases mid - c
  {
    if c < mid {
      ReachSplits(rows, c + 1, mid, end);
    }
  }

  /** The pointer reaches the rows word by word: slot s of row k behind it is the word at width * k + s. */
  lemma ReachIsRows(rows: seq<Row>, c: nat, end: nat, width: nat, k: nat, s: nat)
    requires c + k < end <= |rows| && s < width && forall r :: 0 <= r < |rows| ==> |rows[r]| == width
    ensures width * k + s < |Reach(rows, c, end)| && Reach(rows, c, end)[width * k + s] == rows[c + k][s]
  {
    ReachSplits(rows, c, c + k, end);
    ReachLength(rows, c, c + k, width);
    assert Reach(rows, c + k, end) == rows[c + k] + Reach(rows, c + k + 1, end);
  }

  lemma TableIsWhole(m: Limits, rows: seq<Row>, c: nat)
    requires Shaped(m, rows) && c < |rows|
    ensures TableEnd(c) <= |rows|
  {
  }

  lemma PortAtInverse(c: nat)
    ensures RowIndex(PortAt(c)) == c && PortAt(c).path < MAX_PATH && PortAt(c).channel < PORT_MAX
  {
  }

  // ---- Stream setup and the DAI together ----

  /** The row of the table that an id names. */
  function RowOf(m: Limits, rows: seq<Row>, id: nat): (c: nat)
    requires Shaped(m, rows) && RANGE_START <= id < RANGE_START + 16 * m.interfaces
    ensures Decode(id).Some? && c == RowIndex(Decode(id).value) && c < TableEnd(c) <= |rows|
  {
    DecodedInRange(m, id);
    TargetIsARow(m, rows, Decode(id).value);
    TableIsWhole(m, rows, RowIndex(Decode(id).value));
    RowIndex(Decode(id).value)
  }

  /** The DAI's answer to a channel map call, given the words behind its pointer. */
  function Heard(limit: nat, id: nat, call: DaiCall, words: seq<uint32>): (o: Outcome)
    requires call.SetChannelMap?
    ensures o.Taken? ==> o.count <= limit == |o.offsets|
  {
    var none, slots := Slots(0, None), Slots(call.channels, Some(words));
    if call.stream == Playback then MapChannels(limit, id, none, slots) else MapChannels(limit, id, slots, none)
  }

  /** The DAI's answer when the port of an id is set up. */
  function Answer(m: Limits, rows: seq<Row>, channels: seq<nat>, id: nat, stream: Stream, limit: nat): (o: Outcome)
    requires Shaped(m, rows) && |channels| == |rows|
    requires RANGE_START <= id < RANGE_START + 16 * m.interfaces
    ensures o.Taken? ==> o.count <= limit == |o.offsets|
  {
    var c := RowOf(m, rows, id);
    Heard(limit, id, SetChannelMap(stream, channels[c], rows[c]), Reach(rows, c, TableEnd(c)))
  }

  /**
    * What becomes of the channel map call of stream setup: it is refused exactly when the stream's direction is
    * not the id's, or the port has more channels than the DAI's table; and it reads past the table of the
    * interface exactly when the port has more channels than the rows from its own to the last have entries.
    */
  lemma {:induction false} AnswerToSetup(m: Limits, rows: seq<Row>, channels: seq<nat>, id: nat, stream: Stream,
                                         limit: nat, rate: uint32, r: DaiReplies, width: nat)
    requires Rectangular(m, rows, width) && |channels| == |rows| && m.interfaces <= DAI_INTERFACES
    requires RANGE_START <= id < RANGE_START + 16 * m.interfaces && stream != Neither && r.slot >= 0
    ensures
      var calls := Setup(m, rows, channels, id, stream, rate, r).0;
      var c := RowOf(m, rows, id);
      var answer := Answer(m, rows, channels, id, stream, limit);
      && |calls| >= 2 && calls[1].SetChannelMap?
      && answer == Heard(limit, id, calls[1], Reach(rows, c, TableEnd(c)))
      && (answer.Refused? <==> (stream == Playback) != (Decode(id).value.path == 0) || channels[c] > limit)
      && (answer.Beyond? <==> !answer.Refused? && channels[c] > width * (TableEnd(c) - c))
      && (answer.Taken? ==> answer.count == channels[c] && |answer.offsets| == limit)
  {
    hide SlotMask, Decode, RowIndex, Reach, TableEnd;
    var c := RowOf(m, rows, id);
    PathIsParity(id);
    ReachLength(rows, c, TableEnd(c), width);
  }

  /** An id of no TDM port is refused whatever it asks for. */
  lemma UnknownIsRefused(limit: nat, id: nat, tx: Slots, rx: Slots)
    requires id < 0x9000 || id >= 0x90A0
    ensures MapChannels(limit, id, tx, rx) == Refused
  {
  }

  lemma PathIsParity(id: nat)
    requires id >= RANGE_START
    ensures Decode(id).Some? && (Decode(id).value.path == 0 <==> IdStream(id) == Playback)
  {
  }

  /** Offset i that the DAI takes, i being width * k + s, is slot s of the row k behind that of the id. */
  lemma {:induction false} AnswerIsRows(m: Limits, rows: seq<Row>, channels: seq<nat>, id: nat, stream: Stream,
                                        limit: nat, width: nat, k: nat, s: nat, i: nat)
    requires Rectangular(m, rows, width) && |channels| == |rows| && s < width && i == width * k + s
    requires RANGE_START <= id < RANGE_START + 16 * m.interfaces
    requires Answer(m, rows, channels, id, stream, limit).Taken?
    requires i < Answer(m, rows, channels, id, stream, limit).count
    ensures
      var c := RowOf(m, rows, id);
      && c + k < TableEnd(c)
      && Answer(m, rows, channels, id, stream, limit).offsets[i] == ToU16(rows[c + k][s])
  {
    hide Decode, RowIndex, TableEnd, Reach;
    var c := RowOf(m, rows, id);
    var n := TableEnd(c) - c;
    ReachLength(rows, c, TableEnd(c), width);
    if k >= n {
      Distributes(width, n, k - n);
      assert false;
    }
    ReachIsRows(rows, c, TableEnd(c), width, k, s);
  }

  /**
    * The offsets the DAI takes after any sequence of writes: those last accepted for the port of the id, and, where it
    * has more channels than its row has entries, those last accepted for the ports behind it.
    */
  lemma {:induction false} DaiHearsLastAccepted(
      m: Limits, rows: seq<Row>, channels: seq<nat>, writes: seq<seq<int>>,
      id: nat, stream: Stream, limit: nat, width: nat, k: nat, s: nat, i: nat)
    requires Rectangular(m, rows, width) && |channels| == |rows| && Controls(m, writes)
    requires s < m.slots && i == width * k + s
    requires RANGE_START <= id < RANGE_START + 16 * m.interfaces
    requires Answer(m, After(m, rows, writes), channels, id, stream, limit).Taken?
    requires i < Answer(m, After(m, rows, writes), channels, id, stream, limit).count
    ensures
      var c := RowOf(m, rows, id);
      var port := PortAt(c + k);
      var last := LastAccepted(m, writes, port, s);
      && c + k < |rows| && (port == Decode(id).value <==> k == 0)
      && Answer(m, After(m, rows, writes), channels, id, stream, limit).offsets[i]
         == ToU16(if last.Some? then last.value else rows[c + k][s])
  {
    hide After, LastAccepted, Accepted, Decode, Answer, PortAt, RowIndex;
    var c := RowOf(m, rows, id);
    WritesKeepWidths(m, rows, writes, width);
    AnswerIsRows(m, After(m, rows, writes), channels, id, stream, limit, width, k, s, i);
    PortAtInverse(c + k);
    PortIsInRange(m, rows, c + k);
    RowHoldsLastAccepted(m, rows, writes, PortAt(c + k), s);
    IdIsItsPort(id);
    RowsAreDistinct(PortAt(c + k), Decode(id).value);
  }

  lemma IdIsItsPort(id: nat)
    requires RANGE_START <= id
    ensures Decode(id).Some? && Decode(id).value.path < MAX_PATH && Decode(id).value.channel < PORT_MAX
  {
  }

  lemma PortIsInRange(m: Limits, rows: seq<Row>, c: nat)
    requires Shaped(m, rows) && c < |rows|
    ensures PortInRange(m, PortAt(c))
  {
  }

  lemma {:induction false} WritesKeepWidths(m: Limits, rows: seq<Row>, writes: seq<seq<int>>, width: nat)
    requires Rectangular(m, rows, width) && Controls(m, writes)
    ensures Rectangular(m, After(m, rows, writes), width)
    decreases |writes|
  {
    hide Accepted, RowIndex, Target;
    if writes != [] {
      var init := writes[..|writes| - 1];
      WritesKeepWidths(m, rows, init, width);
      var q := Target(m, writes[|writes| - 1]);
      if q.Some? {
        TargetIsARow(m, After(m, rows, init), q.value);
      }
    }
  }

  // ---- Whose offsets they are ----

  /** No other port's row has a say in the offsets that the DAI takes for an id. */
  ghost predicate OwnRowDecides(m: Limits, rows: seq<Row>, channels: seq<nat>, id: nat, stream: Stream, limit: nat,
                                width: nat)
    requires Shaped(m, rows) && |channels| == |rows|
    requires RANGE_START <= id < RANGE_START + 16 * m.interfaces
  {
    forall others: seq<Row> ::
      Rectangular(m, others, width) && others[RowOf(m, rows, id)] == rows[RowOf(m, rows, id)] ==>
        Answer(m, others, channels, id, stream, limit) == Answer(m, rows, channels, id, stream, limit)
  }

  /**
    * They are the port's own exactly when it has no more channels than its row has entries; where the DAI's table is no
    * longer than a row they always are.
    */
  lemma {:induction false} OwnRowDecidesIff(m: Limits, rows: seq<Row>, channels: seq<nat>, id: nat, stream: Stream,
                                            limit: nat, width: nat)
    requires Rectangular(m, rows, width) && |channels| == |rows|
    requires RANGE_START <= id < RANGE_START + 16 * m.interfaces
    requires Answer(m, rows, channels, id, stream, limit).Taken?
    ensures OwnRowDecides(m, rows, channels, id, stream, limit, width) <==> channels[RowOf(m, rows, id)] <= width
    ensures limit <= width ==> OwnRowDecides(m, rows, channels, id, stream, limit, width)
  {
    hide Decode, RowIndex, TableEnd, Reach;
    var c := RowOf(m, rows, id);
    var answer := Answer(m, rows, channels, id, stream, limit);
    ReachLength(rows, c, TableEnd(c), width);
    if channels[c] <= width {
      forall others: seq<Row> | Rectangular(m, others, width) && others[c] == rows[c]
        ensures Answer(m, others, channels, id, stream, limit) == answer
      {
        SameRowSameAnswer(m, rows, others, channels, id, stream, limit, width);
      }
    } else {
      NextRowMatters(m, rows, channels, id, stream, limit, width);
    }
  }

  /** With more channels than entries, another first entry in the row behind gives another answer. */
  lemma NextRowMatters(
      m: Limits, rows: seq<Row>, channels: seq<nat>, id: nat, stream: Stream, limit: nat, width: nat)
    requires Rectangular(m, rows, width) && |channels| == |rows|
    requires RANGE_START <= id < RANGE_START + 16 * m.interfaces
    requires Answer(m, rows, channels, id, stream, limit).Taken? && channels[RowOf(m, rows, id)] > width
    ensures !OwnRowDecides(m, rows, channels, id, stream, limit, width)
  {
    hide Decode, RowIndex, TableEnd, Reach, ToU16;
    var c := RowOf(m, rows, id);
    ReachLength(rows, c, TableEnd(c), width);
    AnswerIsRows(m, rows, channels, id, stream, limit, width, 1, 0, width);
    var x: uint32 := OtherHalf(rows[c + 1][0]);
    var row: Row := [x] + rows[c + 1][1..];
    var others := rows[c + 1 := row];
    RowsStayShaped(m, rows, others);
    ReachLength(others, c, TableEnd(c), width);
    AnswerIsRows(m, others, channels, id, stream, limit, width, 1, 0, width);
    assert others[c] == rows[c];
    assert Answer(m, others, channels, id, stream, limit) != Answer(m, rows, channels, id, stream, limit);
  }

  /** A word that differs in its lower half. */
  function OtherHalf(x: uint32): (y: uint32)
    ensures ToU16(y) != ToU16(x)
  {
    if ToU16(x) == 0 then 1 else 0
  }

  lemma RowsStayShaped(m: Limits, rows: seq<Row>, others: seq<Row>)
    requires Shaped(m, rows) && |others| == |rows| && forall c :: 0 <= c < |rows| ==> |others[c]| == |rows[c]|
    ensures Shaped(m, others)
  {
  }

  lemma SameRowSameAnswer(m: Limits, rows: seq<Row>, others: seq<Row>, channels: seq<nat>, id: nat, stream: Stream,
                          limit: nat, width: nat)
    requires Rectangular(m, rows, width) && Rectangular(m, others, width) && |channels| == |rows|
    requires RANGE_START <= id < RANGE_START + 16 * m.interfaces
    requires Answer(m, rows, channels, id, stream, limit).Taken?
    requires channels[RowOf(m, rows, id)] <= width && others[RowOf(m, rows, id)] == rows[RowOf(m, rows, id)]
    ensures Answer(m, others, channels, id, stream, limit) == Answer(m, rows, channels, id, stream, limit)
  {
    hide Decode, RowIndex, TableEnd;
    var c := RowOf(m, rows, id);
    var a, b := Reach(rows, c, TableEnd(c)), Reach(others, c, TableEnd(c));
    ReachLength(rows, c, TableEnd(c), width);
    ReachLength(others, c, TableEnd(c), width);
    assert a[..width] == rows[c] == others[c] == b[..width];
    assert Table(limit, channels[c], a) == Table(limit, channels[c], b) by {
      assert forall i :: 0 <= i < channels[c] ==> a[i] == a[..width][i] && b[i] == b[..width][i];
    }
  }

  const FOUR_SLOTS := Limits(4, 4, LAST_OFFSET)

  lemma FourSlotRows()
    ensures Rectangular(FOUR_SLOTS, InitialRows(FOUR_SLOTS, true), 4) && |InitialRows(FOUR_SLOTS, true)| == 64
    ensures InitialRows(FOUR_SLOTS, true)[0] == [0, 4, UNUSED, 0]
    ensures InitialRows(FOUR_SLOTS, true)[1] == [8, 12, UNUSED, 0]
  {
    hide InitialRows;
    var rows := InitialRows(FOUR_SLOTS, true);
    assert rows[0] == InitialRow(PortAt(0), true) && rows[1] == InitialRow(PortAt(1), true);
  }

  /** In the build with four slots a port of eight channels is given the offsets of the port behind it as well. */
  lemma FourSlotsReadOn(channels: seq<nat>)
    requires |channels| == 64 && channels[0] == 8
    ensures Answer(FOUR_SLOTS, InitialRows(FOUR_SLOTS, true), channels, RANGE_START, Playback, CHANNELS)
         == Taken([0, 4, UNUSED, 0, 8, 12, UNUSED, 0], 8)
  {
    hide InitialRows, Reach;
    FourSlotRows();
    var rows := InitialRows(FOUR_SLOTS, true);
    assert RowOf(FOUR_SLOTS, rows, RANGE_START) == 0 && TableEnd(0) == 16;
    ReachSplits(rows, 0, 2, 16);
    assert Reach(rows, 0, 2) == [0, 4, UNUSED, 0, 8, 12, UNUSED, 0] by { TwoRows(rows); }
    assert Table(CHANNELS, 8, Reach(rows, 0, 16)) == [0, 4, UNUSED, 0, 8, 12, UNUSED, 0];
  }

  lemma TwoRows(rows: seq<Row>)
    requires |rows| >= 2
    ensures Reach(rows, 0, 2) == rows[0] + rows[1]
  {
  }

  /** There, the last port of an interface reads past the table. */
  lemma FourSlotsLeaveTable(channels: seq<nat>)
    requires |channels| == 64 && channels[15] == 8
    ensures DaiId(Port(0, 1, 7)) == RANGE_START + 15
    ensures Answer(FOUR_SLOTS, InitialRows(FOUR_SLOTS, true), channels, RANGE_START + 15, Capture, CHANNELS) == Beyond
  {
    hide InitialRows, Reach;
    FourSlotRows();
    var rows := InitialRows(FOUR_SLOTS, true);
    assert RowOf(FOUR_SLOTS, rows, RANGE_START + 15) == 15 && TableEnd(15) == 16;
    ReachLength(rows, 15, 16, 4);
  }
}
