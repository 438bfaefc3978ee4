/** The popless-equalizer handler as it runs: record, band table, block and in-band buffer updated in place. */
module PoplessEqHandler {
  import opened Machine
  import opened ParamPacking
  import opened CommandStream
  import opened PoplessEq

  /**
    * The block holds the first `at` words of `goal`, then zeros up to `size`; the rest of `goal` is the entries
    * of `tail`.
    */
  ghost predicate Filled(
      block: seq<uint32>, at: nat, goal: seq<uint32>, tail: seq<Band>, size: nat, rest: seq<uint32>) {
    && at <= |goal| <= size
    && block == goal[..at] + Zeros(size - at) + rest
    && goal[at..] == Entries(tail)
  }

  lemma FillOne(
      before: seq<uint32>, after: seq<uint32>, at: nat, goal: seq<uint32>, tail: seq<Band>, size: nat,
      rest: seq<uint32>)
    requires Filled(before, at, goal, tail, size, rest) && tail != [] && tail[0].idx >= 0
    requires at + PER_BAND_LEN <= |before| && after == before[..at] + Entry(tail[0]) + before[at + PER_BAND_LEN..]
    ensures Filled(after, at + PER_BAND_LEN, goal, tail[1..], size, rest)
  {
    assert goal[at..] == Entry(tail[0]) + Entries(tail[1..]);
    assert goal[at + PER_BAND_LEN..] == goal[at..][PER_BAND_LEN..];
    assert goal[..at + PER_BAND_LEN] == goal[..at] + goal[at..][..PER_BAND_LEN];
    assert before[at + PER_BAND_LEN..] == Zeros(size - at - PER_BAND_LEN) + rest;
  }

  class EqRecord {
    var enable: uint32
    var pregain: uint32
    var preset: uint32
    var numBands: uint32
    const perBand: array<Band>
    var bandIndex: uint32
    var freq: uint32

    ghost predicate Valid()
      reads this
    {
      perBand.Length == MAX_EQ_BANDS
    }

    function Value(): Eq
      requires perBand.Length == MAX_EQ_BANDS
      reads this, perBand
    {
      Eq(enable, pregain, preset, numBands, perBand[..], bandIndex, freq)
    }

    constructor (eq: Eq)
      ensures Valid() && Value() == eq && fresh(perBand)
    {
      enable, pregain, preset, numBands, bandIndex, freq :=
        eq.enable, eq.pregain, eq.preset, eq.numBands, eq.bandIndex, eq.freq;
      perBand := new Band[MAX_EQ_BANDS](i requires 0 <= i < MAX_EQ_BANDS => eq.bands[i]);
    }

    /** The band records of one EQ_CONFIG, overwriting the table. */
    method LoadBands(words: Words, r0: Reader) returns (r: Reader, ok: bool)
      requires Valid() && numBands <= MAX_EQ_BANDS
      modifies perBand
      ensures Table(ok, r, perBand[..]) == ReadBands(words, r0, old(perBand[..]), numBands)
    {
      hide GetNext, ReadBand;
      r, ok := r0, true;
      var j := 0;
      while j < numBands
        invariant j <= numBands
        invariant ReadBands(words, r0, old(perBand[..]), numBands) == ReadBands(words, r, perBand[..], numBands - j)
      {
        var (v, r1) := GetNext(words, r);
        r := r1;
        var idx := ToU32(v);
        if idx >= MAX_EQ_BANDS {
          ok := false;
          return;
        }
        var (band, r2) := ReadBand(words, r, idx);
        r := r2;
        ghost var before := perBand[..];
        perBand[idx] := band;
        assert perBand[..] == before[idx := band];
        j := j + 1;
      }
    }

    /** EQ_CONFIG up to the decision whether to send; not ok means the call fails. */
    method LoadConfig(words: Words, c: Command, r0: Reader) returns (r: Reader, ok: bool)
      requires Valid()
      modifies this, perBand
      ensures var e := ReadConfig(words, c, r0, old(Value()));
              if ok then e == Chosen(c, r, Value(), Config(numBands)) && numBands <= MAX_EQ_BANDS
              else e == Fault(r, Value())
    {
      r, ok := r0, true;
      if c.length < CONFIG_LEN || c.offset != 0 {
        ok := false;
        return;
      }
      ghost var before := Value();
      for idx := 0 to MAX_EQ_BANDS
        invariant forall k :: 0 <= k < MAX_EQ_BANDS ==>
                    perBand[k] == if k < idx then before.bands[k].(idx := -1) else before.bands[k]
        invariant Value() == before.(bands := perBand[..])
      {
        perBand[idx] := perBand[idx].(idx := -1);
      }
      assert perBand[..] == Cleared(before.bands);
      var (v1, r1) := GetNext(words, r);
      pregain := ToU32(v1);
      var (v2, r2) := GetNext(words, r1);
      preset := ToU32(v2);
      var (v3, r3) := GetNext(words, r2);
      numBands := ToU32(v3);
      r := r3;
      if numBands > MAX_EQ_BANDS || (numBands != 0 && (c.length - CONFIG_LEN) / PER_BAND_LEN != numBands) {
        ok := false;
        return;
      }
      r, ok := LoadBands(words, r);
    }

    /** The packer's loop: writes exactly the words of `Packed` and leaves the rest of the block alone. */
    method FillBlock(block: array<uint32>)
      requires Valid() && Count(perBand[..]) <= numBands
      requires CONFIG_LEN + PER_BAND_LEN * numBands <= block.Length
      requires block[..CONFIG_LEN + PER_BAND_LEN * numBands] == Zeros(CONFIG_LEN + PER_BAND_LEN * numBands)
      modifies block
      ensures block[..] == Packed(Value()) + old(block[|Packed(Value())|..])
    {
      ghost var bands: Bands := perBand[..];
      ghost var size := CONFIG_LEN + PER_BAND_LEN * numBands;
      ghost var rest := block[size..];
      ghost var goal := [pregain, preset, numBands] + Entries(bands);
      WriteHead(block, pregain, preset, numBands);
      var at: nat := CONFIG_LEN;
      assert goal[..at] == [pregain, preset, numBands] && goal[at..] == Entries(bands[0..]);
      for idx := 0 to MAX_EQ_BANDS
        invariant at <= block.Length && Filled(block[..], at, goal, bands[idx..], size, rest)
      {
        ghost var before := block[..];
        assert bands[idx..][1..] == bands[idx + 1..];
        if perBand[idx].idx >= 0 {
          WriteEntry(block, at, perBand[idx]);
          FillOne(before, block[..], at, goal, bands[idx..], size, rest);
          at := at + PER_BAND_LEN;
        }
      }
      assert goal[..at] == goal;
    }

    static method WriteHead(block: array<uint32>, pregain: uint32, preset: uint32, numBands: uint32)
      requires CONFIG_LEN <= block.Length
      modifies block
      ensures block[..] == [pregain, preset, numBands] + old(block[CONFIG_LEN..])
    {
      block[0] := pregain;
      block[1] := preset;
      block[2] := numBands;
    }

    static method WriteEntry(block: array<uint32>, at: nat, b: Band)
      requires at + PER_BAND_LEN <= block.Length
      modifies block
      ensures block[..] == old(block[..at]) + Entry(b) + old(block[at + PER_BAND_LEN..])
    {
      block[at] := b.filter;
      block[at + 1] := b.freq;
      block[at + 2] := b.gain;
      block[at + 3] := b.quality;
      block[at + 4] := ToU32(b.idx);
    }
  }

  /** What the switch asks of the rest of the loop body. */
  datatype Action = Skip | Fail | Repeat | Send(target: Target)

  predicate Matches(e: Effect, a: Action, r: Reader, r0: Reader, eq: Eq, eq0: Eq) {
    match a
    case Skip => e == Quiet(r, eq) || (e == Foreign && r == r0 && eq == eq0)
    case Fail => e == Fault(r, eq)
    case Repeat => e == Keep(r, eq)
    case Send(target) => e == Choose(r, eq, target)
  }

  method Dispatch(words: Words, c: Command, r0: Reader, record: EqRecord) returns (r: Reader, a: Action)
    requires record.Valid()
    modifies record, record.perBand
    ensures Matches(Interpret(words, c, r0, old(record.Value())), a, r, r0, record.Value(), old(record.Value()))
  {
    r := r0;
    if c.id == EQ_CONFIG {
      var ok;
      r, ok := record.LoadConfig(words, c, r0);
      a := if !ok then Fail else if c.state == CONFIG_SET then Send(Config(record.numBands)) else Repeat;
      return;
    }
    if c.id !in {EQ_ENABLE, EQ_BAND_INDEX, EQ_SINGLE_BAND_FREQ} {
      return r, Skip;
    }
    if c.length != 1 || c.offset != 0 {
      return r, Fail;
    }
    if c.id == EQ_SINGLE_BAND_FREQ && record.bandIndex > MAX_EQ_BANDS {
      return r, Repeat;
    }
    var (v, r1) := GetNext(words, r);
    r := r1;
    if c.id == EQ_ENABLE {
      var previous := record.enable;
      record.enable := ToU32(v);
      a := if previous == record.enable then Skip else Send(Enable);
    } else if c.id == EQ_BAND_INDEX {
      if ToU32(v) > MAX_EQ_BANDS {
        return r, Fail;
      }
      record.bandIndex := ToU32(v);
      a := if c.state == CONFIG_SET then Send(BandIndex) else Repeat;
    } else {
      record.freq := ToU32(v);
      a := if c.state == CONFIG_SET then Send(BandFreq) else Repeat;
    }
  }

  function BlockValue(block: array?<uint32>): Option<seq<uint32>>
    reads block
  {
    if block == null then None else Some(block[..])
  }

  datatype BlockResult = Ready | NoMemory | TooSmall

  /** The block is allocated for the first configuration sent and only cleared for later ones. */
  method PrepareBlock(
      record: EqRecord, block0: array?<uint32>, memory: bool) returns (block: array?<uint32>, res: BlockResult)
    requires record.Valid() && Count(record.perBand[..]) <= record.numBands <= MAX_EQ_BANDS
    requires record.perBand as object != block0
    modifies block0
    ensures block == block0 || fresh(block)
    ensures var packed := Packed(record.Value());
            match res
            case NoMemory => old(BlockValue(block0)) == None && !memory && block == null
            case TooSmall => block0 != null && |packed| > |old(block0[..])|
            case Ready =>
              && (if block0 == null then memory else |packed| <= |old(block0[..])|)
              && BlockValue(block) == Some(if block0 == null then packed else packed + old(block0[..])[|packed|..])
  {
    var size := CONFIG_LEN + PER_BAND_LEN * record.numBands;
    block := block0;
    if block == null {
      if !memory {
        return null, NoMemory;
      }
      block := new uint32[size](_ => 0);
    } else if size > block.Length {
      return block, TooSmall;
    } else {
      forall k | 0 <= k < size {
        block[k] := 0;
      }
    }
    assert block[..size] == Zeros(size);
    assert block[size..] == if block0 == null then [] else old(block0[..])[size..];
    ghost var rest := block[size..];
    assert record.perBand[..] == old(record.perBand[..]);
    record.FillBlock(block);
    assert record.perBand[..] == old(record.perBand[..]);
    assert block[..] == Packed(record.Value()) + rest;
    assert block0 == null ==> block[..] == Packed(record.Value());
    res := Ready;
  }

  /** Packs what the header and data pointer stand for. */
  method EmitTarget(record: EqRecord, buffer: InbandBuffer, r0: Reader, target: Target, block: array?<uint32>)
    returns (r: Reader, left: bool, broken: bool)
    requires record.Valid() && buffer.Valid() && r0.rc == 0
    requires buffer.params as object != record.perBand && buffer.params as object != block
    requires State(r0, record.Value(), target, BlockValue(block), buffer.out).Ok()
    modifies buffer, buffer.params
    ensures buffer.Valid() && !left
    ensures var v := Emit(buffer.iid, old(State(r0, record.Value(), target, BlockValue(block), buffer.out)));
            if broken then v == Overrun
            else v == Continue(State(r, record.Value(), target, BlockValue(block), buffer.out))
  {
    r, left, broken := r0, false, false;
    if buffer.length + HeaderSize(buffer.iid) + SizeOf(target) > MAX_INBAND_PARAM_SZ {
      broken := true;
      return;
    }
    ghost var s := State(r, record.Value(), target, BlockValue(block), buffer.out);
    var data := match target
                case Nothing => []
                case Enable => Le32(record.enable)
                case Config(n) => BytesOf(block[..CONFIG_LEN + PER_BAND_LEN * n])
                case BandIndex => Le32(record.bandIndex)
                case BandFreq => Le32(record.freq);
    assert data == s.Data();
    var rc := buffer.Pack(HeaderOf(target), if target == Nothing then None else Some(data));
    r := r.(rc := rc);
    left := rc != 0;
  }

  method Turn(words: Words, record: EqRecord, buffer: InbandBuffer, memory: bool,
              r0: Reader, target0: Target, block0: array?<uint32>)
    returns (r: Reader, target: Target, block: array?<uint32>, left: bool, broken: bool)
    requires record.Valid() && buffer.Valid() && record.perBand as object != block0 && buffer.params as object != block0
    requires buffer.params as object != record.perBand
    requires State(r0, record.Value(), target0, BlockValue(block0), buffer.out).Ok()
    modifies record, record.perBand, buffer, buffer.params, block0
    ensures buffer.Valid() && (block == block0 || fresh(block))
    ensures var s := old(State(r0, record.Value(), target0, BlockValue(block0), buffer.out));
            var v := Step(buffer.iid, memory, words, s);
            if broken then v == Overrun
            else
              var s := State(r, record.Value(), target, BlockValue(block), buffer.out);
              s.Ok() && v == (if left then Leave(s) else Continue(s))
    ensures left ==> r.rc != 0
  {
    hide GetCommand, Interpret, Concat, Packed, Emit, HeaderOf;
    target, block, left, broken := target0, block0, false, false;
    var (c, r1) := GetCommand(words, r0);
    var a;
    r, a := Dispatch(words, c, r1, record);
    if a == Skip {
      return;
    }
    if a == Fail {
      r, left := r.(rc := -EINVAL), true;
      return;
    }
    if a.Send? {
      if buffer.length + COMMAND_IID_PAYLOAD_SZ + SizeOf(a.target) > MAX_INBAND_PARAM_SZ {
        r := r.(rc := -EINVAL);
      }
    }
    if r.rc != 0 {
      left := true;
      return;
    }
    if a.Send? {
      if a.target.Config? {
        var res;
        block, res := PrepareBlock(record, block, memory);
        if res == NoMemory {
          r, left := r.(rc := -ENOMEM), true;
          return;
        }
        if res == TooSmall {
          broken := true;
          return;
        }
      }
      target := a.target;
    }
    r, left, broken := EmitTarget(record, buffer, r, target, block);
  }

  /** `broken` marks calls that leave an allocation; they are not described further. */
  method Handle(ac: AudioClient?, record: EqRecord, words: Words, memory: bool, blockMemory: bool, iid: bool)
    returns (rc: int, broken: bool)
    requires record.Valid()
    modifies ac, record, record.perBand
    ensures match Handled(ac != null, memory, blockMemory, iid, old(record.Value()), words)
            case None => broken
            case Some((d, eq)) =>
              !broken && rc == d.rc && record.Value() == eq
              && (ac != null ==> ac.delivered == old(ac.delivered) + Deliveries(d))
  {
    broken := false;
    var p := ReadPrologue(words, ac != null, memory);
    if p.Refused? {
      rc := p.rc;
      return;
    }
    var buffer := new InbandBuffer(iid);
    var r: Reader;
    r, broken := Loop(words, record, buffer, blockMemory, p.r, p.numCommands);
    if broken {
      rc := -EINVAL;
      return;
    }
    ConcatNonEmpty(iid, buffer.out);
    rc := r.rc;
    if buffer.length > 0 && rc == 0 {
      ac.SetPpParams(buffer.params, buffer.length);
    }
  }

  method Loop(words: Words, record: EqRecord, buffer: InbandBuffer, memory: bool, r0: Reader, numCommands: int)
    returns (r: Reader, broken: bool)
    requires record.Valid() && buffer.Valid() && buffer.out == []
    requires buffer.params as object != record.perBand
    modifies record, record.perBand, buffer, buffer.params
    ensures buffer.Valid()
    ensures match Run(buffer.iid, memory, words, numCommands, 0, Start(r0, old(record.Value())))
            case Broken => broken
            case Ended(s) => !broken && s.r == r && s.eq == record.Value() && s.out == buffer.out
  {
    r, broken := r0, false;
    var i, left := 0, false;
    var target, block: array?<uint32> := Nothing, null;
    hide Step;
    while i < numCommands && !left
      invariant buffer.Valid()
      invariant (block != null ==> fresh(block)) && buffer.params as object != block
      invariant State(r, record.Value(), target, BlockValue(block), buffer.out).Ok()
      invariant Run(buffer.iid, memory, words, numCommands, 0, Start(r0, old(record.Value())))
                == var s := State(r, record.Value(), target, BlockValue(block), buffer.out);
                   if left then Ended(s) else Run(buffer.iid, memory, words, numCommands, i, s)
      decreases !left, numCommands - i
    {
      r, target, block, left, broken := Turn(words, record, buffer, memory, r, target, block);
      if broken {
        return;
      }
      i := i + 1;
    }
  }
}
