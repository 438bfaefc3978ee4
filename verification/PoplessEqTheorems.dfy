/** What the equalizer handler guarantees: its block is a faithful band table, and its packets stay in the buffer. */
module PoplessEqTheorems {
  import opened Machine
  import opened ParamPacking
  import opened CommandStream
  import opened PoplessEq

  // ---- The block as the DSP reads it ----

  datatype Params = Params(filter: uint32, freq: uint32, gain: uint32, quality: uint32)

  /** Entries are read while their indices increase; the zero tail cannot pass for one. */
  function Decode(ws: seq<uint32>, previous: int): map<uint32, Params> {
    if |ws| < PER_BAND_LEN || ws[4] <= previous then map[]
    else Decode(ws[PER_BAND_LEN..], ws[4])[ws[4] := Params(ws[0], ws[1], ws[2], ws[3])]
  }

  function ParamsOf(b: Band): Params {
    Params(b.filter, b.freq, b.gain, b.quality)
  }

  /** Each named entry carries its own position. */
  predicate Indexed(bands: seq<Band>, from: nat) {
    forall k :: 0 <= k < |bands| ==> bands[k].idx < 0 || bands[k].idx == from + k
  }

  function Named(bands: seq<Band>, from: nat): map<uint32, Params>
    requires from + |bands| <= MAX_EQ_BANDS
  {
    if bands == [] then map[]
    else if bands[0].idx < 0 then Named(bands[1..], from + 1)
    else Named(bands[1..], from + 1)[from := ParamsOf(bands[0])]
  }

  lemma {:induction false} NamedAt(bands: seq<Band>, from: nat, i: uint32)
    requires from + |bands| <= MAX_EQ_BANDS
    ensures i in Named(bands, from) <==> from <= i < from + |bands| && bands[i - from].idx >= 0
    ensures i in Named(bands, from) ==> Named(bands, from)[i] == ParamsOf(bands[i - from])
  {
    if bands != [] {
      NamedAt(bands[1..], from + 1, i);
    }
  }

  lemma {:induction false} NamedSize(bands: seq<Band>, from: nat)
    requires from + |bands| <= MAX_EQ_BANDS
    ensures |Named(bands, from)| == Count(bands)
  {
    if bands != [] {
      NamedSize(bands[1..], from + 1);
      NamedAt(bands[1..], from + 1, from);
    }
  }

  lemma {:induction false} DecodeEntries(bands: seq<Band>, from: nat, zeros: nat, previous: int)
    requires from + |bands| <= MAX_EQ_BANDS && Indexed(bands, from) && previous < from
    requires previous >= 0 || zeros == 0 || Count(bands) > 0
    ensures Decode(Entries(bands) + Zeros(PER_BAND_LEN * zeros), previous) == Named(bands, from)
  {
    hide Entry, ParamsOf, Decode, Zeros, Entries;
    var tail := Zeros(PER_BAND_LEN * zeros);
    EntriesUnfold(bands, tail);
    if bands == [] {
      DecodeZeros(zeros, previous);
    } else if bands[0].idx < 0 {
      DecodeEntries(bands[1..], from + 1, zeros, previous);
    } else {
      DecodeEntries(bands[1..], from + 1, zeros, from);
      DecodeOne(bands[0], Entries(bands[1..]) + tail, from, previous);
    }
  }

  lemma EntriesUnfold(bands: seq<Band>, tail: seq<uint32>)
    ensures Entries(bands) + tail ==
      if bands == [] then tail
      else if bands[0].idx < 0 then Entries(bands[1..]) + tail
      else Entry(bands[0]) + (Entries(bands[1..]) + tail)
  {
    hide Entry;
    assert [] + tail == tail;
    if bands != [] {
      assert [] + Entries(bands[1..]) == Entries(bands[1..]);
    }
  }

  lemma DecodeZeros(n: nat, previous: int)
    requires previous >= 0 || n == 0
    ensures Decode(Zeros(PER_BAND_LEN * n), previous) == map[]
  {
  }

  lemma DecodeOne(b: Band, rest: seq<uint32>, idx: uint32, previous: int)
    requires b.idx == idx && previous < idx
    ensures Decode(Entry(b) + rest, previous) == Decode(rest, idx)[idx := ParamsOf(b)]
  {
    var ws := Entry(b) + rest;
    assert ws[PER_BAND_LEN..] == rest;
    assert forall j :: 0 <= j < PER_BAND_LEN ==> ws[j] == Entry(b)[j];
  }

  // ---- The band records a client writes ----

  datatype BandCmd = BandCmd(idx: uint32, filter: int, freq: int, gain: int, quality: int) {
    function Value(): Params {
      Params(ToU32(filter), ToU32(freq), ToU32(gain), ToU32(quality))
    }

    function Words(): seq<int> {
      [idx, filter, freq, gain, quality]
    }
  }

  predicate InRange(bs: seq<BandCmd>) {
    forall j :: 0 <= j < |bs| ==> bs[j].idx < MAX_EQ_BANDS
  }

  function EncodeBands(bs: seq<BandCmd>): (w: seq<int>)
    ensures |w| == PER_BAND_LEN * |bs|
  {
    if bs == [] then [] else bs[0].Words() + EncodeBands(bs[1..])
  }

  /** The band table meant: for every index mentioned, the last parameters given. */
  function TableOf(bs: seq<BandCmd>): (t: map<uint32, Params>)
    ensures |t| <= |bs|
    ensures bs != [] ==> |t| > 0
  {
    if bs == [] then map[]
    else
      var last := bs[|bs| - 1];
      TableOf(bs[..|bs| - 1])[last.idx := last.Value()]
  }

  function ApplyBands(bands: Bands, bs: seq<BandCmd>): Bands
    requires InRange(bs)
    decreases |bs|
  {
    if bs == [] then bands
    else
      var b := bs[0];
      var p := b.Value();
      ApplyBands(bands[b.idx := Band(b.idx, p.filter, p.freq, p.gain, p.quality)], bs[1..])
  }

  /** `n` whole band records lie inside the array, every index in range. */
  predicate BandsInRange(words: Words, pos: nat, n: nat)
    decreases n
  {
    n == 0
    || (&& pos + PER_BAND_LEN <= READ_LIMIT
        && ToU32(words[pos]) < MAX_EQ_BANDS
        && BandsInRange(words, pos + PER_BAND_LEN, n - 1))
  }

  /** The band records that lie there. */
  function BandsAt(words: Words, pos: nat, n: nat): (bs: seq<BandCmd>)
    requires BandsInRange(words, pos, n)
    ensures |bs| == n && InRange(bs) && (n > 0 ==> pos + PER_BAND_LEN * n <= READ_LIMIT)
    decreases n
  {
    if n == 0 then []
    else
      var b := BandCmd(ToU32(words[pos]), words[pos + 1], words[pos + 2], words[pos + 3], words[pos + 4]);
      [b] + BandsAt(words, pos + PER_BAND_LEN, n - 1)
  }

  lemma {:induction false} BandsAtInverse(words: Words, pos: nat, bs: seq<BandCmd>)
    requires InRange(bs) && At(words, pos, EncodeBands(bs))
    ensures BandsInRange(words, pos, |bs|) && BandsAt(words, pos, |bs|) == bs
    decreases |bs|
  {
    hide At;
    if bs != [] {
      var part := bs[0].Words();
      AtSplit(words, pos, part, EncodeBands(bs[1..]));
      AtElement(words, pos, part, 0);
      AtElement(words, pos, part, 1);
      AtElement(words, pos, part, 2);
      AtElement(words, pos, part, 3);
      AtElement(words, pos, part, 4);
      BandsAtInverse(words, pos + PER_BAND_LEN, bs[1..]);
    }
  }

  lemma ReadBandAt(words: Words, pos: nat, idx: uint32)
    requires pos + PER_BAND_LEN <= READ_LIMIT
    ensures
      var p := BandCmd(idx, words[pos + 1], words[pos + 2], words[pos + 3], words[pos + 4]).Value();
      ReadBand(words, Reader(pos + 1, 0), idx) == (Band(idx, p.filter, p.freq, p.gain, p.quality), Reader(pos + 5, 0))
  {
    hide ToU32;
  }

  lemma ApplyBandsFront(bands: Bands, b: BandCmd, rest: seq<BandCmd>)
    requires InRange([b] + rest)
    ensures InRange(rest) && b.idx < MAX_EQ_BANDS
    ensures
      var p := b.Value();
      ApplyBands(bands, [b] + rest)
      == ApplyBands(bands[b.idx := Band(b.idx, p.filter, p.freq, p.gain, p.quality)], rest)
  {
    hide ToU32;
    assert ([b] + rest)[0] == b && ([b] + rest)[1..] == rest;
    assert forall j :: 0 <= j < |rest| ==> rest[j] == ([b] + rest)[j + 1];
  }

  lemma {:induction false} ReadBandsAt(words: Words, pos: nat, bands: Bands, n: nat)
    requires BandsInRange(words, pos, n)
    ensures ReadBands(words, Reader(pos, 0), bands, n)
            == Table(true, Reader(pos + PER_BAND_LEN * n, 0), ApplyBands(bands, BandsAt(words, pos, n)))
    decreases n
  {
    hide ToU32, GetNext, ReadBand, ApplyBands;
    if n == 0 {
      assert ApplyBands(bands, []) == bands by { ApplyNoBands(bands); }
    } else {
      var b := BandCmd(ToU32(words[pos]), words[pos + 1], words[pos + 2], words[pos + 3], words[pos + 4]);
      var p, rest := b.Value(), BandsAt(words, pos + PER_BAND_LEN, n - 1);
      ReadBandAt(words, pos, b.idx);
      ApplyBandsFront(bands, b, rest);
      ReadBandsAt(words, pos + PER_BAND_LEN, bands[b.idx := Band(b.idx, p.filter, p.freq, p.gain, p.quality)], n - 1);
    }
  }

  lemma ApplyNoBands(bands: Bands)
    ensures ApplyBands(bands, []) == bands
  {
  }

  /** What the table shows for index `i`: nothing, or its parameters. */
  predicate Shows(bands: Bands, t: map<uint32, Params>) {
    && Indexed(bands, 0)
    && forall i: uint32 :: i < MAX_EQ_BANDS ==>
         (bands[i].idx >= 0 <==> i in t) && (i in t ==> ParamsOf(bands[i]) == t[i])
  }

  lemma {:induction false} ApplyBandsShows(bands: Bands, done: seq<BandCmd>, bs: seq<BandCmd>)
    requires InRange(done) && InRange(bs) && Shows(bands, TableOf(done))
    ensures Shows(ApplyBands(bands, bs), TableOf(done + bs))
    decreases |bs|
  {
    if bs == [] {
      assert done + bs == done;
    } else {
      var p := bs[0].Value();
      var bands' := bands[bs[0].idx := Band(bs[0].idx, p.filter, p.freq, p.gain, p.quality)];
      assert (done + [bs[0]])[..|done|] == done;
      assert done + [bs[0]] + bs[1..] == done + bs;
      ApplyBandsShows(bands', done + [bs[0]], bs[1..]);
    }
  }

  lemma {:induction false} TableKeysInRange(bs: seq<BandCmd>)
    requires InRange(bs)
    ensures forall i: uint32 :: i in TableOf(bs) ==> i < MAX_EQ_BANDS
  {
    if bs != [] {
      TableKeysInRange(bs[..|bs| - 1]);
    }
  }

  lemma ShownIsNamed(bands: Bands, t: map<uint32, Params>)
    requires Shows(bands, t) && forall i: uint32 :: i in t ==> i < MAX_EQ_BANDS
    ensures Named(bands, 0) == t && Count(bands) == |t|
  {
    hide Named, Count;
    NamedSize(bands, 0);
    forall i: uint32
      ensures i in Named(bands, 0) <==> i in t
      ensures i in t ==> Named(bands, 0)[i] == t[i]
    {
      NamedAt(bands, 0, i);
    }
  }

  lemma {:induction false} NamedIsTable(before: Bands, bs: seq<BandCmd>)
    requires InRange(bs)
    ensures var bands := ApplyBands(Cleared(before), bs);
            Indexed(bands, 0) && Named(bands, 0) == TableOf(bs) && Count(bands) == |TableOf(bs)|
  {
    ApplyBandsShows(Cleared(before), [], bs);
    assert [] + bs == bs;
    TableKeysInRange(bs);
    ShownIsNamed(ApplyBands(Cleared(before), bs), TableOf(bs));
  }

  /**
   The packed block of any list of band records: the configuration words, then one entry per distinct index and zeros
   behind them; read back, it is exactly the table meant. No list names more bands than it has records.
   */
  lemma {:induction false} BlockIsTheTable(eq: Eq, before: Bands, bs: seq<BandCmd>)
    requires InRange(bs) && eq.numBands == |bs| && eq.bands == ApplyBands(Cleared(before), bs)
    ensures Count(eq.bands) == |TableOf(bs)| <= eq.numBands
    ensures var ws := Packed(eq);
            && ws[..CONFIG_LEN] == [eq.pregain, eq.preset, |bs|]
            && Decode(ws[CONFIG_LEN..], -1) == TableOf(bs)
            && ws[CONFIG_LEN + PER_BAND_LEN * |TableOf(bs)|..] == Zeros(PER_BAND_LEN * (|bs| - |TableOf(bs)|))
  {
    hide ApplyBands, TableOf, Decode, Named, Count;
    NamedIsTable(before, bs);
    DecodeEntries(eq.bands, 0, |bs| - Count(eq.bands), -1);
    var body := Entries(eq.bands) + Zeros(PER_BAND_LEN * (|bs| - Count(eq.bands)));
    assert Packed(eq) == [eq.pregain, eq.preset, eq.numBands] + body;
  }

  // ---- Packets stay inside the in-band buffer ----

  /**
   `c` is the number of words of the longest configuration command sent so far (five when there was none). A packet is
   at most four bytes per word of that command; every other packet has paid for itself with five words.
   */
  ghost predicate Paid(iid: bool, s: State, c: nat) {
    && s.Ok() && s.eq.bandIndex <= MAX_EQ_BANDS && 5 <= c
    && s.Length(iid) <= 4 * (c * |s.out|)
    && 2 <= s.r.pos <= READ_LIMIT
    && (if s.out == [] then c == 5 else 2 + c + 5 * (|s.out| - 1) <= s.r.pos)
    && COMMAND_IID_PAYLOAD_SZ + SizeOf(s.target) <= 4 * c
  }

  lemma Budget(c: nat, packets: nat)
    requires packets > 0 && c + 5 * packets <= 130
    ensures 4 * (c * packets) <= 3380
  {
    var d := packets as int - 13;
    assert c * packets <= (130 - 5 * packets) * packets;
    assert (130 - 5 * packets) * packets == 845 - 5 * (d * d);
    assert d * d >= 0;
  }

  lemma Raise(c: nat, c': nat, packets: nat)
    requires c <= c'
    ensures c * packets + c' <= c' * (packets + 1)
  {
    assert c * packets <= c' * packets;
  }

  /** How far the reader gets, per outcome of the switch. */
  lemma {:induction false} InterpretCost(words: Words, c: Command, r: Reader, eq: Eq)
    requires eq.bandIndex <= MAX_EQ_BANDS && r.pos <= READ_LIMIT
    ensures var e := Interpret(words, c, r, eq);
            e != Foreign ==>
              && r.pos <= e.r.pos <= READ_LIMIT && e.eq.bandIndex <= MAX_EQ_BANDS
              && (r.rc != 0 && !e.Fault? ==> e.r.rc != 0)
              && ((e.Keep? || e.Choose?) && e.r.rc == 0 ==> r.pos + 1 <= e.r.pos)
              && (e.Choose? && e.target.Config? && e.r.rc == 0 ==> e.r.pos == r.pos + 3 + 5 * e.target.numBands)
  {
    if c.id == EQ_CONFIG && c.length >= CONFIG_LEN && c.offset == 0 {
      var (v1, r1) := GetNext(words, r);
      var (v2, r2) := GetNext(words, r1);
      var (v3, r3) := GetNext(words, r2);
      if ToU32(v3) <= MAX_EQ_BANDS {
        ReadBandsSticky(words, r3, Cleared(eq.bands), ToU32(v3));
      }
    }
  }

  lemma {:induction false} ReadBandsSticky(words: Words, r: Reader, bands: Bands, n: nat)
    ensures r.rc != 0 ==> ReadBands(words, r, bands, n).r.rc != 0
    decreases n
  {
    if n > 0 {
      var (v, r1) := GetNext(words, r);
      if ToU32(v) < MAX_EQ_BANDS {
        var (band, r2) := ReadBand(words, r1, ToU32(v));
        ReadBandsSticky(words, r2, bands[ToU32(v) := band], n - 1);
      }
    }
  }

  lemma {:induction false} ReadBandsIff(words: Words, r: Reader, bands: Bands, n: nat)
    requires r.rc == 0
    ensures var t := ReadBands(words, r, bands, n);
            t.ok && t.r.rc == 0 <==> BandsInRange(words, r.pos, n)
    decreases n
  {
    if n > 0 {
      var (v, r1) := GetNext(words, r);
      var idx := ToU32(v);
      if idx < MAX_EQ_BANDS {
        var (band, r2) := ReadBand(words, r1, idx);
        if r2.rc == 0 {
          ReadBandsIff(words, r2, bands[idx := band], n - 1);
        } else {
          ReadBandsSticky(words, r2, bands[idx := band], n - 1);
        }
      }
    }
  }

  /** A SET configuration of `n` bands that passes every check and lies inside the array. */
  predicate SendsConfig(words: Words, c: Command, r: Reader, n: nat) {
    && c.id == EQ_CONFIG && c.state == CONFIG_SET && c.length >= CONFIG_LEN && c.offset == 0
    && r.rc == 0 && r.pos + CONFIG_LEN <= READ_LIMIT
    && ToU32(words[r.pos + 2]) == n <= MAX_EQ_BANDS
    && (n == 0 || (c.length - CONFIG_LEN) / PER_BAND_LEN == n)
    && BandsInRange(words, r.pos + CONFIG_LEN, n)
  }

  lemma {:induction false} SendsConfigIff(words: Words, c: Command, r: Reader, eq: Eq, n: uint32)
    ensures var e := Interpret(words, c, r, eq);
            e.Choose? && e.target == Config(n) && e.r.rc == 0 <==> SendsConfig(words, c, r, n)
  {
    hide ReadBands, BandsInRange;
    if c.id == EQ_CONFIG && c.length >= CONFIG_LEN && c.offset == 0 {
      var (v1, r1) := GetNext(words, r);
      var (v2, r2) := GetNext(words, r1);
      var (v3, r3) := GetNext(words, r2);
      var num := ToU32(v3);
      if num <= MAX_EQ_BANDS {
        if r3.rc == 0 {
          ReadBandsIff(words, r3, Cleared(eq.bands), num);
        } else {
          ReadBandsSticky(words, r3, Cleared(eq.bands), num);
        }
      }
    }
  }

  /**
    * The command at the read pointer sends a configuration with more bands than the block of the call was
    * allocated for.
    */
  predicate GrowsBlock(words: Words, s: State) {
    var (c, r) := GetCommand(words, s.r);
    && s.block.Some? && r.pos + CONFIG_LEN <= READ_LIMIT
    && var n := ToU32(words[r.pos + 2]);
    SendsConfig(words, c, r, n) && |s.block.value| < CONFIG_LEN + PER_BAND_LEN * n
  }

  lemma {:induction false} GrowsBlockIff(words: Words, s: State)
    ensures var (c, r) := GetCommand(words, s.r);
            var e := Interpret(words, c, r, s.eq);
            GrowsBlock(words, s)
            <==> e.Choose? && e.target.Config? && e.r.rc == 0 && s.block.Some?
                 && |s.block.value| < CONFIG_LEN + PER_BAND_LEN * e.target.numBands
  {
    hide Interpret, GetCommand, BandsInRange;
    var (c, r) := GetCommand(words, s.r);
    var e := Interpret(words, c, r, s.eq);
    if e.Choose? && e.target.Config? {
      SendsConfigIff(words, c, r, s.eq, e.target.numBands);
    }
    if r.pos + CONFIG_LEN <= READ_LIMIT {
      SendsConfigIff(words, c, r, s.eq, ToU32(words[r.pos + 2]));
    }
  }

  lemma EmitPaid(iid: bool, s: State, c: nat, c': nat)
    requires s.Ok() && s.eq.bandIndex <= MAX_EQ_BANDS && 5 <= c <= c' && s.r.pos <= READ_LIMIT
    requires s.Length(iid) <= 4 * (c * |s.out|)
    requires 2 + c' + 5 * |s.out| <= s.r.pos
    requires COMMAND_IID_PAYLOAD_SZ + SizeOf(s.target) <= 4 * c'
    ensures s.Length(iid) + COMMAND_IID_PAYLOAD_SZ + SizeOf(s.target) <= 3380
    ensures Emit(iid, s) == Continue(s.(out := s.out + [Packet(HeaderOf(s.target), s.Data())]))
    ensures Paid(iid, Emit(iid, s).s, c')
  {
    hide Concat, BytesOf, HeaderBytes;
    Raise(c, c', |s.out|);
    Budget(c', |s.out| + 1);
    ConcatAppend(iid, s.out, Packet(HeaderOf(s.target), s.Data()));
  }

  /** One turn: an error stays, the packets stay paid for, and an allocation is left exactly by a growing block. */
  lemma {:induction false} StepPaid(iid: bool, memory: bool, words: Words, s: State, c: nat) returns (c': nat)
    requires Paid(iid, s, c)
    ensures var v := Step(iid, memory, words, s);
            && (v.Overrun? <==> GrowsBlock(words, s))
            && (v.Continue? ==> Paid(iid, v.s, c') && (s.r.rc != 0 ==> v.s.r.rc != 0))
            && (v.Leave? ==> v.s.r.rc != 0 && v.s.eq.bandIndex <= MAX_EQ_BANDS)
  {
    hide GetCommand, Interpret, Packed, Emit, Concat, GrowsBlock;
    c' := c;
    GrowsBlockIff(words, s);
    var (cmd, r) := GetCommand(words, s.r);
    var e := Interpret(words, cmd, r, s.eq);
    InterpretCost(words, cmd, r, s.eq);
    if e.Keep? && e.r.rc == 0 {
      EmitPaid(iid, s.(r := e.r, eq := e.eq), c, c);
    } else if e.Choose? && e.r.rc == 0 {
      if e.target.Config? {
        var cost := 7 + 5 * e.target.numBands;
        c' := if cost > c then cost else c;
      }
      var block := if !e.target.Config? then s.block
                   else if s.block.None? then Some(Packed(e.eq))
                   else if |Packed(e.eq)| <= |s.block.value| then Some(Packed(e.eq) + s.block.value[|Packed(e.eq)|..])
                   else Some(Packed(e.eq));
      EmitPaid(iid, State(e.r, e.eq, e.target, block, s.out), c, c');
    }
  }

  /** Some turn of the run grows the block. */
  predicate EverGrows(iid: bool, memory: bool, words: Words, n: int, i: int, s: State)
    requires s.Ok()
    decreases n - i
  {
    i < n
    && (GrowsBlock(words, s)
        || (&& Step(iid, memory, words, s).Continue?
            && EverGrows(iid, memory, words, n, i + 1, Step(iid, memory, words, s).s)))
  }

  lemma {:induction false} RunPaid(iid: bool, memory: bool, words: Words, n: int, i: int, s: State, c: nat)
    requires Paid(iid, s, c)
    ensures var e := Run(iid, memory, words, n, i, s);
            && (e.Broken? <==> EverGrows(iid, memory, words, n, i, s))
            && (e.Ended? ==> e.s.eq.bandIndex <= MAX_EQ_BANDS && (s.r.rc != 0 ==> e.s.r.rc != 0)
                             && (e.s.r.rc == 0 ==> e.s.Length(iid) <= 3380))
    decreases n - i
  {
    hide Step, GrowsBlock;
    if i < n {
      var c' := StepPaid(iid, memory, words, s, c);
      match Step(iid, memory, words, s)
      case Overrun =>
      case Leave(t) =>
      case Continue(t) => RunPaid(iid, memory, words, n, i + 1, t, c');
    } else if s.out != [] {
      Budget(c, |s.out|);
    }
  }

  /**
   On every word array and every record a call can find (band index at most 12, which every call keeps): the call leaves
   its allocations exactly if a later EQ_CONFIG outgrows the block of the first; an error delivers nothing; and a
   delivery is at most 3380 of the 4096 bytes and parses into its packets, although re-packed commands skip the check.
   */
  lemma {:induction false} DeliveryIsAllOrNothing(
      client: bool, memory: bool, blockMemory: bool, iid: bool, eq: Eq, words: Words)
    requires eq.bandIndex <= MAX_EQ_BANDS
    ensures var p := Open(words, client, memory);
            Handled(client, memory, blockMemory, iid, eq, words) == None
            <==> p.Accepted? && EverGrows(iid, blockMemory, words, p.numCommands, 0, Start(p.r, eq))
    ensures match Handled(client, memory, blockMemory, iid, eq, words)
            case None => true
            case Some((d, after)) =>
              && after.bandIndex <= MAX_EQ_BANDS
              && (d.rc != 0 ==> d.sent == None)
              && (d.sent.Some? ==>
                    && 0 < |d.sent.value| <= 3380
                    && exists ps :: AllConfigs(ps) && Parse(iid, d.sent.value) == Some(ps))
  {
    var p := Open(words, client, memory);
    if p.Accepted? {
      RunPaid(iid, blockMemory, words, p.numCommands, 0, Start(p.r, eq), 5);
      var e := Run(iid, blockMemory, words, p.numCommands, 0, Start(p.r, eq));
      if e.Ended? {
        ParseInverse(iid, e.s.out);
      }
    }
  }

  // ---- A configuration with room is sent ----

  /** The record after a configuration. */
  function Configured(eq: Eq, pregain: int, preset: int, bs: seq<BandCmd>): Eq
    requires InRange(bs) && |bs| <= MAX_EQ_BANDS
  {
    eq.(
      pregain := ToU32(pregain), preset := ToU32(preset),
      numBands := |bs|, bands := ApplyBands(Cleared(eq.bands), bs))
  }

  function ConfigPacket(eq: Eq): Packet
    requires Count(eq.bands) <= eq.numBands <= MAX_EQ_BANDS
  {
    Packet(HeaderOf(Config(eq.numBands)), BytesOf(Packed(eq)))
  }

  /** A SET configuration that the block has room for, or that is the first of the call, sends its packed table. */
  lemma {:induction false} ConfigStep(iid: bool, words: Words, s: State, c: nat, r: Reader, eq: Eq)
    requires Paid(iid, s, c) && r.rc == 0
    requires var (cmd, r0) := GetCommand(words, s.r);
             Interpret(words, cmd, r0, s.eq) == Choose(r, eq, Config(eq.numBands))
    ensures Count(eq.bands) <= eq.numBands <= MAX_EQ_BANDS
    ensures s.block == None || |Packed(eq)| <= |s.block.value| ==>
      var block := Packed(eq) + (if s.block == None then [] else s.block.value[|Packed(eq)|..]);
      Step(iid, true, words, s) == Continue(State(r, eq, Config(eq.numBands), Some(block), s.out + [ConfigPacket(eq)]))
    ensures s.block == None ==> Step(iid, false, words, s) == Leave(s.(r := r.(rc := -ENOMEM), eq := eq))
  {
    hide GetCommand, Interpret, Concat, Packed, BytesOf, Count, HeaderOf, Emit;
    var (cmd, r0) := GetCommand(words, s.r);
    var e := Interpret(words, cmd, r0, s.eq);
    InterpretCost(words, cmd, r0, s.eq);
    assert e.target.numBands == e.eq.numBands;
    if s.block == None || |Packed(eq)| <= |s.block.value| {
      var cost := 7 + 5 * eq.numBands;
      var block := Packed(eq) + (if s.block == None then [] else s.block.value[|Packed(eq)|..]);
      assert block[..CONFIG_LEN + PER_BAND_LEN * eq.numBands] == Packed(eq);
      assert Packed(eq) + [] == Packed(eq);
      EmitPaid(iid, State(r, eq, Config(eq.numBands), Some(block), s.out), c, if cost > c then cost else c);
    }
  }
}
