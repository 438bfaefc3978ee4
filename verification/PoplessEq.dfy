/** The popless-equalizer handler: a band table read from the stream and packed into a once-allocated block. */
module PoplessEq {
  import opened Machine
  import opened ParamPacking
  import opened CommandStream

  const MAX_EQ_BANDS := 12
  const MODULE_ID: uint32 := 0x108BA
  const EQ_ENABLE := 0x4001
  const EQ_CONFIG := 0x4002
  const EQ_SINGLE_BAND_FREQ := 0x4008
  const EQ_BAND_INDEX := 0x4009
  const CONFIG_LEN := 3
  const PER_BAND_LEN := 5

  /** One entry of per_band_cfg; `idx` is negative for an entry the current configuration does not name. */
  datatype Band = Band(idx: int, filter: uint32, freq: uint32, gain: uint32, quality: uint32)

  type Bands = b: seq<Band> | |b| == MAX_EQ_BANDS witness seq(MAX_EQ_BANDS, _ => Band(-1, 0, 0, 0, 0))

  datatype Eq = Eq(enable: uint32, pregain: uint32, preset: uint32, numBands: uint32,
                   bands: Bands, bandIndex: uint32, freq: uint32)

  // ---- The packed block ----

  /** How many entries are named. */
  function Count(bands: seq<Band>): nat {
    if bands == [] then 0 else (if bands[0].idx < 0 then 0 else 1) + Count(bands[1..])
  }

  function Entry(b: Band): seq<uint32> {
    [b.filter, b.freq, b.gain, b.quality, ToU32(b.idx)]
  }

  /** The words of the named entries, in index order. */
  function Entries(bands: seq<Band>): (w: seq<uint32>)
    ensures |w| == PER_BAND_LEN * Count(bands)
  {
    if bands == [] then [] else (if bands[0].idx < 0 then [] else Entry(bands[0])) + Entries(bands[1..])
  }

  function Zeros(n: nat): seq<uint32> {
    seq(n, _ => 0)
  }

  /** The block of a configuration: three words, the named entries, and a zero tail for repeated indices. */
  function Packed(eq: Eq): (w: seq<uint32>)
    requires Count(eq.bands) <= eq.numBands
    ensures |w| == CONFIG_LEN + PER_BAND_LEN * eq.numBands
  {
    [eq.pregain, eq.preset, eq.numBands] + Entries(eq.bands)
    + Zeros(PER_BAND_LEN * (eq.numBands - Count(eq.bands)))
  }

  // ---- Reading a command ----

  function Cleared(bands: Bands): Bands {
    seq(MAX_EQ_BANDS, i requires 0 <= i < MAX_EQ_BANDS => bands[i].(idx := -1))
  }

  /** The four parameters behind a band index. */
  function ReadBand(words: Words, r: Reader, idx: uint32): (Band, Reader) {
    var (filter, r1) := GetNext(words, r);
    var (freq, r2) := GetNext(words, r1);
    var (gain, r3) := GetNext(words, r2);
    var (quality, r4) := GetNext(words, r3);
    (Band(idx, ToU32(filter), ToU32(freq), ToU32(gain), ToU32(quality)), r4)
  }

  datatype Table = Table(ok: bool, r: Reader, bands: Bands)

  /** `n` band records, each overwriting its index; an index out of range ends the read. */
  function ReadBands(words: Words, r: Reader, bands: Bands, n: nat): (t: Table)
    ensures t.ok && t.r.rc == 0 ==> t.r.pos == r.pos + PER_BAND_LEN * n
    ensures t.r.pos <= READ_LIMIT || t.r.pos == r.pos
    ensures r.pos <= t.r.pos
    decreases n
  {
    if n == 0 then Table(true, r, bands)
    else
      var (v, r1) := GetNext(words, r);
      var idx := ToU32(v);
      if idx >= MAX_EQ_BANDS then Table(false, r1, bands)
      else
        var (band, r2) := ReadBand(words, r1, idx);
        ReadBands(words, r2, bands[idx := band], n - 1)
  }

  lemma {:induction false} CountUpdate(bands: seq<Band>, k: nat, b: Band)
    requires k < |bands|
    ensures Count(bands[k := b]) <= Count(bands) + 1
  {
    if k > 0 {
      CountUpdate(bands[1..], k - 1, b);
      assert bands[k := b][1..] == bands[1..][k - 1 := b];
    } else {
      assert bands[k := b][1..] == bands[1..];
    }
  }

  /** Pigeonhole: n records name at most n bands. */
  lemma {:induction false} ReadBandsCount(words: Words, r: Reader, bands: Bands, n: nat)
    ensures Count(ReadBands(words, r, bands, n).bands) <= Count(bands) + n
    decreases n
  {
    if n > 0 {
      var (v, r1) := GetNext(words, r);
      var idx := ToU32(v);
      if idx < MAX_EQ_BANDS {
        var (band, r2) := ReadBand(words, r1, idx);
        CountUpdate(bands, idx, band);
        ReadBandsCount(words, r2, bands[idx := band], n - 1);
      }
    }
  }

  lemma {:induction false} NoneNamed(bands: seq<Band>)
    requires forall k :: 0 <= k < |bands| ==> bands[k].idx < 0
    ensures Count(bands) == 0
  {
    if bands != [] {
      NoneNamed(bands[1..]);
    }
  }

  datatype Target = Nothing | Enable | Config(numBands: uint32) | BandIndex | BandFreq

  /** The outcome of the switch: `Keep` packs under the earlier header, `Quiet` and `Foreign` pack nothing. */
  datatype Effect = Foreign | Quiet(r: Reader, eq: Eq) | Fault(r: Reader, eq: Eq) | Keep(r: Reader, eq: Eq)
                  | Choose(r: Reader, eq: Eq, target: Target)

  function Chosen(c: Command, r: Reader, eq: Eq, target: Target): Effect {
    if c.state == CONFIG_SET then Choose(r, eq, target) else Keep(r, eq)
  }

  function ReadConfig(words: Words, c: Command, r: Reader, eq: Eq): Effect {
    if c.length < CONFIG_LEN || c.offset != 0 then Fault(r, eq)
    else
      var (pregain, r1) := GetNext(words, r);
      var (preset, r2) := GetNext(words, r1);
      var (num, r3) := GetNext(words, r2);
      var n := ToU32(num);
      var eq' := eq.(bands := Cleared(eq.bands), pregain := ToU32(pregain), preset := ToU32(preset), numBands := n);
      if n > MAX_EQ_BANDS || (n != 0 && (c.length - CONFIG_LEN) / PER_BAND_LEN != n) then Fault(r3, eq')
      else
        var t := ReadBands(words, r3, eq'.bands, n);
        var eq'' := eq'.(bands := t.bands);
        if !t.ok then Fault(t.r, eq'') else Chosen(c, t.r, eq'', Config(n))
  }

  function Interpret(words: Words, c: Command, r: Reader, eq: Eq): (e: Effect)
    ensures e.Choose? && e.target.Config? ==>
              e.target.numBands == e.eq.numBands <= MAX_EQ_BANDS && Count(e.eq.bands) <= e.eq.numBands
  {
    if c.id == EQ_CONFIG then
      NoneNamed(Cleared(eq.bands));
      var e := ReadConfig(words, c, r, eq);
      assert e.Choose? ==> Count(e.eq.bands) <= e.eq.numBands by {
        if e.Choose? {
          var (pregain, r1) := GetNext(words, r);
          var (preset, r2) := GetNext(words, r1);
          var (num, r3) := GetNext(words, r2);
          ReadBandsCount(words, r3, Cleared(eq.bands), e.eq.numBands);
        }
      }
      e
    else if c.id !in {EQ_ENABLE, EQ_BAND_INDEX, EQ_SINGLE_BAND_FREQ} then Foreign
    else if c.length != 1 || c.offset != 0 then Fault(r, eq)
    else if c.id == EQ_SINGLE_BAND_FREQ && eq.bandIndex > MAX_EQ_BANDS then Keep(r, eq)
    else
      var (v, r1) := GetNext(words, r);
      var x := ToU32(v);
      if c.id == EQ_ENABLE then
        if x == eq.enable then Quiet(r1, eq) else Choose(r1, eq.(enable := x), Enable)
      else if c.id == EQ_BAND_INDEX then
        if x > MAX_EQ_BANDS then Fault(r1, eq) else Chosen(c, r1, eq.(bandIndex := x), BandIndex)
      else
        Chosen(c, r1, eq.(freq := x), BandFreq)
  }

  // ---- The command loop ----

  function SizeOf(t: Target): uint32
    requires t.Config? ==> t.numBands <= MAX_EQ_BANDS
  {
    match t
    case Nothing => 0
    case Config(n) => WORD_SZ * (CONFIG_LEN + PER_BAND_LEN * n)
    case _ => WORD_SZ
  }

  function HeaderOf(t: Target): Header
    requires t.Config? ==> t.numBands <= MAX_EQ_BANDS
  {
    var paramId := match t case Nothing => 0 case Enable => 0x108BB case Config(_) => 0x108BC
                           case BandIndex => 0x108C3 case BandFreq => 0x108C2;
    Header(MODULE_ID, 0, paramId, SizeOf(t))
  }

  /** Header, data pointer and block survive between commands; `block` is allocated by the first chosen EQ_CONFIG. */
  datatype State = State(r: Reader, eq: Eq, target: Target, block: Option<seq<uint32>>, out: seq<Packet>) {
    predicate Ok() {
      && (target.Config? ==>
            target.numBands <= MAX_EQ_BANDS && block.Some?
            && CONFIG_LEN + PER_BAND_LEN * target.numBands <= |block.value|)
      && AllConfigs(out)
    }

    function Length(iid: bool): nat
      requires AllConfigs(out)
    {
      |Concat(iid, out)|
    }

    /** What the data pointer refers to now. */
    function Data(): (d: seq<uint8>)
      requires Ok()
      ensures |d| == SizeOf(target)
    {
      match target
      case Nothing => []
      case Enable => Le32(eq.enable)
      case Config(n) => BytesOf(block.value[..CONFIG_LEN + PER_BAND_LEN * n])
      case BandIndex => Le32(eq.bandIndex)
      case BandFreq => Le32(eq.freq)
    }
  }

  predicate AllConfigs(ps: seq<Packet>) {
    forall k :: 0 <= k < |ps| ==>
      |ps[k].data| == ps[k].hdr.paramSize <= WORD_SZ * (CONFIG_LEN + PER_BAND_LEN * MAX_EQ_BANDS)
      && ps[k].hdr.instanceId == 0
  }

  /** `Overrun`: the C code would write outside an allocation here; nothing is claimed of it beyond that. */
  datatype Verdict = Continue(s: State) | Leave(s: State) | Overrun

  function Emit(iid: bool, s: State): (v: Verdict)
    requires s.Ok()
    ensures v.Continue? ==> v.s.Ok()
  {
    if s.Length(iid) + HeaderSize(iid) + SizeOf(s.target) > MAX_INBAND_PARAM_SZ then Overrun
    else Continue(s.(out := s.out + [Packet(HeaderOf(s.target), s.Data())]))
  }

  function Step(iid: bool, memory: bool, words: Words, s: State): (v: Verdict)
    requires s.Ok()
    ensures !v.Overrun? ==> v.s.Ok()
  {
    var (c, r) := GetCommand(words, s.r);
    match Interpret(words, c, r, s.eq)
    case Foreign => Continue(s.(r := r))
    case Quiet(r2, eq) => Continue(s.(r := r2, eq := eq))
    case Fault(r2, eq) => Leave(s.(r := r2.(rc := -EINVAL), eq := eq))
    case Keep(r2, eq) =>
      if r2.rc != 0 then Leave(s.(r := r2, eq := eq)) else Emit(iid, s.(r := r2, eq := eq))
    case Choose(r2, eq, target) =>
      var tooLong := s.Length(iid) + COMMAND_IID_PAYLOAD_SZ + SizeOf(target) > MAX_INBAND_PARAM_SZ;
      var rc := if tooLong then -EINVAL else r2.rc;
      if rc != 0 then Leave(s.(r := r2.(rc := rc), eq := eq))
      else if !target.Config? then Emit(iid, s.(r := r2, eq := eq, target := target))
      else if s.block.None? then
        if !memory then Leave(s.(r := r2.(rc := -ENOMEM), eq := eq))
        else Emit(iid, State(r2, eq, target, Some(Packed(eq)), s.out))
      else if |Packed(eq)| > |s.block.value| then Overrun
      else Emit(iid, State(r2, eq, target, Some(Packed(eq) + s.block.value[|Packed(eq)|..]), s.out))
  }

  datatype Ended = Ended(s: State) | Broken

  function Run(iid: bool, memory: bool, words: Words, n: int, i: int, s: State): (e: Ended)
    requires s.Ok()
    ensures e.Ended? ==> e.s.Ok()
    decreases n - i
  {
    if i >= n then Ended(s)
    else
      match Step(iid, memory, words, s)
      case Overrun => Broken
      case Leave(t) => Ended(t)
      case Continue(t) => Run(iid, memory, words, n, i + 1, t)
  }

  function Start(r: Reader, eq: Eq): State {
    State(r, eq, Nothing, None, [])
  }

  function Finish(iid: bool, s: State): Delivery
    requires s.Ok()
  {
    Delivery(s.r.rc, if s.r.rc == 0 && s.out != [] then Some(Concat(iid, s.out)) else None)
  }

  /** The whole call, or None when it runs outside an allocation; `blockMemory` is the second allocation's outcome. */
  function Handled(
      client: bool, memory: bool, blockMemory: bool, iid: bool, eq: Eq, words: Words): Option<(Delivery, Eq)> {
    match Open(words, client, memory)
    case Refused(rc) => Some((Delivery(rc, None), eq))
    case Accepted(n, r) =>
      match Run(iid, blockMemory, words, n, 0, Start(r, eq))
      case Broken => None
      case Ended(s) => Some((Finish(iid, s), s.eq))
  }
}
