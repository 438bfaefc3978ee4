/**
  * What a whole equalizer call means: the command language with its grammar on arbitrary words, and the handler as a
  * fold over the commands read.
  */
module PoplessEqCalls {
  import opened Machine
  import opened ParamPacking
  import opened CommandStream
  import opened PoplessEq
  import opened PoplessEqTheorems

  // ---- The command language ----

  /** A command a client may write, with any state, or a foreign one. */
  datatype Cmd =
    | Toggle(state: uint32, value: int)
    | Configure(state: uint32, pregain: int, preset: int, bs: seq<BandCmd>)
    | Select(state: uint32, index: uint32)
    | Tune(state: uint32, freq: int)
    | Other(id: uint32, state: uint32, offset: uint32, length: uint32)

  function EncodeConfig(state: uint32, pregain: int, preset: int, bs: seq<BandCmd>): seq<int> {
    [EQ_CONFIG, state, 0, CONFIG_LEN + PER_BAND_LEN * |bs|] + ([pregain, preset, |bs|] + EncodeBands(bs))
  }

  predicate Sound(c: Cmd) {
    match c
    case Toggle(_, _) => true
    case Configure(_, _, _, bs) => InRange(bs) && |bs| <= MAX_EQ_BANDS
    case Select(_, index) => index <= MAX_EQ_BANDS
    case Tune(_, _) => true
    case Other(id, _, _, _) => id !in {EQ_ENABLE, EQ_CONFIG, EQ_BAND_INDEX, EQ_SINGLE_BAND_FREQ}
  }

  predicate AllSound(cs: seq<Cmd>) {
    forall j :: 0 <= j < |cs| ==> Sound(cs[j])
  }

  function Encode(c: Cmd): seq<int> {
    match c
    case Toggle(state, value) => [EQ_ENABLE, state, 0, 1, value]
    case Configure(state, pregain, preset, bs) => EncodeConfig(state, pregain, preset, bs)
    case Select(state, index) => [EQ_BAND_INDEX, state, 0, 1, index]
    case Tune(state, freq) => [EQ_SINGLE_BAND_FREQ, state, 0, 1, freq]
    case Other(id, state, offset, length) => [id, state, offset, length]
  }

  function EncodeAll(cs: seq<Cmd>): seq<int> {
    if cs == [] then [] else Encode(cs[0]) + EncodeAll(cs[1..])
  }

  // ---- Its grammar, on arbitrary words ----

  /** The command that lies at `pos`, unless it is malformed or reaches beyond the limit. */
  function Read(words: Words, pos: nat): (c: Option<Cmd>)
    ensures c.Some? ==> Sound(c.value) && pos + |Encode(c.value)| <= READ_LIMIT
  {
    if pos + 4 > READ_LIMIT then None
    else
      var id, state := ToU32(words[pos]), ToU32(words[pos + 1]);
      var offset, length := ToU32(words[pos + 2]), ToU32(words[pos + 3]);
      if id == EQ_CONFIG then ReadConfiguration(words, pos, state, offset, length)
      else if id !in {EQ_ENABLE, EQ_BAND_INDEX, EQ_SINGLE_BAND_FREQ} then Some(Other(id, state, offset, length))
      else if length != 1 || offset != 0 || pos + 5 > READ_LIMIT then None
      else if id == EQ_ENABLE then Some(Toggle(state, words[pos + 4]))
      else if id == EQ_SINGLE_BAND_FREQ then Some(Tune(state, words[pos + 4]))
      else if ToU32(words[pos + 4]) > MAX_EQ_BANDS then None
      else Some(Select(state, ToU32(words[pos + 4])))
  }

  /** Length and band count agree when there are bands; a record's index is below twelve. */
  function ReadConfiguration(words: Words, pos: nat, state: uint32, offset: uint32, length: uint32): (c: Option<Cmd>)
    requires pos + 4 <= READ_LIMIT
    ensures c.Some? ==> c.value.Configure? && Sound(c.value) && pos + |Encode(c.value)| <= READ_LIMIT
  {
    if length < CONFIG_LEN || offset != 0 || pos + 4 + CONFIG_LEN > READ_LIMIT then None
    else
      var n := ToU32(words[pos + 6]);
      if n > MAX_EQ_BANDS || (n != 0 && (length - CONFIG_LEN) / PER_BAND_LEN != n) then None
      else if !BandsInRange(words, pos + 7, n) then None
      else Some(Configure(state, words[pos + 4], words[pos + 5], BandsAt(words, pos + 7, n)))
  }

  function ReadAll(words: Words, pos: nat, n: nat): (l: Listing<Cmd>)
    ensures AllSound(l.cs)
    decreases n
  {
    if n == 0 then Listing([], pos, true)
    else
      var c := Read(words, pos);
      if c.None? then Listing([], pos, false)
      else
        var rest := ReadAll(words, pos + |Encode(c.value)|, n - 1);
        Listing([c.value] + rest.cs, rest.end, rest.whole)
  }

  lemma {:induction false} ReadInverse(words: Words, pos: nat, c: Cmd)
    requires Sound(c) && At(words, pos, Encode(c))
    ensures Read(words, pos) == Some(c)
  {
    hide At, EncodeBands, BandsInRange, BandsAt, InRange;
    if c.Configure? {
      var head, three := [EQ_CONFIG, c.state, 0, CONFIG_LEN + PER_BAND_LEN * |c.bs|], [c.pregain, c.preset, |c.bs|];
      AtSplit(words, pos, head, three + EncodeBands(c.bs));
      AtSplit(words, pos + 4, three, EncodeBands(c.bs));
      HeadAt(words, pos, head);
      AtElement(words, pos + 4, three, 0);
      AtElement(words, pos + 4, three, 1);
      AtElement(words, pos + 4, three, 2);
      BandsAtInverse(words, pos + 7, c.bs);
      assert words[pos + 4] == c.pregain && words[pos + 5] == c.preset && words[pos + 6] == |c.bs|;
    } else {
      HeadAt(words, pos, Encode(c));
      if !c.Other? {
        AtElement(words, pos, Encode(c), 4);
      }
    }
  }

  /** Written lists are read back. */
  lemma {:induction false} ReadAllInverse(words: Words, pos: nat, cs: seq<Cmd>)
    requires AllSound(cs) && At(words, pos, EncodeAll(cs))
    ensures ReadAll(words, pos, |cs|) == Listing(cs, pos + |EncodeAll(cs)|, true)
    decreases |cs|
  {
    hide Sound, Encode, At, Read;
    if cs != [] {
      AtSplit(words, pos, Encode(cs[0]), EncodeAll(cs[1..]));
      assert Sound(cs[0]);
      ReadInverse(words, pos, cs[0]);
      ReadAllInverse(words, pos + |Encode(cs[0])|, cs[1..]);
      assert [cs[0]] + cs[1..] == cs;
    }
  }

  /** A configuration is read to its last word. */
  lemma {:induction false} ConfigIsRead(words: Words, pos: nat, eq: Eq, cmd: Cmd)
    requires Read(words, pos) == Some(cmd) && cmd.Configure?
    ensures
      var (c, r) := GetCommand(words, Reader(pos, 0));
      var end := Reader(pos + |Encode(cmd)|, 0);
      var after := Configured(eq, cmd.pregain, cmd.preset, cmd.bs);
      Interpret(words, c, r, eq)
      == if cmd.state == CONFIG_SET then Choose(end, after, Config(|cmd.bs|)) else Keep(end, after)
  {
    hide ReadBands, ApplyBands, InRange, GetCommand, GetNext, BandsInRange, BandsAt, ToU32;
    HeaderIsRead(words, pos);
    ReadBandsAt(words, pos + 7, Cleared(eq.bands), ToU32(words[pos + 6]));
  }

  // ---- Commands that cannot be read ----

  /** Its header already condemns it, or the index it gives: nothing of the record is touched. */
  predicate RefusedOutright(words: Words, pos: nat) {
    && pos + 4 <= READ_LIMIT
    && var id, offset, length := ToU32(words[pos]), ToU32(words[pos + 2]), ToU32(words[pos + 3]);
    || (id == EQ_CONFIG && (length < CONFIG_LEN || offset != 0))
    || (id in {EQ_ENABLE, EQ_BAND_INDEX, EQ_SINGLE_BAND_FREQ} && (length != 1 || offset != 0))
    || id == EQ_BAND_INDEX
  }

  /** The records differ in nothing but what a command with this id stores. */
  predicate SameBut(id: int, a: Eq, b: Eq) {
    if id == EQ_ENABLE then a.(enable := b.enable) == b
    else if id == EQ_SINGLE_BAND_FREQ then a.(freq := b.freq) == b
    else if id == EQ_CONFIG then
      a.(pregain := b.pregain, preset := b.preset, numBands := b.numBands, bands := b.bands) == b
    else a == b
  }

  /** What an unreadable command leaves of the record. */
  predicate Spared(words: Words, pos: nat, before: Eq, after: Eq) {
    if RefusedOutright(words, pos) || pos >= READ_LIMIT then after == before
    else SameBut(ToU32(words[pos]), before, after)
  }

  lemma {:induction false} UnreadableIsRefused(words: Words, pos: nat, eq: Eq)
    requires Read(words, pos).None? && eq.bandIndex <= MAX_EQ_BANDS && pos <= READ_LIMIT
    ensures
      var (c, r) := GetCommand(words, Reader(pos, 0));
      match Interpret(words, c, r, eq)
      case Foreign => r.rc == -EINVAL
      case Fault(_, after) => Spared(words, pos, eq, after)
      case Quiet(r', after) => r'.rc == -EINVAL && Spared(words, pos, eq, after)
      case Keep(r', after) => r'.rc == -EINVAL && Spared(words, pos, eq, after)
      case Choose(r', after, _) => r'.rc == -EINVAL && Spared(words, pos, eq, after)
  {
    hide ReadBands, BandsInRange, BandsAt;
    var (c, r) := GetCommand(words, Reader(pos, 0));
    if pos + 7 <= READ_LIMIT && c.id == EQ_CONFIG && ToU32(words[pos + 6]) <= MAX_EQ_BANDS {
      ReadBandsIff(words, Reader(pos + 7, 0), Cleared(eq.bands), ToU32(words[pos + 6]));
      ReadBandsCode(words, Reader(pos + 7, 0), Cleared(eq.bands), ToU32(words[pos + 6]));
    }
  }

  lemma {:induction false} ReadBandsCode(words: Words, r: Reader, bands: Bands, n: nat)
    requires r.rc == 0 || r.rc == -EINVAL
    ensures ReadBands(words, r, bands, n).r.rc in {0, -EINVAL}
    decreases n
  {
    if n > 0 {
      var (v, r1) := GetNext(words, r);
      if ToU32(v) < MAX_EQ_BANDS {
        var (band, r2) := ReadBand(words, r1, ToU32(v));
        ReadBandsCode(words, r2, bands[ToU32(v) := band], n - 1);
      }
    }
  }

  /** The turn that meets an unreadable command fails. */
  lemma {:induction false} UnreadableFails(iid: bool, memory: bool, words: Words, s: State, c: nat)
    requires Paid(iid, s, c) && s.r.rc == 0 && Read(words, s.r.pos).None?
    ensures
      var v := Step(iid, memory, words, s);
      !v.Overrun? && v.s.r.rc == -EINVAL && Spared(words, s.r.pos, s.eq, v.s.eq)
  {
    hide GetCommand, Interpret, Read, Spared, Concat, Packed, Emit, GrowsBlock;
    UnreadableIsRefused(words, s.r.pos, s.eq);
    assert Spared(words, s.r.pos, s.eq, s.eq) by { SparedIsReflexive(words, s.r.pos, s.eq); }
    GrowsBlockIff(words, s);
    var _ := StepPaid(iid, memory, words, s, c);
  }

  lemma SparedIsReflexive(words: Words, pos: nat, eq: Eq)
    ensures Spared(words, pos, eq, eq)
  {
  }

  /** After a read error nothing is read, stored or packed any more. */
  lemma {:induction false} ErrorIsFinal(iid: bool, memory: bool, words: Words, n: int, i: int, s: State)
    requires s.Ok() && s.r.rc == -EINVAL
    ensures Run(iid, memory, words, n, i, s) == Ended(s)
    decreases n - i
  {
    if i < n {
      ErrorStays(words, s.r);
      ErrorIsFinal(iid, memory, words, n, i + 1, s);
    }
  }

  // ---- What a command means ----

  /** `table` is the packed table of the configuration sent last. */
  datatype Fold = Fold(eq: Eq, target: Target, table: seq<uint32>, out: seq<Packet>) {
    predicate Ok() {
      target.Config? ==> target.numBands <= MAX_EQ_BANDS
    }
  }

  function Announce(f: Fold): (g: Fold)
    requires f.Ok()
    ensures g == f.(out := g.out)
  {
    var data := match f.target
                case Nothing => []
                case Enable => Le32(f.eq.enable)
                case Config(_) => BytesOf(f.table)
                case BandIndex => Le32(f.eq.bandIndex)
                case BandFreq => Le32(f.eq.freq);
    f.(out := f.out + [Packet(HeaderOf(f.target), data)])
  }

  function Aim(f: Fold, state: uint32, target: Target): (g: Fold)
    requires f.Ok() && !target.Config?
    ensures g.Ok()
  {
    if state == CONFIG_SET then f.(target := target) else f
  }

  /**
    * The meaning of one command: ENABLE speaks only on a change; every other one stores its values and then speaks, of
    * itself if it is SET and otherwise of what was spoken of before. No block: a configuration is its own table.
    */
  function Apply(f: Fold, c: Cmd): (g: Fold)
    requires f.Ok() && Sound(c)
    ensures g.Ok()
  {
    match c
    case Other(_, _, _, _) => f
    case Toggle(_, value) =>
      if ToU32(value) == f.eq.enable then f
      else Announce(f.(eq := f.eq.(enable := ToU32(value)), target := Enable))
    case Select(state, index) => Announce(Aim(f.(eq := f.eq.(bandIndex := index)), state, BandIndex))
    case Tune(state, freq) => Announce(Aim(f.(eq := f.eq.(freq := ToU32(freq))), state, BandFreq))
    case Configure(state, pregain, preset, bs) =>
      var eq := Configured(f.eq, pregain, preset, bs);
      NamedIsTable(f.eq.bands, bs);
      Announce(if state == CONFIG_SET then f.(eq := eq, target := Config(|bs|), table := Packed(eq)) else f.(eq := eq))
  }

  function ApplyAll(f: Fold, cs: seq<Cmd>): (g: Fold)
    requires f.Ok() && AllSound(cs)
    ensures g.Ok()
    decreases |cs|
  {
    if cs == [] then f else ApplyAll(Apply(f, cs[0]), cs[1..])
  }

  predicate SetsConfig(c: Cmd) {
    c.Configure? && c.state == CONFIG_SET
  }

  /** The bands of the first SET configuration. */
  function FirstBands(cs: seq<Cmd>): Option<nat> {
    if cs == [] then None else if SetsConfig(cs[0]) then Some(|cs[0].bs|) else FirstBands(cs[1..])
  }

  predicate Exceeds(cs: seq<Cmd>, n: nat) {
    exists k :: 0 <= k < |cs| && SetsConfig(cs[k]) && |cs[k].bs| > n
  }

  /** Some SET configuration has more bands than the first one. */
  predicate Outgrows(cs: seq<Cmd>) {
    FirstBands(cs).Some? && Exceeds(cs, FirstBands(cs).value)
  }

  lemma ExceedsStep(cs: seq<Cmd>, n: nat)
    requires cs != []
    ensures Exceeds(cs, n) <==> (SetsConfig(cs[0]) && |cs[0].bs| > n) || Exceeds(cs[1..], n)
  {
    assert forall k :: 1 <= k < |cs| ==> cs[k] == cs[1..][k - 1];
    if Exceeds(cs[1..], n) {
      var k :| 0 <= k < |cs[1..]| && SetsConfig(cs[1..][k]) && |cs[1..][k].bs| > n;
      assert cs[k + 1] == cs[1..][k];
    }
  }

  /** `NoMemory`: the block could not be allocated; the record keeps the configuration. */
  datatype Outcome = Finished(f: Fold) | Outgrown | NoMemory(eq: Eq)

  /** The call command by command, with the bands that its block, once allocated, has room for. */
  function Walk(memory: bool, room: Option<nat>, f: Fold, cs: seq<Cmd>): Outcome
    requires f.Ok() && AllSound(cs)
    decreases |cs|
  {
    if cs == [] then Finished(f)
    else if SetsConfig(cs[0]) && room.Some? && |cs[0].bs| > room.value then Outgrown
    else if SetsConfig(cs[0]) && room.None? && !memory then NoMemory(Apply(f, cs[0]).eq)
    else Walk(memory, RoomAfter(room, cs[0]), Apply(f, cs[0]), cs[1..])
  }

  function RoomAfter(room: Option<nat>, c: Cmd): Option<nat> {
    if room.None? && SetsConfig(c) then Some(|c.bs|) else room
  }

  /** The walk breaks off exactly if a configuration outgrows the first one, and otherwise is the fold. */
  lemma {:induction false} WalkIsFold(room: Option<nat>, f: Fold, cs: seq<Cmd>)
    requires f.Ok() && AllSound(cs)
    ensures
      var grows := if room.Some? then Exceeds(cs, room.value) else Outgrows(cs);
      Walk(true, room, f, cs) == if grows then Outgrown else Finished(ApplyAll(f, cs))
    decreases |cs|
  {
    hide Apply, Exceeds, Sound;
    if cs == [] {
      assert room.Some? ==> !Exceeds(cs, room.value) by { NothingExceeds(if room.Some? then room.value else 0); }
    } else {
      var bound := if room.Some? then room.value else if FirstBands(cs).Some? then FirstBands(cs).value else 0;
      ExceedsStep(cs, bound);
      assert Sound(cs[0]);
      WalkIsFold(RoomAfter(room, cs[0]), Apply(f, cs[0]), cs[1..]);
    }
  }

  /** How many commands there are before the first SET configuration. */
  function BeforeFirst(cs: seq<Cmd>): (k: nat)
    ensures k <= |cs|
    ensures k < |cs| <==> FirstBands(cs).Some?
  {
    if cs == [] || SetsConfig(cs[0]) then 0 else 1 + BeforeFirst(cs[1..])
  }

  /** Without memory for the block, the walk is the fold up to the first SET configuration, whose values are kept. */
  lemma {:induction false} WalkWithoutMemory(f: Fold, cs: seq<Cmd>)
    requires f.Ok() && AllSound(cs)
    ensures FirstBands(cs).None? ==> Walk(false, None, f, cs) == Finished(ApplyAll(f, cs))
    ensures FirstBands(cs).Some? ==>
      Walk(false, None, f, cs) == NoMemory(ApplyAll(f, cs[..BeforeFirst(cs) + 1]).eq)
    decreases |cs|
  {
    hide Apply, Sound;
    if cs != [] {
      assert Sound(cs[0]);
      if SetsConfig(cs[0]) {
        assert cs[..1] == [cs[0]] && [cs[0]][1..] == [];
      } else {
        WalkWithoutMemory(Apply(f, cs[0]), cs[1..]);
        var k := BeforeFirst(cs);
        if k < |cs| {
          assert cs[..k + 1][0] == cs[0] && cs[..k + 1][1..] == cs[1..][..k];
        }
      }
    }
  }

  lemma NothingExceeds(n: nat)
    ensures !Exceeds([], n)
  {
  }

  /**
    * The handler's state stands for the fold's: same record, header and packets, and a block that begins with the
    * table sent last.
    */
  predicate StandsFor(s: State, room: Option<nat>, f: Fold) {
    && f.Ok() && s.eq == f.eq && s.target == f.target && s.out == f.out
    && (s.block.Some? <==> room.Some?)
    && (room.Some? ==> |s.block.value| == CONFIG_LEN + PER_BAND_LEN * room.value)
    && (f.target.Config? ==>
          && s.block.Some?
          && |f.table| == CONFIG_LEN + PER_BAND_LEN * f.target.numBands
          && f.table <= s.block.value)
  }

  lemma {:induction false} EmitAnnounces(iid: bool, s: State, room: Option<nat>, f: Fold)
    requires StandsFor(s, room, f) && s.Ok() && Emit(iid, s) != Overrun
    ensures
      var v := Emit(iid, s);
      v.Continue? && v.s.r == s.r && StandsFor(v.s, room, Announce(f))
  {
    hide BytesOf, HeaderOf, Le32;
    if f.target.Config? {
      assert s.block.value[..CONFIG_LEN + PER_BAND_LEN * f.target.numBands] == f.table;
    }
  }

  lemma {:induction false} SetReadsCommand(
      iid: bool, words: Words, s: State, c: nat, room: Option<nat>, f: Fold, cmd: Cmd)
    requires Paid(iid, s, c) && s.r.rc == 0 && StandsFor(s, room, f)
    requires Read(words, s.r.pos) == Some(cmd) && SetsConfig(cmd)
    ensures room.None? ==>
      Step(iid, false, words, s) == Leave(s.(r := Reader(s.r.pos + |Encode(cmd)|, -ENOMEM), eq := Apply(f, cmd).eq))
    ensures
      var v := Step(iid, true, words, s);
      if room.Some? && |cmd.bs| > room.value then v == Overrun
      else
        && v.Continue?
        && v.s.r == Reader(s.r.pos + |Encode(cmd)|, 0)
        && StandsFor(v.s, RoomAfter(room, cmd), Apply(f, cmd))
  {
    hide Read, GetCommand, Interpret, Packed, BytesOf, Concat, Paid, Count, ApplyBands, HeaderOf;
    ConfigIsRead(words, s.r.pos, s.eq, cmd);
    var eq := Configured(s.eq, cmd.pregain, cmd.preset, cmd.bs);
    var r := Reader(s.r.pos + 7 + PER_BAND_LEN * |cmd.bs|, 0);
    ConfigStep(iid, words, s, c, r, eq);
    if room.Some? && |cmd.bs| > room.value {
      var _ := StepPaid(iid, true, words, s, c);
      GrowsBlockIff(words, s);
    }
  }

  /** Every other command that is not foreign. */
  lemma {:induction false} PlainIsRead(words: Words, pos: nat, f: Fold, cmd: Cmd)
    requires f.Ok() && f.eq.bandIndex <= MAX_EQ_BANDS && Read(words, pos) == Some(cmd) && !SetsConfig(cmd)
    ensures
      var (c, r) := GetCommand(words, Reader(pos, 0));
      var end := Reader(pos + |Encode(cmd)|, 0);
      var g := Apply(f, cmd);
      match Interpret(words, c, r, f.eq)
      case Foreign => g == f && r == end
      case Quiet(r', eq) => g == f && r' == end && eq == f.eq
      case Fault(_, _) => false
      case Keep(r', eq) => r' == end && g == Announce(f.(eq := eq))
      case Choose(r', eq, target) => r' == end && !target.Config? && g == Announce(f.(eq := eq, target := target))
  {
    hide GetCommand, ApplyBands, Announce, Packed;
    HeaderIsRead(words, pos);
    if cmd.Configure? {
      ConfigIsRead(words, pos, f.eq, cmd);
    }
  }

  lemma {:induction false} PlainReadsCommand(
      iid: bool, memory: bool, words: Words, s: State, c: nat, room: Option<nat>, f: Fold, cmd: Cmd)
    requires Paid(iid, s, c) && s.r.rc == 0 && StandsFor(s, room, f)
    requires Read(words, s.r.pos) == Some(cmd) && !SetsConfig(cmd)
    ensures
      var v := Step(iid, memory, words, s);
      v.Continue? && v.s.r == Reader(s.r.pos + |Encode(cmd)|, 0) && StandsFor(v.s, room, Apply(f, cmd))
  {
    hide Read, GetCommand, Interpret, Encode, Apply, Announce, Concat, HeaderOf, GrowsBlock, Emit, Paid;
    assert s.Ok() && s.eq.bandIndex <= MAX_EQ_BANDS by { PaidIsOk(iid, s, c); }
    PlainIsRead(words, s.r.pos, f, cmd);
    GrowsBlockIff(words, s);
    var c' := StepPaid(iid, memory, words, s, c);
    var (command, r) := GetCommand(words, s.r);
    var e := Interpret(words, command, r, s.eq);
    if e.Keep? {
      EmitAnnounces(iid, s.(r := e.r, eq := e.eq), room, f.(eq := e.eq));
    } else if e.Choose? {
      PlainChoice(iid, memory, words, s, c, e);
      EmitAnnounces(iid, s.(r := e.r, eq := e.eq, target := e.target), room, f.(eq := e.eq, target := e.target));
    }
  }

  lemma PaidIsOk(iid: bool, s: State, c: nat)
    requires Paid(iid, s, c)
    ensures s.Ok() && s.eq.bandIndex <= MAX_EQ_BANDS && s.Length(iid) <= 4 * (c * |s.out|)
  {
  }

  /** With its packets paid for, a turn that chooses no configuration passes the length check. */
  lemma {:induction false} PlainChoice(iid: bool, memory: bool, words: Words, s: State, c: nat, e: Effect)
    requires Paid(iid, s, c) && e.Choose? && !e.target.Config? && e.r.rc == 0
    requires var (command, r) := GetCommand(words, s.r);
             e == Interpret(words, command, r, s.eq)
    ensures Step(iid, memory, words, s) == Emit(iid, s.(r := e.r, eq := e.eq, target := e.target))
  {
    hide GetCommand, Interpret, Concat, Emit;
    var (command, r) := GetCommand(words, s.r);
    InterpretCost(words, command, r, s.eq);
    EmitPaid(iid, s.(r := e.r, eq := e.eq, target := e.target), c, c);
  }

  /** The whole loop: a walk over the commands read, and a failure where one cannot be read. */
  lemma {:induction false} RunWalks(iid: bool, memory: bool, words: Words, n: int, i: int, s: State, c: nat,
                                    room: Option<nat>, f: Fold)
    requires Paid(iid, s, c) && s.r.rc == 0 && StandsFor(s, room, f) && (memory || room.None?)
    ensures
      var l, e := ReadAll(words, s.r.pos, if i < n then n - i else 0), Run(iid, memory, words, n, i, s);
      match Walk(memory, room, f, l.cs)
      case Outgrown => e == Broken
      case NoMemory(eq) => e.Ended? && e.s.r.rc == -ENOMEM && e.s.eq == eq
      case Finished(g) =>
        && e.Ended?
        && if l.whole then e.s.r.rc == 0 && e.s.eq == g.eq && e.s.out == g.out
           else e.s.r.rc == -EINVAL && Spared(words, l.end, g.eq, e.s.eq)
    decreases n - i
  {
    hide Step, Apply, Encode, Paid, StandsFor, SetsConfig, Sound, GrowsBlock, Read, Spared;
    PaidIsOk(iid, s, c);
    SameRecord(s, room, f);
    if i < n {
      var v := Step(iid, memory, words, s);
      var read := Read(words, s.r.pos);
      if read.None? {
        UnreadableFails(iid, memory, words, s, c);
        if v.Continue? {
          ErrorIsFinal(iid, memory, words, n, i + 1, v.s);
        }
      } else {
        if SetsConfig(read.value) {
          SetReadsCommand(iid, words, s, c, room, f, read.value);
        } else {
          PlainReadsCommand(iid, memory, words, s, c, room, f, read.value);
        }
        var c' := StepPaid(iid, memory, words, s, c);
        var rest := ReadAll(words, s.r.pos + |Encode(read.value)|, n - i - 1);
        assert ([read.value] + rest.cs)[1..] == rest.cs;
        if v.Continue? {
          RunWalks(iid, memory, words, n, i + 1, v.s, c', RoomAfter(room, read.value), Apply(f, read.value));
        }
      }
    }
  }

  lemma SameRecord(s: State, room: Option<nat>, f: Fold)
    requires StandsFor(s, room, f)
    ensures f.Ok() && s.eq == f.eq && s.out == f.out
  {
  }

  /** An array holding the device, the count and the encoded commands, with anything behind them. */
  predicate Holds(words: Words, cs: seq<Cmd>) {
    && ToS32(words[0]) != -EINVAL
    && words[1] == |cs|
    && At(words, 2, EncodeAll(cs))
  }

  lemma {:induction false} EncodingLength(cs: seq<Cmd>)
    ensures 4 * |cs| <= |EncodeAll(cs)|
  {
    if cs != [] {
      EncodingLength(cs[1..]);
    }
  }

  lemma HeldIsAccepted(words: Words, cs: seq<Cmd>)
    requires Holds(words, cs)
    ensures Open(words, true, true) == Accepted(|cs|, Reader(2, 0))
  {
    EncodingLength(cs);
  }

  function Fresh(eq: Eq): Fold {
    Fold(eq, Nothing, [], [])
  }

  /**
    * Every call, on every word array: without a client, with an error value for the device or the count, or
    * without memory for its buffer it fails at once. Otherwise, by the commands read, it leaves its allocations
    * exactly if there is memory for the block and some SET configuration has more bands than the first one. If it
    * does not, it fails, sending nothing, exactly if there is no memory for a block that is needed or an
    * announced command cannot be read, and otherwise it is the left fold over them, in record and packets.
    */
  lemma {:induction false} HandlerReadsAll(
      client: bool, memory: bool, blockMemory: bool, iid: bool, eq: Eq, words: Words)
    requires eq.bandIndex <= MAX_EQ_BANDS
    ensures
      var h := Handled(client, memory, blockMemory, iid, eq, words);
      var l := ReadAll(words, 2, NumCommands(words));
      if !client || ToS32(words[0]) == -EINVAL || ToS32(words[1]) == -EINVAL then
        h == Some((Delivery(-EINVAL, None), eq))
      else if !memory then
        h == Some((Delivery(-ENOMEM, None), eq))
      else if blockMemory && Outgrows(l.cs) then
        h == None
      else if !blockMemory && FirstBands(l.cs).Some? then
        && AllSound(l.cs[..BeforeFirst(l.cs) + 1])
        && h == Some((Delivery(-ENOMEM, None), ApplyAll(Fresh(eq), l.cs[..BeforeFirst(l.cs) + 1]).eq))
      else
        var f := ApplyAll(Fresh(eq), l.cs);
        if l.whole then
          && AllRepresentable(iid, f.out)
          && h == Some((Delivery(0, if f.out == [] then None else Some(Concat(iid, f.out))), f.eq))
        else
          && h.Some? && h.value.0 == Delivery(-EINVAL, None)
          && Spared(words, l.end, f.eq, h.value.1)
  {
    hide Walk, Run, ReadAll, ApplyAll, Outgrows, Spared;
    var p := Open(words, client, memory);
    if p.Accepted? {
      var n, l := p.numCommands, ReadAll(words, 2, NumCommands(words));
      RunWalks(iid, blockMemory, words, n, 0, Start(Reader(2, 0), eq), 5, None, Fresh(eq));
      if blockMemory {
        WalkIsFold(None, Fresh(eq), l.cs);
      } else {
        WalkWithoutMemory(Fresh(eq), l.cs);
      }
    }
  }

  /**
    * For every list of commands the array holds: the call leaves its allocations exactly if some SET configuration has
    * more bands than the first one, and otherwise it is the left fold over the commands, in record and packets. If
    * there is no memory for the block, the first SET configuration ends the call with nothing sent.
    */
  lemma {:induction false} HandlerIsFold(iid: bool, memory: bool, eq: Eq, words: Words, cs: seq<Cmd>)
    requires eq.bandIndex <= MAX_EQ_BANDS && AllSound(cs) && Holds(words, cs)
    ensures Handled(true, true, memory, iid, eq, words) == None <==> memory && Outgrows(cs)
    ensures (if memory then !Outgrows(cs) else FirstBands(cs).None?) ==>
      var f := ApplyAll(Fresh(eq), cs);
      && AllRepresentable(iid, f.out)
      && Handled(true, true, memory, iid, eq, words)
         == Some((Delivery(0, if f.out == [] then None else Some(Concat(iid, f.out))), f.eq))
    ensures !memory && FirstBands(cs).Some? ==>
      && AllSound(cs[..BeforeFirst(cs) + 1])
      && Handled(true, true, memory, iid, eq, words)
         == Some((Delivery(-ENOMEM, None), ApplyAll(Fresh(eq), cs[..BeforeFirst(cs) + 1]).eq))
  {
    hide EncodeAll, At, Handled, ApplyAll, Outgrows, ReadAll, Spared;
    HeldIsAccepted(words, cs);
    ReadAllInverse(words, 2, cs);
    HandlerReadsAll(true, true, memory, iid, eq, words);
  }

  /** A configuration without bands followed by one with a single band is written past the block. */
  lemma BlockCanBeOutgrown(iid: bool, eq: Eq, words: Words, b: BandCmd)
    requires eq.bandIndex <= MAX_EQ_BANDS && b.idx < MAX_EQ_BANDS
    requires Holds(words, [Configure(CONFIG_SET, 0, 0, []), Configure(CONFIG_SET, 0, 0, [b])])
    ensures Handled(true, true, true, iid, eq, words) == None
  {
    hide Holds, ApplyAll;
    var cs := [Configure(CONFIG_SET, 0, 0, []), Configure(CONFIG_SET, 0, 0, [b])];
    assert SetsConfig(cs[1]) && |cs[1].bs| > 0;
    HandlerIsFold(iid, true, eq, words, cs);
  }

  // ---- Every table sent is the table written ----

  /** A configuration packet that decodes to the band table of these records. */
  predicate Carries(p: Packet, pregain: int, preset: int, bs: seq<BandCmd>) {
    && p.hdr.paramId == 0x108BC && |p.data| == WORD_SZ * (CONFIG_LEN + PER_BAND_LEN * |bs|)
    && var ws := WordsOf(p.data);
    && |ws| == CONFIG_LEN + PER_BAND_LEN * |bs|
    && ws[..CONFIG_LEN] == [ToU32(pregain), ToU32(preset), |bs|]
    && Decode(ws[CONFIG_LEN..], -1) == TableOf(bs)
  }

  lemma {:induction false} SetCarries(f: Fold, c: Cmd)
    requires f.Ok() && Sound(c) && SetsConfig(c)
    ensures
      var out := Apply(f, c).out;
      |out| == |f.out| + 1 && out[..|f.out|] == f.out && Carries(out[|f.out|], c.pregain, c.preset, c.bs)
  {
    hide Packed, Decode, TableOf, WordsOf, BytesOf, ApplyBands, InRange, Count;
    var eq := Configured(f.eq, c.pregain, c.preset, c.bs);
    NamedIsTable(f.eq.bands, c.bs);
    BlockIsTheTable(eq, f.eq.bands, c.bs);
    WordsOfBytes(Packed(eq));
  }

  /**
    * In any state of a call, after whatever commands: the first SET configuration sends one packet that carries
    * the table written.
    */
  lemma {:induction false} FirstConfigIsDelivered(iid: bool, words: Words, s: State, c: nat,
                                                  pregain: int, preset: int, bs: seq<BandCmd>)
    requires Paid(iid, s, c) && s.r.rc == 0 && s.block == None
    requires InRange(bs) && |bs| <= MAX_EQ_BANDS && At(words, s.r.pos, EncodeConfig(CONFIG_SET, pregain, preset, bs))
    ensures var v := Step(iid, true, words, s);
            && v.Continue? && v.s.r == Reader(s.r.pos + |EncodeConfig(CONFIG_SET, pregain, preset, bs)|, 0)
            && exists p :: v.s.out == s.out + [p] && Carries(p, pregain, preset, bs)
  {
    hide GetCommand, Interpret, At, Concat, Packed, Decode, TableOf, WordsOf, BytesOf, ApplyBands;
    hide InRange, Step, Paid, Count;
    ReadInverse(words, s.r.pos, Configure(CONFIG_SET, pregain, preset, bs));
    ConfigIsRead(words, s.r.pos, s.eq, Configure(CONFIG_SET, pregain, preset, bs));
    var eq := Configured(s.eq, pregain, preset, bs);
    ConfigStep(iid, words, s, c, Reader(s.r.pos + 7 + PER_BAND_LEN * |bs|, 0), eq);
    BlockIsTheTable(eq, s.eq.bands, bs);
    WordsOfBytes(Packed(eq));
    assert Carries(ConfigPacket(eq), pregain, preset, bs);
  }

  /**
    * Once a block exists, a written configuration stays inside it exactly when it has no more bands than the
    * block holds.
    */
  lemma LaterConfigFitsIff(iid: bool, memory: bool, words: Words, s: State, c: nat,
                                              pregain: int, preset: int, bs: seq<BandCmd>)
    requires Paid(iid, s, c) && s.r.rc == 0 && s.block.Some?
    requires InRange(bs) && |bs| <= MAX_EQ_BANDS && At(words, s.r.pos, EncodeConfig(CONFIG_SET, pregain, preset, bs))
    ensures Step(iid, memory, words, s) == Overrun <==> CONFIG_LEN + PER_BAND_LEN * |bs| > |s.block.value|
  {
    hide At, GetCommand, Interpret, Step, Paid, ApplyBands, GrowsBlock;
    ReadInverse(words, s.r.pos, Configure(CONFIG_SET, pregain, preset, bs));
    ConfigIsRead(words, s.r.pos, s.eq, Configure(CONFIG_SET, pregain, preset, bs));
    GrowsBlockIff(words, s);
    var c' := StepPaid(iid, memory, words, s, c);
  }

  lemma {:induction false} FoldOnlyAdds(f: Fold, cs: seq<Cmd>)
    requires f.Ok() && AllSound(cs)
    ensures f.out <= ApplyAll(f, cs).out
    decreases |cs|
  {
    hide Packed, BytesOf, Configured, HeaderOf, Le32;
    if cs != [] {
      FoldOnlyAdds(Apply(f, cs[0]), cs[1..]);
    }
  }

  lemma {:induction false} FoldSplits(f: Fold, cs: seq<Cmd>, k: nat)
    requires f.Ok() && AllSound(cs) && k <= |cs|
    ensures AllSound(cs[..k]) && AllSound(cs[k..])
    ensures ApplyAll(f, cs) == ApplyAll(ApplyAll(f, cs[..k]), cs[k..])
    decreases k
  {
    hide Apply, Sound;
    if k > 0 {
      assert Sound(cs[0]);
      FoldSplits(Apply(f, cs[0]), cs[1..], k - 1);
      assert cs[1..][..k - 1] == cs[..k][1..] && cs[1..][k - 1..] == cs[k..] && cs[..k][0] == cs[0];
    } else {
      assert cs[..0] == [] && cs[0..] == cs;
    }
  }

  /**
    * In the block a call sends, parsed into its packets, every SET configuration of the stream has its packet,
    * behind those of the commands before it, and it decodes to exactly the table that the configuration wrote.
    */
  lemma {:induction false} TablesAreDelivered(iid: bool, eq: Eq, words: Words, cs: seq<Cmd>, k: nat)
    requires eq.bandIndex <= MAX_EQ_BANDS && AllSound(cs) && Holds(words, cs) && !Outgrows(cs)
    requires k < |cs| && SetsConfig(cs[k])
    ensures AllSound(cs[..k])
    ensures
      var d := Handled(true, true, true, iid, eq, words);
      && d.Some? && d.value.0.sent.Some?
      && var ps := Parse(iid, d.value.0.sent.value);
      var before := ApplyAll(Fresh(eq), cs[..k]).out;
      && ps.Some? && |before| < |ps.value| && before <= ps.value
      && Carries(ps.value[|before|], cs[k].pregain, cs[k].preset, cs[k].bs)
  {
    hide Apply, ApplyAll, Holds, Outgrows, Carries, Parse, Concat, Sound;
    HandlerIsFold(iid, true, eq, words, cs);
    FoldSplits(Fresh(eq), cs, k);
    var f := ApplyAll(Fresh(eq), cs[..k]);
    assert Sound(cs[k]) && cs[k..][0] == cs[k] && cs[k..][1..] == cs[k + 1..];
    SetCarries(f, cs[k]);
    FoldOnlyAdds(Apply(f, cs[k]), cs[k + 1..]);
    FoldStep(f, cs[k..]);
    ParseInverse(iid, ApplyAll(Fresh(eq), cs).out);
  }

  lemma FoldStep(f: Fold, cs: seq<Cmd>)
    requires f.Ok() && AllSound(cs) && cs != []
    ensures ApplyAll(f, cs) == ApplyAll(Apply(f, cs[0]), cs[1..])
  {
    hide Apply, Sound;
  }

  // ---- The DSP's side ----

  /** The equalizer's parameters at the DSP. */
  datatype DspEq = DspEq(enable: uint32, pregain: uint32, preset: uint32, table: map<uint32, Params>,
                         bandIndex: uint32, freq: uint32)

  function Receive(d: DspEq, p: Packet): DspEq {
    if p.hdr.moduleId != 0x108BA then d
    else if p.hdr.paramId == 0x108BC then
      var ws := WordsOf(p.data);
      if |ws| < CONFIG_LEN then d
      else d.(pregain := ws[0], preset := ws[1], table := Decode(ws[CONFIG_LEN..], -1))
    else if |p.data| != WORD_SZ then d
    else if p.hdr.paramId == 0x108BB then d.(enable := FromLe32(p.data))
    else if p.hdr.paramId == 0x108C3 then d.(bandIndex := FromLe32(p.data))
    else if p.hdr.paramId == 0x108C2 then d.(freq := FromLe32(p.data))
    else d
  }

  function ReceiveAll(d: DspEq, ps: seq<Packet>): DspEq
    decreases |ps|
  {
    if ps == [] then d else Receive(ReceiveAll(d, ps[..|ps| - 1]), ps[|ps| - 1])
  }

  /** The parameters that the record stands for: its table is of the bands the last configuration named. */
  function Shown(eq: Eq): DspEq {
    DspEq(eq.enable, eq.pregain, eq.preset, Named(eq.bands, 0), eq.bandIndex, eq.freq)
  }

  predicate OnlySets(cs: seq<Cmd>) {
    forall j :: 0 <= j < |cs| ==> cs[j].Other? || cs[j].state == CONFIG_SET
  }

  lemma ReceiveOneMore(d: DspEq, ps: seq<Packet>, p: Packet)
    ensures ReceiveAll(d, ps + [p]) == Receive(ReceiveAll(d, ps), p)
  {
    hide Receive;
    assert (ps + [p])[..|ps|] == ps;
  }

  lemma WordIsHeard(d: DspEq, target: Target, x: uint32)
    requires target == Enable || target == BandIndex || target == BandFreq
    ensures Receive(d, Packet(HeaderOf(target), Le32(x))) ==
      if target == Enable then d.(enable := x)
      else if target == BandIndex then d.(bandIndex := x)
      else d.(freq := x)
  {
    hide Le32, FromLe32, WordsOf, Decode;
    Le32Inverse(x);
  }

  lemma {:induction false} SetIsHeard(d: DspEq, f: Fold, c: Cmd)
    requires f.Ok() && Sound(c) && (c.Other? || c.state == CONFIG_SET) && ReceiveAll(d, f.out) == Shown(f.eq)
    ensures ReceiveAll(d, Apply(f, c).out) == Shown(Apply(f, c).eq)
  {
    hide Le32, HeaderOf, Receive, ReceiveAll, Packed, Named, BytesOf, ApplyBands, Count, Configured, InRange;
    var g := Apply(f, c);
    match c
    case Other(_, _, _, _) =>
    case Toggle(_, value) =>
      if g != f {
        ReceiveOneMore(d, f.out, g.out[|f.out|]);
        WordIsHeard(Shown(f.eq), Enable, g.eq.enable);
      }
    case Select(_, _) =>
      ReceiveOneMore(d, f.out, g.out[|f.out|]);
      WordIsHeard(Shown(f.eq), BandIndex, g.eq.bandIndex);
    case Tune(_, _) =>
      ReceiveOneMore(d, f.out, g.out[|f.out|]);
      WordIsHeard(Shown(f.eq), BandFreq, g.eq.freq);
    case Configure(_, _, _, _) => ConfigIsHeard(d, f, c);
  }

  /** What a command that is not SET sends before any choice: a bare header of the module. */
  lemma NothingChosen(f: Fold)
    requires f.target == Nothing
    ensures Announce(f).out == f.out + [Packet(Header(0x108BA, 0, 0, 0), [])]
  {
  }

  /**
    * The record after a configuration: its words, and for each band either the parameters last given with its index or
    * those it had, no longer named.
    */
  lemma {:induction false} ConfiguredRecord(eq: Eq, pregain: int, preset: int, bs: seq<BandCmd>, i: uint32)
    requires InRange(bs) && |bs| <= MAX_EQ_BANDS && i < MAX_EQ_BANDS
    ensures
      var after := Configured(eq, pregain, preset, bs);
      && after == eq.(pregain := ToU32(pregain), preset := ToU32(preset), numBands := |bs|, bands := after.bands)
      && after.bands[i] ==
           if i in TableOf(bs) then
             var p := TableOf(bs)[i];
             Band(i, p.filter, p.freq, p.gain, p.quality)
           else eq.bands[i].(idx := -1)
  {
    AppliedBand(Cleared(eq.bands), [], bs, i);
    assert [] + bs == bs;
  }

  lemma {:induction false} AppliedBand(bands: Bands, done: seq<BandCmd>, bs: seq<BandCmd>, i: uint32)
    requires InRange(done) && InRange(bs) && i < MAX_EQ_BANDS
    requires i in TableOf(done) ==>
      var p := TableOf(done)[i];
      bands[i] == Band(i, p.filter, p.freq, p.gain, p.quality)
    ensures
      ApplyBands(bands, bs)[i] ==
        if i in TableOf(done + bs) then
          var p := TableOf(done + bs)[i];
          Band(i, p.filter, p.freq, p.gain, p.quality)
        else bands[i]
    decreases |bs|
  {
    hide ToU32;
    if bs == [] {
      assert done + bs == done;
    } else {
      var b := bs[0];
      var p := b.Value();
      assert (done + [b])[..|done|] == done;
      assert done + [b] + bs[1..] == done + bs;
      AppliedBand(bands[b.idx := Band(b.idx, p.filter, p.freq, p.gain, p.quality)], done + [b], bs[1..], i);
      if b.idx == i {
        KeysStay(done + [b], bs[1..], i);
      }
    }
  }

  lemma {:induction false} KeysStay(done: seq<BandCmd>, bs: seq<BandCmd>, i: uint32)
    requires i in TableOf(done)
    ensures i in TableOf(done + bs)
    decreases |bs|
  {
    if bs == [] {
      assert done + bs == done;
    } else {
      assert (done + bs)[..|done + bs| - 1] == done + bs[..|bs| - 1];
      KeysStay(done, bs[..|bs| - 1], i);
    }
  }

  lemma {:induction false} ConfigIsHeard(d: DspEq, f: Fold, c: Cmd)
    requires f.Ok() && Sound(c) && SetsConfig(c) && ReceiveAll(d, f.out) == Shown(f.eq)
    ensures ReceiveAll(d, Apply(f, c).out) == Shown(Apply(f, c).eq)
  {
    hide Apply, ReceiveAll, Packed, Decode, Named, WordsOf, BytesOf, ApplyBands, TableOf, Count, InRange, Sound;
    var g := Apply(f, c);
    SetCarries(f, c);
    ConfigEq(f, c);
    NamedIsTable(f.eq.bands, c.bs);
    var p := g.out[|f.out|];
    assert g.out == f.out + [p];
    ReceiveOneMore(d, f.out, p);
    var ws := WordsOf(p.data);
    assert ws[0] == ws[..CONFIG_LEN][0] && ws[1] == ws[..CONFIG_LEN][1];
  }

  lemma ConfigEq(f: Fold, c: Cmd)
    requires f.Ok() && Sound(c) && SetsConfig(c)
    ensures InRange(c.bs) && |c.bs| <= MAX_EQ_BANDS
    ensures Apply(f, c).eq == Configured(f.eq, c.pregain, c.preset, c.bs)
    ensures |Apply(f, c).out| == |f.out| + 1 && Apply(f, c).out[|f.out|].hdr.moduleId == 0x108BA
  {
    hide Packed, BytesOf, ApplyBands, Count;
  }

  lemma {:induction false} SetsAreHeard(d: DspEq, f: Fold, cs: seq<Cmd>)
    requires f.Ok() && AllSound(cs) && OnlySets(cs) && ReceiveAll(d, f.out) == Shown(f.eq)
    ensures ReceiveAll(d, ApplyAll(f, cs).out) == Shown(ApplyAll(f, cs).eq)
    decreases |cs|
  {
    hide Apply, ReceiveAll, Sound, Shown;
    if cs != [] {
      assert Sound(cs[0]);
      SetIsHeard(d, f, cs[0]);
      SetsAreHeard(d, Apply(f, cs[0]), cs[1..]);
    }
  }

  /**
    * A DSP whose equalizer is the one that the record stands for, receiving what a call with SET and foreign commands
    * sends, has that of the record again, table included.
    */
  lemma {:induction false} DspStaysInStep(iid: bool, eq: Eq, words: Words, cs: seq<Cmd>)
    requires eq.bandIndex <= MAX_EQ_BANDS && AllSound(cs) && OnlySets(cs) && Holds(words, cs) && !Outgrows(cs)
    ensures
      var h := Handled(true, true, true, iid, eq, words);
      && h.Some?
      && var (d, after) := h.value;
      if d.sent.None? then Shown(after) == Shown(eq)
      else Parse(iid, d.sent.value).Some? && ReceiveAll(Shown(eq), Parse(iid, d.sent.value).value) == Shown(after)
  {
    hide ApplyAll, Handled, Holds, Parse, Concat, Shown, Outgrows, Receive;
    HandlerIsFold(iid, true, eq, words, cs);
    SetsAreHeard(Shown(eq), Fresh(eq), cs);
    ParseInverse(iid, ApplyAll(Fresh(eq), cs).out);
  }
}
