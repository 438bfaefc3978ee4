/**
  * What a whole PBE call means: the command language with its grammar on arbitrary words, where the shared counter
  * goes, and the handler as a fold over the commands that the counter lets through.
  */
module BassEnhancerCalls {
  import opened Machine
  import opened ParamPacking
  import opened CommandStream
  import opened BassEnhancer
  import opened BassEnhancerTheorems

  // ---- The command language ----

  /** The coefficients of a configuration, filter by filter. */
  datatype Filters = Filters(
    lowPass: seq<int>, highPass: seq<int>, bandPass: seq<int>, bassShelf: seq<int>, trebleShelf: seq<int>)

  /** A command a client may write: ENABLE and configurations with any state, or a foreign command. */
  datatype Cmd =
    | Toggle(state: uint32, value: int)
    | Configure(state: uint32, size: uint32, fields: seq<int>, filters: Filters)
    | Other(id: uint32, state: uint32, offset: uint32, length: uint32)

  /** The filters, one behind the other. */
  function Coefficients(f: Filters): (run: seq<int>)
    ensures |run| == |f.lowPass| + |f.highPass| + |f.bandPass| + |f.bassShelf| + |f.trebleShelf|
  {
    f.lowPass + f.highPass + f.bandPass + f.bassShelf + f.trebleShelf
  }

  /** Ten coefficients for a third-order low or high pass and five for any other. */
  function PassLength(crossover: uint16): nat {
    if crossover == 3 then 10 else 5
  }

  /** The two passes, five coefficients for each order of band pass, and five for each shelf. */
  predicate Fits(f: Filters, crossover: uint16, bandPass: uint16) {
    && |f.lowPass| == |f.highPass| == PassLength(crossover)
    && |f.bandPass| == 5 * bandPass
    && |f.bassShelf| == |f.trebleShelf| == 5
  }

  /** The orders of a configuration ask for more coefficients than the struct has. */
  predicate TooLarge(crossover: uint16, bandPass: uint16) {
    bandPass > (if crossover == 3 then 3 else 5)
  }

  predicate Overlong(c: Cmd)
    requires c.Configure? ==> |c.fields| == SCALARS
  {
    c.Configure? && TooLarge(ToU16(c.fields[3]), ToU16(c.fields[4]))
  }

  /** A configuration that fits comes with exactly the coefficients its orders ask for. */
  predicate Sound(c: Cmd) {
    match c
    case Toggle(_, _) => true
    case Other(id, _, _, _) => id != PBE_CONFIG && id != PBE_ENABLE
    case Configure(_, size, fields, filters) =>
      && PBE_CONFIG_PARAM_LEN <= size <= CONFIG_SZ && |fields| == SCALARS
      && (!Overlong(c) ==> Fits(filters, ToU16(fields[3]), ToU16(fields[4])))
  }

  predicate AllSound(cs: seq<Cmd>) {
    forall j :: 0 <= j < |cs| ==> Sound(cs[j])
  }

  function Encode(c: Cmd): seq<int> {
    match c
    case Toggle(state, value) => [PBE_ENABLE, state, 0, 1, value]
    case Configure(state, size, fields, filters) => [PBE_CONFIG, state, 0, size] + (fields + Coefficients(filters))
    case Other(id, state, offset, length) => [id, state, offset, length]
  }

  function EncodeAll(cs: seq<Cmd>): seq<int> {
    if cs == [] then [] else Encode(cs[0]) + EncodeAll(cs[1..])
  }

  // ---- Its grammar, on arbitrary words ----

  /** `Excessive` is a configuration that passes its checks with too large an order, or is cut off before the orders. */
  datatype Reading = Fine(c: Cmd) | Unreadable | Excessive

  function Read(words: Words, pos: nat): (res: Reading)
    ensures res.Fine? ==> Sound(res.c) && !Overlong(res.c) && pos + |Encode(res.c)| <= READ_LIMIT
  {
    if pos + 4 > READ_LIMIT then Unreadable
    else
      var id, state := ToU32(words[pos]), ToU32(words[pos + 1]);
      var offset, length := ToU32(words[pos + 2]), ToU32(words[pos + 3]);
      if id == PBE_CONFIG then ReadConfiguration(words, pos, state, offset, length)
      else if id != PBE_ENABLE then Fine(Other(id, state, offset, length))
      else if length != 1 || offset != 0 || pos + 5 > READ_LIMIT then Unreadable
      else Fine(Toggle(state, words[pos + 4]))
  }

  function ReadConfiguration(words: Words, pos: nat, state: uint32, offset: uint32, length: uint32): (res: Reading)
    requires pos + 4 <= READ_LIMIT
    ensures res.Fine? ==>
      res.c.Configure? && Sound(res.c) && !Overlong(res.c) && pos + |Encode(res.c)| <= READ_LIMIT
  {
    if length < PBE_CONFIG_PARAM_LEN || length > CONFIG_SZ || offset != 0 then Unreadable
    else if pos + 9 > READ_LIMIT then Excessive
    else
      var crossover, order := ToU16(words[pos + 7]), ToU16(words[pos + 8]);
      if TooLarge(crossover, order) then Excessive
      else if pos + 38 + 2 * PassLength(crossover) + 5 * order > READ_LIMIT then Unreadable
      else Fine(Configure(state, length, words[pos + 4..pos + 28], FiltersFrom(words, pos + 28, crossover, order)))
  }

  lemma Joined(words: Words, low: nat, high: nat, band: nat, bass: nat)
    requires low <= high <= band <= bass && bass + 10 <= READ_LIMIT
    ensures
      words[low..high] + words[high..band] + words[band..bass] + words[bass..bass + 5] + words[bass + 5..bass + 10]
      == words[low..bass + 10]
  {
  }

  /** The filters of these orders whose coefficients begin at `low`. */
  function FiltersFrom(words: Words, low: nat, crossover: uint16, bandPass: uint16): (f: Filters)
    requires low + 2 * PassLength(crossover) + 5 * bandPass + 10 <= READ_LIMIT
    ensures Fits(f, crossover, bandPass)
    ensures Coefficients(f) == words[low..low + |Coefficients(f)|]
  {
    var high := low + PassLength(crossover);
    var band := high + PassLength(crossover);
    var bass := band + 5 * bandPass;
    Joined(words, low, high, band, bass);
    Filters(words[low..high], words[high..band], words[band..bass], words[bass..bass + 5], words[bass + 5..bass + 10])
  }

  lemma {:induction false} ReadInverse(words: Words, pos: nat, c: Cmd)
    requires Sound(c) && At(words, pos, Encode(c))
    ensures Read(words, pos) == if Overlong(c) then Excessive else Fine(c)
  {
    hide At, ReadConfiguration, Coefficients;
    HeadAt(words, pos, Encode(c));
    match c
    case Toggle(_, _) => AtElement(words, pos, Encode(c), 4);
    case Other(_, _, _, _) =>
    case Configure(_, _, _, _) => ConfigInverse(words, pos, c);
  }

  lemma {:induction false} ConfigInverse(words: Words, pos: nat, c: Cmd)
    requires Sound(c) && c.Configure? && At(words, pos, Encode(c))
    ensures pos + 4 <= READ_LIMIT
    ensures ReadConfiguration(words, pos, c.state, 0, c.size) == if Overlong(c) then Excessive else Fine(c)
  {
    hide At, Coefficients, FiltersFrom;
    AtSplit(words, pos, [PBE_CONFIG, c.state, 0, c.size], c.fields + Coefficients(c.filters));
    AtSplit(words, pos + 4, c.fields, Coefficients(c.filters));
    AtElement(words, pos + 4, c.fields, 3);
    AtElement(words, pos + 4, c.fields, 4);
    Slice(words, pos + 4, c.fields);
    if !Overlong(c) {
      FiltersAt(words, pos + 28, c.filters, ToU16(c.fields[3]), ToU16(c.fields[4]));
    }
  }

  lemma Slice(words: Words, pos: nat, part: seq<int>)
    requires At(words, pos, part)
    ensures pos + |part| <= READ_LIMIT && words[pos..pos + |part|] == part
  {
  }

  lemma FiltersAt(words: Words, low: nat, f: Filters, crossover: uint16, bandPass: uint16)
    requires Fits(f, crossover, bandPass) && At(words, low, Coefficients(f))
    ensures low + |Coefficients(f)| <= READ_LIMIT && FiltersFrom(words, low, crossover, bandPass) == f
  {
    hide At;
    var three := f.lowPass + f.highPass + f.bandPass;
    AtSplit(words, low, three + f.bassShelf, f.trebleShelf);
    AtSplit(words, low, three, f.bassShelf);
    AtSplit(words, low, f.lowPass + f.highPass, f.bandPass);
    AtSplit(words, low, f.lowPass, f.highPass);
    Slice(words, low, f.lowPass);
    Slice(words, low + |f.lowPass|, f.highPass);
    Slice(words, low + |f.lowPass + f.highPass|, f.bandPass);
    Slice(words, low + |three|, f.bassShelf);
    Slice(words, low + |three + f.bassShelf|, f.trebleShelf);
  }

  // ---- A configuration is read to its last word ----

  lemma {:induction false} ReadRunAt(words: Words, pos: nat, n: nat)
    requires pos + n <= READ_LIMIT
    ensures ReadRun(words, Reader(pos, 0), n) == (words[pos..pos + n], Reader(pos + n, 0))
    decreases n
  {
    if n == 0 {
      assert words[pos..pos] == [];
    } else {
      ReadRunAt(words, pos + 1, n - 1);
      assert words[pos..pos + n] == [words[pos]] + words[pos + 1..pos + n];
    }
  }

  /** Where the words of a configuration lie. */
  lemma {:induction false} ConfigParts(words: Words, pos: nat, c: Cmd)
    requires Read(words, pos) == Fine(c) && c.Configure?
    ensures Sound(c) && !Overlong(c) && pos + 28 + |Coefficients(c.filters)| <= READ_LIMIT
    ensures GetCommand(words, Reader(pos, 0)) == (Command(PBE_CONFIG, c.state, 0, c.size), Reader(pos + 4, 0))
    ensures c.fields == words[pos + 4..pos + 28]
    ensures Coefficients(c.filters) == words[pos + 28..pos + 28 + |Coefficients(c.filters)|]
  {
    hide GetCommand, FiltersFrom, Coefficients;
    HeaderIsRead(words, pos);
  }

  /**
    * A configuration written as 24 fields and five filters is read to the last word of the last filter: the fields are
    * stored one by one, the four times in 32 bits and the others in 16; the filters one behind the other over the front
    * of the old coefficients; and the counter stands at their total length.
    */
  lemma {:induction false} ConfigIsRead(words: Words, pos: nat, pbe: Pbe, i: int, c: Cmd)
    requires Read(words, pos) == Fine(c) && c.Configure?
    ensures
      var (command, r) := GetCommand(words, Reader(pos, 0));
      var e := Interpret(words, command, r, pbe, i);
      var f := c.filters;
      var run := f.lowPass + f.highPass + f.bandPass + f.bassShelf + f.trebleShelf;
      && e.Pack? && e.r == Reader(pos + 28 + |run|, 0) && e.i == |run| <= COEFFS
      && e.pbe.enable == pbe.enable
      && (forall k :: 0 <= k < SCALARS ==>
            e.pbe.scalars[k] == if 12 <= k < 16 then ToU32(c.fields[k]) else ToU16(c.fields[k]))
      && e.pbe.coeffs == ToU32s(run) + pbe.coeffs[|run|..]
      && e.chosen == (if c.state == CONFIG_SET then Some(Config(c.size)) else None)
  {
    hide GetCommand, GetNext, ReadRun, Read;
    var run := Coefficients(c.filters);
    ConfigParts(words, pos, c);
    ReadRunAt(words, pos + 4, SCALARS);
    ReadRunAt(words, pos + 28, |run|);
  }

  // ---- Commands that cannot be read ----

  /** The records differ in nothing but what a command with this id stores. */
  predicate SameBut(id: int, a: Pbe, b: Pbe) {
    if id == PBE_ENABLE then a.(enable := b.enable) == b
    else if id == PBE_CONFIG then a.(scalars := b.scalars, coeffs := b.coeffs) == b
    else a == b
  }

  /** A length or offset that no command with this id has. */
  predicate BadHeader(words: Words, pos: nat) {
    && pos + 4 <= READ_LIMIT
    && var id, offset, length := ToU32(words[pos]), ToU32(words[pos + 2]), ToU32(words[pos + 3]);
    || (id == PBE_ENABLE && (length != 1 || offset != 0))
    || (id == PBE_CONFIG && (length < PBE_CONFIG_PARAM_LEN || length > CONFIG_SZ || offset != 0))
  }

  /** What an unreadable command leaves of the record; one with a bad header touches nothing. */
  predicate Spared(words: Words, pos: nat, before: Pbe, after: Pbe) {
    if BadHeader(words, pos) || pos >= READ_LIMIT then after == before else SameBut(ToU32(words[pos]), before, after)
  }

  lemma SparedIsReflexive(words: Words, pos: nat, pbe: Pbe)
    ensures Spared(words, pos, pbe, pbe)
  {
  }

  /** Of the words that spell no command: too large an order leaves the struct, and anything else is an error. */
  lemma {:induction false} UnreadableIsRefused(words: Words, pos: nat, pbe: Pbe, i: int)
    requires !Read(words, pos).Fine? && pos <= READ_LIMIT
    ensures
      var (c, r) := GetCommand(words, Reader(pos, 0));
      if Read(words, pos).Excessive? then LeavesStruct(words, c, r)
      else
        match Interpret(words, c, r, pbe, i)
        case Overrun => false
        case Skip(r', after) => r'.rc == -EINVAL && Spared(words, pos, pbe, after)
        case Fault(_, after) => Spared(words, pos, pbe, after)
        case Pack(r', after, _, _) => r'.rc == -EINVAL && Spared(words, pos, pbe, after)
  {
    hide ReadRun;
    var (c, r) := GetCommand(words, Reader(pos, 0));
    OverrunIff(words, c, r, pbe, i);
    if pos + 4 <= READ_LIMIT {
      HeaderIsRead(words, pos);
      ReadRunCode(words, r, SCALARS);
      if c.id == PBE_CONFIG && PBE_CONFIG_PARAM_LEN <= c.length <= CONFIG_SZ && c.offset == 0 {
        var (vs, r1) := ReadRun(words, r, SCALARS);
        RunWords(words, r, SCALARS, 3);
        RunWords(words, r, SCALARS, 4);
        ReadRunCode(words, r1, RunLength(ToScalars(vs)));
      }
    }
  }

  lemma {:induction false} ReadRunCode(words: Words, r: Reader, n: nat)
    requires r.rc == 0 || r.rc == -EINVAL
    ensures ReadRun(words, r, n).1.rc in {0, -EINVAL}
    decreases n
  {
    if n > 0 {
      var (v, r1) := GetNext(words, r);
      ReadRunCode(words, r1, n - 1);
    }
  }

  /** After a read error nothing is read, stored or packed any more. */
  lemma {:induction false} ErrorIsFinal(iid: bool, words: Words, n: int, i: int, s: State)
    requires s.Ok() && s.r.rc == -EINVAL
    ensures Run(iid, words, n, i, s) == Ended(s)
    decreases n - i
  {
    if i < n {
      ErrorStays(words, s.r);
      ErrorIsFinal(iid, words, n, i + 1, s);
    }
  }

  // ---- What a command means, and where it leaves the counter ----

  datatype Fold = Fold(pbe: Pbe, target: Target, out: seq<Packet>) {
    predicate Ok() {
      AllFit(out) && (target.Config? ==> target.length <= CONFIG_SZ)
    }
  }

  /** The record with the fields and coefficients of a configuration. */
  function Configured(pbe: Pbe, c: Cmd): Pbe
    requires Sound(c) && c.Configure? && !Overlong(c)
  {
    var run := Coefficients(c.filters);
    Pbe(pbe.enable, ToScalars(c.fields), ToU32s(run) + pbe.coeffs[|run|..])
  }

  /**
    * The meaning of one command: ENABLE speaks only on a change; a configuration always does, under an earlier header
    * unless it is SET.
    */
  function Apply(f: Fold, c: Cmd): (g: Fold)
    requires f.Ok() && Sound(c) && !Overlong(c)
    ensures g.Ok()
  {
    match c
    case Other(_, _, _, _) => f
    case Toggle(_, value) =>
      if ToU32(value) == f.pbe.enable then f else Announce(f.(pbe := f.pbe.(enable := ToU32(value)), target := Enable))
    case Configure(state, size, _, _) =>
      Announce(f.(pbe := Configured(f.pbe, c), target := if state == CONFIG_SET then Config(size) else f.target))
  }

  /** One more packet, of what the target stands for now. */
  function Announce(f: Fold): (g: Fold)
    requires f.Ok()
    ensures g.Ok()
  {
    var data := match f.target
                case Nothing => []
                case Enable => Le32(f.pbe.enable)
                case Config(length) => ConfigBytes(f.pbe.scalars, f.pbe.coeffs)[..length];
    f.(out := f.out + [Packet(HeaderOf(f.target), data)])
  }

  /** Where the loop's counter stands after a command. */
  function Next(i: nat, c: Cmd): nat {
    if c.Configure? then |Coefficients(c.filters)| + 1 else i + 1
  }

  /** A turn does what the command at the reader says, or leaves the struct, or ends in an error. */
  lemma {:induction false} StepReads(iid: bool, words: Words, i: nat, s: State)
    requires Paid(iid, s) && s.r.rc == 0
    ensures
      var v := Step(iid, words, s, i);
      match Read(words, s.r.pos)
      case Excessive => v == Broken
      case Unreadable => !v.Broken? && v.s.r.rc == -EINVAL && Spared(words, s.r.pos, s.pbe, v.s.pbe)
      case Fine(c) =>
        var f := Apply(Fold(s.pbe, s.target, s.out), c);
        v == Continue(State(Reader(s.r.pos + |Encode(c)|, 0), f.pbe, f.target, f.out), Next(i, c))
  {
    hide GetCommand, Interpret, ConfigBytes, Concat, LeavesStruct, Spared, Read, RunLength;
    StepPaid(iid, words, s, i);
    var (command, r) := GetCommand(words, s.r);
    match Read(words, s.r.pos)
    case Fine(c) => FineStep(iid, words, i, s, c);
    case _ =>
      UnreadableIsRefused(words, s.r.pos, s.pbe, i);
      SparedIsReflexive(words, s.r.pos, s.pbe);
  }

  lemma {:induction false} PlainIsRead(words: Words, pos: nat, pbe: Pbe, i: int, c: Cmd)
    requires Read(words, pos) == Fine(c) && !c.Configure?
    ensures
      var (command, r) := GetCommand(words, Reader(pos, 0));
      var end := Reader(pos + |Encode(c)|, 0);
      Interpret(words, command, r, pbe, i) ==
        if c.Other? || ToU32(c.value) == pbe.enable then Skip(end, pbe)
        else Pack(end, pbe.(enable := ToU32(c.value)), Some(Enable), i)
  {
    hide GetCommand, ReadConfiguration, ReadConfig;
    HeaderIsRead(words, pos);
  }

  lemma {:induction false} FineStep(iid: bool, words: Words, i: nat, s: State, c: Cmd)
    requires Paid(iid, s) && s.r.rc == 0 && Read(words, s.r.pos) == Fine(c)
    ensures
      var f := Apply(Fold(s.pbe, s.target, s.out), c);
      Step(iid, words, s, i)
      == Continue(State(Reader(s.r.pos + |Encode(c)|, 0), f.pbe, f.target, f.out), Next(i, c))
  {
    hide GetCommand, ConfigBytes, Concat, Interpret, Read, HeaderOf;
    var (command, r) := GetCommand(words, s.r);
    if c.Configure? {
      ConfigIsRead(words, s.r.pos, s.pbe, i, c);
      assert Interpret(words, command, r, s.pbe, i).pbe == Configured(s.pbe, c);
    } else {
      PlainIsRead(words, s.r.pos, s.pbe, i, c);
    }
  }

  /** How the loop ends: at the count, at a configuration that leaves the struct, or at a command it cannot read. */
  datatype Ending = Finished(f: Fold) | LeftStruct | Failed(end: nat, f: Fold)

  /** The whole loop as a walk over the words, with the counter that it shares. */
  function Walk(words: Words, n: int, pos: nat, i: nat, f: Fold): (e: Ending)
    requires f.Ok() && pos <= READ_LIMIT
    ensures e.Finished? ==> e.f.Ok()
    decreases READ_LIMIT - pos
  {
    if i >= n then Finished(f)
    else
      match Read(words, pos)
      case Excessive => LeftStruct
      case Unreadable => Failed(pos, f)
      case Fine(c) => Walk(words, n, pos + |Encode(c)|, Next(i, c), Apply(f, c))
  }

  lemma {:induction false} RunWalks(iid: bool, words: Words, n: int, i: nat, s: State)
    requires Paid(iid, s) && s.r.rc == 0
    ensures
      var e := Run(iid, words, n, i, s);
      match Walk(words, n, s.r.pos, i, Fold(s.pbe, s.target, s.out))
      case LeftStruct => e == Undefined
      case Failed(end, f) => e.Ended? && e.s.r.rc == -EINVAL && Spared(words, end, f.pbe, e.s.pbe)
      case Finished(f) => e.Ended? && e.s.r.rc == 0 && e.s.pbe == f.pbe && e.s.out == f.out
    decreases READ_LIMIT - s.r.pos
  {
    hide Step, Apply, Encode, Read, Spared, Next;
    if i < n {
      StepReads(iid, words, i, s);
      StepPaid(iid, words, s, i);
      var v := Step(iid, words, s, i);
      match Read(words, s.r.pos)
      case Excessive =>
      case Unreadable =>
        if v.Continue? {
          ErrorIsFinal(iid, words, n, v.i, v.s);
        }
      case Fine(c) =>
        assert |Encode(c)| >= 4 by { EncodedHead(c); }
        RunWalks(iid, words, n, v.i, v.s);
    }
  }

  lemma EncodedHead(c: Cmd)
    ensures |Encode(c)| >= 4
  {
  }

  /** What a call comes to, by the way its loop ends. */
  predicate ComesTo(iid: bool, words: Words, h: Option<(Delivery, Pbe)>, e: Ending)
    requires e.Finished? ==> e.f.Ok()
  {
    match e
    case LeftStruct => h == None
    case Failed(end, f) => h.Some? && h.value.0 == Delivery(-EINVAL, None) && Spared(words, end, f.pbe, h.value.1)
    case Finished(f) => h == Some((Delivery(0, if f.out == [] then None else Some(Concat(iid, f.out))), f.pbe))
  }

  /**
    * Every call, on every word array: without a client, with an error value for the device or the count, or
    * without memory for its buffer it fails at once. Otherwise it walks the words: it leaves its struct exactly
    * if it comes to a configuration with too large an order, fails and sends nothing exactly if it comes to a
    * command it cannot read, and is else the left fold over the commands it comes to, in record and packets.
    */
  lemma {:induction false} HandlerReadsAll(client: bool, memory: bool, iid: bool, pbe: Pbe, words: Words)
    ensures
      var h := Handled(client, memory, iid, pbe, words);
      if !client || ToS32(words[0]) == -EINVAL || ToS32(words[1]) == -EINVAL then
        h == Some((Delivery(-EINVAL, None), pbe))
      else if !memory then
        h == Some((Delivery(-ENOMEM, None), pbe))
      else
        ComesTo(iid, words, h, Walk(words, ToS32(words[1]), 2, 0, Fold(pbe, Nothing, [])))
  {
    hide Run, Walk, Spared;
    var p := Open(words, client, memory);
    if p.Accepted? {
      RunWalks(iid, words, p.numCommands, 0, State(Reader(2, 0), pbe, Nothing, []));
    }
  }

  // ---- Lists of commands ----

  /**
    * How the loop gets through a list of commands: to the count, to an overlong configuration, or past the
    * last of them with the counter at `i`, still short of the count.
    */
  datatype Way = Counted(f: Fold) | Overran | RanOut(i: nat, f: Fold)

  function Through(n: int, i: nat, f: Fold, cs: seq<Cmd>): (way: Way)
    requires f.Ok() && AllSound(cs)
    ensures (way.Counted? || way.RanOut? ==> way.f.Ok()) && (way.RanOut? ==> way.i < n)
    decreases |cs|
  {
    if i >= n then Counted(f)
    else if cs == [] then RanOut(i, f)
    else if Overlong(cs[0]) then Overran
    else Through(n, Next(i, cs[0]), Apply(f, cs[0]), cs[1..])
  }

  lemma {:induction false} WalkGoesThrough(words: Words, n: int, pos: nat, i: nat, f: Fold, cs: seq<Cmd>)
    requires f.Ok() && AllSound(cs) && At(words, pos, EncodeAll(cs))
    ensures
      var e := Walk(words, n, pos, i, f);
      match Through(n, i, f, cs)
      case RanOut(j, g) => e == Walk(words, n, pos + |EncodeAll(cs)|, j, g)
      case Overran => e == LeftStruct
      case Counted(g) => e == Finished(g)
    decreases |cs|
  {
    hide Apply, Encode, At, Next, Read, TooLarge, Fits;
    Within(words, pos, cs);
    if i < n && cs != [] {
      AtSplit(words, pos, Encode(cs[0]), EncodeAll(cs[1..]));
      assert Sound(cs[0]);
      ReadInverse(words, pos, cs[0]);
      if !Overlong(cs[0]) {
        WalkGoesThrough(words, n, pos + |Encode(cs[0])|, Next(i, cs[0]), Apply(f, cs[0]), cs[1..]);
      }
    }
  }

  lemma Within(words: Words, pos: nat, cs: seq<Cmd>)
    requires At(words, pos, EncodeAll(cs))
    ensures pos + |EncodeAll(cs)| <= READ_LIMIT
  {
  }

  /**
    * For every list of commands the array holds and every announced count: if an overlong configuration is reached the
    * call leaves its struct; if the counter reaches the count, the call is the left fold over the commands up to there,
    * which leaves out those that a configuration's coefficients have counted off; and if the list ends first, the call
    * goes on behind the list, in the fold's state and with the counter the commands have reached.
    */
  lemma {:induction false} HandlerIsFold(iid: bool, pbe: Pbe, words: Words, n: int, cs: seq<Cmd>)
    requires AllSound(cs) && ToS32(words[0]) != -EINVAL && ToS32(words[1]) == n != -EINVAL
    requires At(words, 2, EncodeAll(cs))
    ensures
      var h := Handled(true, true, iid, pbe, words);
      match Through(n, 0, Fold(pbe, Nothing, []), cs)
      case RanOut(i, f) => ComesTo(iid, words, h, Walk(words, n, 2 + |EncodeAll(cs)|, i, f))
      case Overran => h == None
      case Counted(f) =>
        && AllFit(f.out)
        && h == Some((Delivery(0, if f.out == [] then None else Some(Concat(iid, f.out))), f.pbe))
  {
    hide Walk, Through, EncodeAll, Handled, Spared;
    HandlerReadsAll(true, true, iid, pbe, words);
    WalkGoesThrough(words, n, 2, 0, Fold(pbe, Nothing, []), cs);
  }

  /**
    * Wherever the command counter stood, a processed configuration leaves it at the total length of its filters: the
    * loop goes on past it only if the stream announced more commands than that length plus one.
    */
  lemma {:induction false} ConfigResetsCounter(words: Words, n: int, pos: nat, i: nat, f: Fold, c: Cmd)
    requires f.Ok() && i < n && Sound(c) && c.Configure? && !Overlong(c) && At(words, pos, Encode(c))
    ensures
      var g := Apply(f, c);
      var counter := |c.filters.lowPass| + |c.filters.highPass| + |c.filters.bandPass| + 11;
      && pos + |Encode(c)| <= READ_LIMIT
      && Walk(words, n, pos, i, f) == if n > counter then Walk(words, n, pos + |Encode(c)|, counter, g) else Finished(g)
  {
    hide Apply, Read;
    ReadInverse(words, pos, c);
  }

  /** Up to its coefficient count plus one announced commands, a leading configuration is all that is carried out. */
  lemma CommandsBehindAreSkipped(n: int, f: Fold, c: Cmd, rest: seq<Cmd>)
    requires f.Ok() && AllSound([c] + rest) && c.Configure? && Sound(c) && !Overlong(c)
    requires 0 < n <= |Coefficients(c.filters)| + 1
    ensures Through(n, 0, f, [c] + rest) == Counted(Apply(f, c)) && |Coefficients(c.filters)| >= 20
  {
    hide Apply, Overlong;
    assert ([c] + rest)[0] == c && ([c] + rest)[1..] == rest;
  }

  // ---- The DSP's side ----

  /** The enhancer's parameters at the DSP, which takes the fields and coefficients from a whole configuration. */
  datatype DspPbe = DspPbe(enable: uint32, scalars: seq<uint32>, coeffs: seq<uint32>)

  function Receive(d: DspPbe, p: Packet): DspPbe {
    if p.hdr.moduleId != 0x10C2A then d
    else if p.hdr.paramId == 0x10C2B && |p.data| == WORD_SZ then d.(enable := FromLe32(p.data))
    else if p.hdr.paramId == 0x10C49 && |p.data| == CONFIG_SZ then
      var (scalars, coeffs) := DecodeConfig(p.data);
      d.(scalars := scalars, coeffs := coeffs)
    else d
  }

  function ReceiveAll(d: DspPbe, ps: seq<Packet>): DspPbe
    decreases |ps|
  {
    if ps == [] then d else Receive(ReceiveAll(d, ps[..|ps| - 1]), ps[|ps| - 1])
  }

  function Shown(pbe: Pbe): DspPbe {
    DspPbe(pbe.enable, pbe.scalars, pbe.coeffs)
  }

  /** Foreign commands, ENABLE, and SET configurations that send the whole struct. */
  predicate SendsWhole(c: Cmd) {
    c.Configure? ==> c.state == CONFIG_SET && c.size == CONFIG_SZ
  }

  lemma ReceiveOneMore(d: DspPbe, ps: seq<Packet>, p: Packet)
    ensures ReceiveAll(d, ps + [p]) == Receive(ReceiveAll(d, ps), p)
  {
    hide Receive;
    assert (ps + [p])[..|ps|] == ps;
  }

  lemma EnableIsHeard(d: DspPbe, x: uint32)
    ensures Receive(d, Packet(HeaderOf(Enable), Le32(x))) == d.(enable := x)
  {
    hide Le32, FromLe32, DecodeConfig;
    Le32Inverse(x);
  }

  lemma ConfigIsHeard(d: DspPbe, scalars: ScalarFields, coeffs: CoeffFields)
    ensures Receive(d, Packet(HeaderOf(Config(CONFIG_SZ)), ConfigBytes(scalars, coeffs)))
         == d.(scalars := scalars, coeffs := coeffs)
  {
    hide ConfigBytes, DecodeConfig, FromLe32;
    ConfigImageIsFaithful(scalars, coeffs);
  }

  lemma {:induction false} SetIsHeard(d: DspPbe, f: Fold, c: Cmd)
    requires f.Ok() && Sound(c) && !Overlong(c) && SendsWhole(c) && ReceiveAll(d, f.out) == Shown(f.pbe)
    ensures ReceiveAll(d, Apply(f, c).out) == Shown(Apply(f, c).pbe)
  {
    hide Le32, ConfigBytes, HeaderOf, Receive, ReceiveAll, Fits, TooLarge, ToScalars, Coefficients;
    var g := Apply(f, c);
    match c
    case Other(_, _, _, _) =>
    case Toggle(_, _) =>
      if g != f {
        ReceiveOneMore(d, f.out, g.out[|f.out|]);
        EnableIsHeard(Shown(f.pbe), g.pbe.enable);
      }
    case Configure(_, _, _, _) =>
      var image := ConfigBytes(g.pbe.scalars, g.pbe.coeffs);
      assert image[..CONFIG_SZ] == image;
      ReceiveOneMore(d, f.out, g.out[|f.out|]);
      ConfigIsHeard(Shown(f.pbe), g.pbe.scalars, g.pbe.coeffs);
  }

  /** What a configuration that is not SET sends before any choice: a bare header of the module. */
  lemma NothingChosen(f: Fold)
    requires f.Ok() && f.target == Nothing
    ensures Announce(f).out == f.out + [Packet(Header(0x10C2A, 0, 0, 0), [])]
  {
  }

  lemma {:induction false} SetsAreHeard(d: DspPbe, n: int, i: nat, f: Fold, cs: seq<Cmd>)
    requires f.Ok() && AllSound(cs) && (forall j :: 0 <= j < |cs| ==> SendsWhole(cs[j]))
    requires ReceiveAll(d, f.out) == Shown(f.pbe)
    ensures
      var way := Through(n, i, f, cs);
      way.Counted? ==> ReceiveAll(d, way.f.out) == Shown(way.f.pbe)
    decreases |cs|
  {
    hide Apply, ReceiveAll, Shown, Next, SendsWhole, TooLarge, Fits;
    if i < n && cs != [] && !Overlong(cs[0]) {
      SetIsHeard(d, f, cs[0]);
      SetsAreHeard(d, n, Next(i, cs[0]), Apply(f, cs[0]), cs[1..]);
    }
  }

  /**
    * A DSP whose parameters are those of the record, receiving what a call with such commands sends, has those of the
    * record again, if the counter reaches the count within them.
    */
  lemma {:induction false} DspStaysInStep(iid: bool, pbe: Pbe, words: Words, n: int, cs: seq<Cmd>)
    requires AllSound(cs) && ToS32(words[0]) != -EINVAL && ToS32(words[1]) == n != -EINVAL
    requires At(words, 2, EncodeAll(cs)) && forall j :: 0 <= j < |cs| ==> SendsWhole(cs[j])
    requires Through(n, 0, Fold(pbe, Nothing, []), cs).Counted?
    ensures
      var h := Handled(true, true, iid, pbe, words);
      && h.Some?
      && var (d, after) := h.value;
      if d.sent.None? then after == pbe
      else Parse(iid, d.sent.value).Some? && ReceiveAll(Shown(pbe), Parse(iid, d.sent.value).value) == Shown(after)
  {
    hide Through, Handled, Parse, Concat, EncodeAll, Receive, SendsWhole, At;
    HandlerIsFold(iid, pbe, words, n, cs);
    SetsAreHeard(Shown(pbe), n, 0, Fold(pbe, Nothing, []), cs);
    ParseInverse(iid, Through(n, 0, Fold(pbe, Nothing, []), cs).f.out);
  }
}
