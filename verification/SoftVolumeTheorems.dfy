/** Properties of every soft-volume call. */
module SoftVolumeTheorems {
  import opened Machine
  import opened ParamPacking
  import opened CommandStream
  import opened SoftVolume

  // ---- The word of two gains ----

  predicate Bit(x: nat, k: nat) {
    if k == 0 then x % 2 == 1 else Bit(x / 2, k - 1)
  }

  lemma {:induction false} ZeroHasNoBits(k: nat)
    ensures !Bit(0, k)
  {
    if k > 0 {
      ZeroHasNoBits(k - 1);
    }
  }

  lemma {:induction false} OrBits(a: nat, b: nat, k: nat)
    ensures Bit(BitOr(a, b), k) <==> Bit(a, k) || Bit(b, k)
    decreases k
  {
    ZeroHasNoBits(k);
    if a != 0 && b != 0 {
      var c := 2 * BitOr(a / 2, b / 2) + (if a % 2 == 1 || b % 2 == 1 then 1 else 0);
      if k > 0 {
        assert c / 2 == BitOr(a / 2, b / 2);
        OrBits(a / 2, b / 2, k - 1);
      }
    }
  }

  lemma {:induction false} ShiftedBits(x: nat, n: nat, k: nat)
    ensures Bit(x * Pow2(n), k) <==> k >= n && Bit(x, k - n)
    decreases k + n
  {
    if n > 0 {
      var y := x * Pow2(n - 1);
      assert x * Pow2(n) == 2 * y;
      if k > 0 {
        assert 2 * y / 2 == y;
        ShiftedBits(x, n - 1, k - 1);
      }
    }
  }

  /** Bit k of the word is bit k of the right gain or bit k - 16 of the left one, whose upper half is lost. */
  lemma WordBits(left: uint32, right: uint32, k: nat)
    requires k < 32
    ensures Bit(GainWord(left, right), k) <==> Bit(right, k) || (k >= 16 && Bit(left % 0x1_0000, k - 16))
  {
    hide BitOr, Pow2, Bit;
    Pow2OfWidths();
    OrBits(left % 0x1_0000 * 0x1_0000, right, k);
    ShiftedBits(left % 0x1_0000, 16, k);
  }

  // ---- What the DSP hears ----

  /** The two volume modules of the DSP; a header for any other instance names none. */
  function DspModule(instance: int): uint32 {
    match instance
    case 1 => 0x10BFE
    case 2 => 0x10910
    case _ => 0
  }

  /** The DSP's side: apply the packets for a module to whatever volume it had. */
  function Replay(moduleId: uint32, v: Volume, ps: seq<Packet>): Volume
    requires AllGains(ps)
  {
    if ps == [] then v
    else
      var before := Replay(moduleId, v, ps[..|ps| - 1]);
      var p := ps[|ps| - 1];
      var word := FromLe32(p.data);
      if p.hdr.moduleId != moduleId then before
      else if p.hdr.paramId == 0x10C00 then Volume(word / 0x1_0000, word % 0x1_0000, before.master)
      else if p.hdr.paramId == 0x10BFF then Volume(before.left, before.right, word)
      else before
  }

  lemma ReplayPair(moduleId: uint32, v: Volume, ps: seq<Packet>, vol: Volume)
    requires AllGains(ps)
    ensures AllGains(ps + [LrPacket(moduleId, vol), MasterPacket(moduleId, vol)])
    ensures Replay(moduleId, v, ps + [LrPacket(moduleId, vol), MasterPacket(moduleId, vol)]) == Audible(vol)
  {
    var lr := ps + [LrPacket(moduleId, vol)];
    var both := ps + [LrPacket(moduleId, vol), MasterPacket(moduleId, vol)];
    Le32Inverse(GainWord(vol.left, vol.right));
    Le32Inverse(vol.master);
    assert both[..|both| - 1] == lr && lr[..|lr| - 1] == ps;
  }

  /** While no error is recorded the DSP, replaying so far, hears the record, and one side of it is at unity. */
  predicate InStep(moduleId: uint32, dsp: Volume, initial: Volume, s: State)
    requires AllGains(s.out)
  {
    if s.out == [] then s.vol == initial
    else
      && Replay(moduleId, dsp, s.out) == Audible(s.vol)
      && (s.vol.master == UNITY || (s.vol.left == UNITY && s.vol.right == UNITY))
  }

  lemma {:induction false} StepKeepsInStep(
      iid: bool, moduleId: uint32, words: Words, dsp: Volume, initial: Volume, s: State)
    requires AllGains(s.out) && (s.r.rc == 0 ==> InStep(moduleId, dsp, initial, s))
    ensures var t := Step(iid, moduleId, words, s).s;
            && (s.r.rc != 0 ==> t.r.rc != 0) && (t.r.rc == 0 ==> InStep(moduleId, dsp, initial, t))
            && (Step(iid, moduleId, words, s).Leave? ==> t.r.rc != 0)
            && (s.Paid() ==> t.Paid())
  {
    var t := Step(iid, moduleId, words, s).s;
    if t.out != s.out {
      ReplayPair(moduleId, dsp, s.out, t.vol);
    }
  }

  lemma {:induction false} RunKeepsInStep(iid: bool, moduleId: uint32, words: Words, n: int, i: int,
                                          dsp: Volume, initial: Volume, s: State)
    requires AllGains(s.out) && s.Paid() && (s.r.rc == 0 ==> InStep(moduleId, dsp, initial, s))
    ensures var t := Run(iid, moduleId, words, n, i, s);
            t.Paid() && (s.r.rc != 0 ==> t.r.rc != 0) && (t.r.rc == 0 ==> InStep(moduleId, dsp, initial, t))
    decreases n - i
  {
    if i < n {
      StepKeepsInStep(iid, moduleId, words, dsp, initial, s);
      match Step(iid, moduleId, words, s)
      case Leave(t) =>
      case Continue(t) => RunKeepsInStep(iid, moduleId, words, n, i + 1, dsp, initial, t);
    }
  }

  /** An error once recorded survives to the end, and then nothing is delivered. */
  lemma {:induction false} ErrorNeverLost(iid: bool, moduleId: uint32, words: Words, n: int, i: int, s: State)
    requires AllGains(s.out) && s.r.rc != 0
    ensures Run(iid, moduleId, words, n, i, s).r.rc != 0
    ensures Finish(iid, Run(iid, moduleId, words, n, i, s)).sent == None
    decreases n - i
  {
    if i < n {
      match Step(iid, moduleId, words, s)
      case Leave(t) =>
      case Continue(t) => ErrorNeverLost(iid, moduleId, words, n, i + 1, t);
    }
  }

  // ---- The command language ----

  /** A command a client may write, with any state, or a foreign one. */
  datatype Cmd =
    | Channels(id: uint32, state: uint32, left: int, right: int)
    | Master(id: uint32, state: uint32, gain: int)
    | Other(id: uint32, state: uint32, offset: uint32, length: uint32)

  predicate Sound(c: Cmd) {
    match c
    case Channels(id, _, _, _) => id in GAIN_2CH
    case Master(id, _, _) => id in GAIN_MASTER
    case Other(id, _, _, _) => id !in GAIN_2CH && id !in GAIN_MASTER
  }

  function Encode(c: Cmd): seq<int> {
    match c
    case Channels(id, state, left, right) => [id, state, 0, 2, left, right]
    case Master(id, state, gain) => [id, state, 0, 1, gain]
    case Other(id, state, offset, length) => [id, state, offset, length]
  }

  function EncodeAll(cs: seq<Cmd>): seq<int> {
    if cs == [] then [] else Encode(cs[0]) + EncodeAll(cs[1..])
  }

  /** The volume an own command asks for: all of it, whatever was there before. */
  function VolumeOf(c: Cmd): Volume
    requires !c.Other?
  {
    match c
    case Channels(_, _, left, right) => Volume(ToU32(left), ToU32(right), UNITY)
    case Master(_, _, gain) => Volume(UNITY, UNITY, ToU32(gain))
  }

  /** The own commands of a list, in order. */
  function Own(cs: seq<Cmd>): (own: seq<Cmd>)
    ensures forall k :: 0 <= k < |own| ==> !own[k].Other?
  {
    if cs == [] then [] else (if cs[0].Other? then [] else [cs[0]]) + Own(cs[1..])
  }

  /** The pair of packets of each own command. */
  function Pairs(moduleId: uint32, own: seq<Cmd>): (ps: seq<Packet>)
    requires forall k :: 0 <= k < |own| ==> !own[k].Other?
    ensures AllGains(ps) && |ps| == 2 * |own|
    decreases |own|
  {
    if own == [] then []
    else
      var v := VolumeOf(own[|own| - 1]);
      Pairs(moduleId, own[..|own| - 1]) + [LrPacket(moduleId, v), MasterPacket(moduleId, v)]
  }

  /** What a list of commands leaves: the volume of the last own command. */
  function Final(vol: Volume, own: seq<Cmd>): Volume
    requires forall k :: 0 <= k < |own| ==> !own[k].Other?
  {
    if own == [] then vol else VolumeOf(own[|own| - 1])
  }

  // ---- Its grammar, on arbitrary words ----

  /** The command that lies at `pos`, unless it is malformed or reaches beyond the limit. */
  function Read(words: Words, pos: nat): (c: Option<Cmd>)
    ensures c.Some? ==> Sound(c.value) && pos + |Encode(c.value)| <= READ_LIMIT
  {
    if pos + 4 > READ_LIMIT then None
    else
      var id, state := ToU32(words[pos]), ToU32(words[pos + 1]);
      var offset, length := ToU32(words[pos + 2]), ToU32(words[pos + 3]);
      if id in GAIN_2CH then
        if length != 2 || offset != 0 || pos + 6 > READ_LIMIT then None
        else Some(Channels(id, state, words[pos + 4], words[pos + 5]))
      else if id in GAIN_MASTER then
        if length != 1 || offset != 0 || pos + 5 > READ_LIMIT then None
        else Some(Master(id, state, words[pos + 4]))
      else Some(Other(id, state, offset, length))
  }

  function ReadAll(words: Words, pos: nat, n: nat): (l: Listing<Cmd>)
    ensures forall k :: 0 <= k < |l.cs| ==> Sound(l.cs[k])
    decreases n
  {
    if n == 0 then Listing([], pos, true)
    else
      var c := Read(words, pos);
      if c.None? then Listing([], pos, false)
      else
        var rest := ReadAll(words, pos + |Encode(c.value)|, n - 1);
        Listing([c.value] + rest.cs, rest.end, rest.whole)
  }

  lemma {:induction false} ReadInverse(words: Words, pos: nat, c: Cmd)
    requires Sound(c) && At(words, pos, Encode(c))
    ensures Read(words, pos) == Some(c)
  {
    var part := Encode(c);
    HeadAt(words, pos, part);
    if c.Channels? {
      AtElement(words, pos, part, 5);
    }
    if !c.Other? {
      AtElement(words, pos, part, 4);
    }
  }

  lemma {:induction false} ReadAllInverse(words: Words, pos: nat, cs: seq<Cmd>)
    requires (forall k :: 0 <= k < |cs| ==> Sound(cs[k])) && At(words, pos, EncodeAll(cs))
    ensures ReadAll(words, pos, |cs|) == Listing(cs, pos + |EncodeAll(cs)|, true)
    decreases |cs|
  {
    hide Sound, Encode, At, Read;
    if cs != [] {
      AtSplit(words, pos, Encode(cs[0]), EncodeAll(cs[1..]));
      ReadInverse(words, pos, cs[0]);
      ReadAllInverse(words, pos + |Encode(cs[0])|, cs[1..]);
      assert [cs[0]] + cs[1..] == cs;
    }
  }

  // ---- What a call does with them ----

  /** One more own command behind those done. */
  function Done(moduleId: uint32, s: State, c: Cmd): State {
    var r := Reader(s.r.pos + |Encode(c)|, 0);
    if c.Other? then s.(r := r)
    else State(r, VolumeOf(c), s.out + [LrPacket(moduleId, VolumeOf(c)), MasterPacket(moduleId, VolumeOf(c))])
  }

  /**
    * An unreadable command leaves the volume as it was, unless only its gains are missing: the error value is
    * stored for those beyond the limit, and the rest goes to unity.
    */
  function Leftover(words: Words, pos: nat, vol: Volume): Volume {
    if pos + 4 > READ_LIMIT || Read(words, pos).Some? then vol
    else
      var id, offset, length := ToU32(words[pos]), ToU32(words[pos + 2]), ToU32(words[pos + 3]);
      var first := if pos + 4 < READ_LIMIT then ToU32(words[pos + 4]) else ToU32(-EINVAL);
      if offset == 0 && length == 2 && id in GAIN_2CH then Volume(first, ToU32(-EINVAL), UNITY)
      else if offset == 0 && length == 1 && id in GAIN_MASTER then Volume(UNITY, UNITY, first)
      else vol
  }

  /** A turn does what the command at the reader says, and ends in an error exactly if none can be read there. */
  lemma {:induction false} StepReads(iid: bool, moduleId: uint32, words: Words, s: State)
    requires AllGains(s.out) && s.Paid() && s.r.rc == 0
    ensures
      var c, v := Read(words, s.r.pos), Step(iid, moduleId, words, s);
      if c.None? then v.s.r.rc == -EINVAL && v.s.vol == Leftover(words, s.r.pos, s.vol)
      else v == Continue(Done(moduleId, s, c.value)) && v.s.Paid()
  {
    hide Concat, GainWord, Le32;
    ConcatLength(iid, s.out);
  }

  /** After a read error nothing is read, stored or packed any more. */
  lemma {:induction false} ErrorIsFinal(iid: bool, moduleId: uint32, words: Words, n: int, i: int, s: State)
    requires AllGains(s.out) && s.r.rc == -EINVAL
    ensures Run(iid, moduleId, words, n, i, s) == s
    decreases n - i
  {
    if i < n {
      ErrorStays(words, s.r);
      ErrorIsFinal(iid, moduleId, words, n, i + 1, s);
    }
  }

  lemma NothingOwn(moduleId: uint32, s: State)
    ensures Own([]) == [] && Final(s.vol, []) == s.vol && s.out + Pairs(moduleId, []) == s.out
  {
  }

  lemma {:induction false} RunReads(iid: bool, moduleId: uint32, words: Words, n: int, i: int, s: State)
    requires AllGains(s.out) && s.Paid() && s.r.rc == 0
    ensures
      var l, t := ReadAll(words, s.r.pos, if i < n then n - i else 0), Run(iid, moduleId, words, n, i, s);
      if l.whole then
        t.r.rc == 0 && t.vol == Final(s.vol, Own(l.cs)) && t.out == s.out + Pairs(moduleId, Own(l.cs))
      else
        t.r.rc == -EINVAL && t.vol == Leftover(words, l.end, Final(s.vol, Own(l.cs)))
    decreases n - i
  {
    hide Step, Encode, Read, LrPacket, MasterPacket, VolumeOf, Leftover, Own, Pairs, Final, Sound;
    NothingOwn(moduleId, s);
    if i < n {
      StepReads(iid, moduleId, words, s);
      var c, v := Read(words, s.r.pos), Step(iid, moduleId, words, s);
      if c.None? {
        if v.Continue? {
          ErrorIsFinal(iid, moduleId, words, n, i + 1, v.s);
        }
      } else {
        RunReads(iid, moduleId, words, n, i + 1, v.s);
        var rest := ReadAll(words, v.s.r.pos, n - i - 1);
        AddedInFront(moduleId, s, c.value, rest.cs);
      }
    }
  }

  lemma {:induction false} OneInFront(c: Cmd, cs: seq<Cmd>)
    ensures Own([c] + cs) == if c.Other? then Own(cs) else [c] + Own(cs)
  {
    assert ([c] + cs)[1..] == cs;
    assert [] + Own(cs) == Own(cs);
  }

  lemma {:induction false} PairsInFront(moduleId: uint32, c: Cmd, own: seq<Cmd>)
    requires !c.Other? && forall k :: 0 <= k < |own| ==> !own[k].Other?
    ensures Pairs(moduleId, [c] + own)
         == [LrPacket(moduleId, VolumeOf(c)), MasterPacket(moduleId, VolumeOf(c))] + Pairs(moduleId, own)
    decreases |own|
  {
    hide LrPacket, MasterPacket, VolumeOf;
    var all, n := [c] + own, |own|;
    if own == [] {
      assert all == [c] && all[..0] == [];
    } else {
      assert all[n] == own[n - 1] && all[..n] == [c] + own[..n - 1];
      PairsInFront(moduleId, c, own[..n - 1]);
    }
  }

  lemma {:induction false} AddedInFront(moduleId: uint32, s: State, c: Cmd, rest: seq<Cmd>)
    requires AllGains(s.out)
    ensures
      var own, t := Own([c] + rest), Done(moduleId, s, c);
      && Final(s.vol, own) == Final(t.vol, Own(rest))
      && s.out + Pairs(moduleId, own) == t.out + Pairs(moduleId, Own(rest))
  {
    hide LrPacket, MasterPacket, VolumeOf, Encode;
    OneInFront(c, rest);
    if !c.Other? {
      PairsInFront(moduleId, c, Own(rest));
    }
  }

  /** What a call sends and leaves when the commands it reads are these. */
  function Outcome(iid: bool, moduleId: uint32, vol: Volume, cs: seq<Cmd>): (Delivery, Volume) {
    var ps := Pairs(moduleId, Own(cs));
    (Delivery(0, if Own(cs) == [] then None else Some(Concat(iid, ps))), Final(vol, Own(cs)))
  }

  /**
    * Every call, on every word array: without a client, with an error value for the device or the count, or
    * without memory for its buffer it fails at once. Otherwise it fails, sending nothing, exactly if the
    * announced commands cannot all be read, or it sends the pairs of the own commands, in order, and leaves the
    * volume of the last of them.
    */
  lemma {:induction false} HandlerReadsAll(
      client: bool, memory: bool, iid: bool, instance: int, vol: Volume, words: Words)
    ensures
      var h, l := Handled(client, memory, iid, instance, vol, words), ReadAll(words, 2, NumCommands(words));
      if !client || ToS32(words[0]) == -EINVAL || ToS32(words[1]) == -EINVAL then h == (Delivery(-EINVAL, None), vol)
      else if !memory then h == (Delivery(-ENOMEM, None), vol)
      else if !l.whole then h == (Delivery(-EINVAL, None), Leftover(words, l.end, Final(vol, Own(l.cs))))
      else h == Outcome(iid, ModuleOf(instance), vol, l.cs)
  {
    hide Run, ReadAll, Own, Pairs, Leftover;
    var p := Open(words, client, memory);
    if p.Accepted? {
      RunReads(iid, ModuleOf(instance), words, p.numCommands, 0, State(p.r, vol, []));
      assert forall ps: seq<Packet> :: [] + ps == ps;
    }
  }

  /** For every list of own and foreign commands the array holds, the call succeeds and does them all. */
  lemma {:induction false} HandlerIsFold(iid: bool, instance: int, vol: Volume, words: Words, cs: seq<Cmd>)
    requires (forall k :: 0 <= k < |cs| ==> Sound(cs[k])) && At(words, 2, EncodeAll(cs))
    requires ToS32(words[0]) != -EINVAL && words[1] == |cs|
    ensures Handled(true, true, iid, instance, vol, words) == Outcome(iid, ModuleOf(instance), vol, cs)
  {
    hide Handled, ReadAll, Outcome, Leftover;
    EncodingLength(cs);
    HandlerReadsAll(true, true, iid, instance, vol, words);
    ReadAllInverse(words, 2, cs);
  }

  lemma {:induction false} EncodingLength(cs: seq<Cmd>)
    ensures 4 * |cs| <= |EncodeAll(cs)|
  {
    if cs != [] {
      EncodingLength(cs[1..]);
    }
  }

  /** A two-channel command with a gain of more than 16 bits. */
  predicate TooLoud(c: Cmd) {
    c.Channels? && (ToU32(c.left) >= 0x1_0000 || ToU32(c.right) >= 0x1_0000)
  }

  /** Sent and replayed, the pairs give the volume of the last command exactly unless it is too loud. */
  lemma {:induction false} PairsAreHeard(dsp: Volume, iid: bool, moduleId: uint32, own: seq<Cmd>)
    requires own != [] && forall k :: 0 <= k < |own| ==> !own[k].Other?
    ensures
      var ps, last := Pairs(moduleId, own), own[|own| - 1];
      && Parse(iid, Concat(iid, ps)) == Some(ps)
      && (Replay(moduleId, dsp, ps) == VolumeOf(last) <==> !TooLoud(last))
  {
    hide Replay, LrPacket, MasterPacket, Parse, Concat;
    var v := VolumeOf(own[|own| - 1]);
    ReplayPair(moduleId, dsp, Pairs(moduleId, own[..|own| - 1]), v);
    AudibleIffSixteenBit(v);
    ParseInverse(iid, Pairs(moduleId, own));
  }

  /** Every call: an error sends nothing, success without a delivery changes nothing, and a delivery is bounded. */
  lemma {:induction false} DeliveryIsBounded(
      client: bool, memory: bool, iid: bool, instance: int, vol: Volume, words: Words)
    ensures
      var (d, v) := Handled(client, memory, iid, instance, vol, words);
      && (d.rc != 0 ==> d.sent == None)
      && (d.rc == 0 && d.sent == None ==> v == vol)
      && (d.sent.Some? ==>
            && |d.sent.value| <= 1000
            && (v.master == UNITY || (v.left == UNITY && v.right == UNITY))
            && (d, v) == Handled(true, true, iid, instance, vol, words))
  {
    hide Replay;
    var p := Open(words, client, memory);
    if p.Accepted? {
      var start := State(p.r, vol, []);
      RunKeepsInStep(iid, ModuleOf(instance), words, p.numCommands, 0, vol, vol, start);
      ConcatLength(iid, Run(iid, ModuleOf(instance), words, p.numCommands, 0, start).out);
    }
  }

  /**
    * On every word array: an error sends nothing, and success without a delivery changes nothing. A delivery is at
    * most 1000 bytes, whether or not its commands took the length check, and parses into packets whose replay over any
    * DSP volume gives the final record exactly unless the last own command in the array is a two-channel one with a
    * gain of more than 16 bits; master or both channels are then at unity.
    */
  lemma {:induction false} DspHearsFinalRecord(
      client: bool, memory: bool, iid: bool, instance: int, vol: Volume, words: Words, dsp: Volume)
    ensures
      var (d, v) := Handled(client, memory, iid, instance, vol, words);
      && (d.rc != 0 ==> d.sent == None)
      && (d.rc == 0 && d.sent == None ==> v == vol)
      && (d.sent.Some? ==>
            && |d.sent.value| <= 1000
            && (v.master == UNITY || (v.left == UNITY && v.right == UNITY))
            && ReadAll(words, 2, NumCommands(words)).whole
            && var own := Own(ReadAll(words, 2, NumCommands(words)).cs);
            && own != []
            && Parse(iid, d.sent.value) == Some(Pairs(ModuleOf(instance), own))
            && (Replay(DspModule(instance), dsp, Pairs(ModuleOf(instance), own)) == v <==> !TooLoud(own[|own| - 1])))
  {
    hide Replay, Parse, Concat, ReadAll, Own, Pairs, Handled, Leftover, TooLoud, VolumeOf, Sound;
    DeliveryIsBounded(client, memory, iid, instance, vol, words);
    HandlerReadsAll(true, true, iid, instance, vol, words);
    var own := Own(ReadAll(words, 2, NumCommands(words)).cs);
    if own != [] {
      PairsAreHeard(dsp, iid, ModuleOf(instance), own);
    }
  }

  /** A written two-channel command stores left then right, resets master, and says so to the DSP in that order. */
  lemma {:induction false} TwoChannelCommand(
      iid: bool, moduleId: uint32, words: Words, s: State, id: uint32, state: uint32, l: int, r: int)
    requires AllGains(s.out) && s.Paid() && s.r.rc == 0 && id in GAIN_2CH
    requires At(words, s.r.pos, [id, state, 0, 2, l, r])
    ensures var v := Volume(ToU32(l), ToU32(r), UNITY);
            Step(iid, moduleId, words, s)
            == Continue(State(Reader(s.r.pos + 6, 0), v, s.out + [LrPacket(moduleId, v), MasterPacket(moduleId, v)]))
  {
    hide Concat, GainWord, Le32;
    var part := [id, state, 0, 2, l, r];
    CommandAt(words, s.r.pos, part, Command(id, state, 0, 2));
    AtElement(words, s.r.pos, part, 4);
    AtElement(words, s.r.pos, part, 5);
    ConcatLength(iid, s.out);
  }

  /** A written master command puts both channels at unity and stores the master gain. */
  lemma {:induction false} MasterCommand(
      iid: bool, moduleId: uint32, words: Words, s: State, id: uint32, state: uint32, g: int)
    requires AllGains(s.out) && s.Paid() && s.r.rc == 0 && id in GAIN_MASTER
    requires At(words, s.r.pos, [id, state, 0, 1, g])
    ensures var v := Volume(UNITY, UNITY, ToU32(g));
            Step(iid, moduleId, words, s)
            == Continue(State(Reader(s.r.pos + 5, 0), v, s.out + [LrPacket(moduleId, v), MasterPacket(moduleId, v)]))
  {
    hide Concat, GainWord, Le32;
    var part := [id, state, 0, 1, g];
    CommandAt(words, s.r.pos, part, Command(id, state, 0, 1));
    AtElement(words, s.r.pos, part, 4);
    ConcatLength(iid, s.out);
  }
}
