/** The soft-volume handler: every accepted command sends a left/right packet and a master packet. */
module SoftVolume {
  import opened Machine
  import opened ParamPacking
  import opened CommandStream

  const GAIN_2CH := {0x6002, 0x7002}
  const GAIN_MASTER := {0x6003, 0x7003}
  const LR_CHANNEL_GAIN: uint32 := 0x10C00
  const MASTER_GAIN: uint32 := 0x10BFF
  const UNITY: uint32 := 0x2000
  const GAIN_SZ := 4

  datatype Volume = Volume(left: uint32, right: uint32, master: uint32)

  // ---- Two gains in one word ----

  /** Bitwise or of two unsigned numbers. */
  function BitOr(a: nat, b: nat): nat {
    if a == 0 then b
    else if b == 0 then a
    else 2 * BitOr(a / 2, b / 2) + (if a % 2 == 1 || b % 2 == 1 then 1 else 0)
  }

  lemma {:induction false} BitOrBound(a: nat, b: nat, k: nat)
    requires a < Pow2(k) && b < Pow2(k)
    ensures BitOr(a, b) < Pow2(k)
  {
    if a != 0 && b != 0 {
      BitOrBound(a / 2, b / 2, k - 1);
    }
  }

  /** (left << 16) | right on 32-bit values: the shift drops the high half of the left gain. */
  function GainWord(left: uint32, right: uint32): uint32 {
    Pow2OfWidths();
    BitOrBound(left % 0x1_0000 * 0x1_0000, right, 32);
    BitOr(left % 0x1_0000 * 0x1_0000, right)
  }

  lemma {:induction false} OrOfDisjoint(a: nat, b: nat, k: nat)
    requires b < Pow2(k)
    ensures BitOr(a * Pow2(k), b) == a * Pow2(k) + b
  {
    if k > 0 {
      var x := a * Pow2(k - 1);
      assert a * Pow2(k) == 2 * x;
      if x != 0 && b != 0 {
        OrOfDisjoint(a, b / 2, k - 1);
      }
    }
  }

  /** The DSP's reading of the word. */
  function Audible(v: Volume): Volume {
    Volume(GainWord(v.left, v.right) / 0x1_0000, GainWord(v.left, v.right) % 0x1_0000, v.master)
  }

  /** The word carries both gains exactly when both fit in 16 bits. */
  lemma AudibleIffSixteenBit(v: Volume)
    ensures Audible(v) == v <==> v.left < 0x1_0000 && v.right < 0x1_0000
  {
    if v.left < 0x1_0000 && v.right < 0x1_0000 {
      Pow2OfWidths();
      OrOfDisjoint(v.left, v.right, 16);
    }
  }

  /** A left gain of 17 bits is silence to the DSP. */
  lemma {:induction false} GainCanBeLost(master: uint32)
    ensures Audible(Volume(0x1_0000, 0, master)) == Volume(0, 0, master)
  {
  }

  // ---- The command loop ----

  function LrPacket(moduleId: uint32, v: Volume): Packet {
    Packet(Header(moduleId, 0, LR_CHANNEL_GAIN, GAIN_SZ), Le32(GainWord(v.left, v.right)))
  }

  function MasterPacket(moduleId: uint32, v: Volume): Packet {
    Packet(Header(moduleId, 0, MASTER_GAIN, GAIN_SZ), Le32(v.master))
  }

  predicate AllGains(ps: seq<Packet>) {
    forall k :: 0 <= k < |ps| ==> |ps[k].data| == ps[k].hdr.paramSize == GAIN_SZ && ps[k].hdr.instanceId == 0
  }

  datatype State = State(r: Reader, vol: Volume, out: seq<Packet>) {
    function Length(iid: bool): nat
      requires AllGains(out)
    {
      |Concat(iid, out)|
    }

    /** Five words or more were read for each pair of packets. */
    predicate Paid() {
      4 + 5 * |out| <= 2 * r.pos && r.pos <= READ_LIMIT
    }
  }

  datatype Verdict = Continue(s: State) | Leave(s: State)

  datatype Change = Change(r: Reader, vol: Volume) | Malformed | Foreign

  /** How one command rewrites the record; the gain it does not name goes to unity. */
  function ReadChange(words: Words, c: Command, r: Reader, vol: Volume): (e: Change)
    ensures e.Change? ==> r.pos <= e.r.pos && (r.pos <= READ_LIMIT ==> e.r.pos <= READ_LIMIT)
    ensures e.Change? && e.r.rc == 0 ==> r.rc == 0 && r.pos < e.r.pos
  {
    if c.id in GAIN_2CH then
      if c.length != 2 || c.offset != 0 then Malformed
      else
        var (left, r1) := GetNext(words, r);
        var (right, r2) := GetNext(words, r1);
        Change(r2, Volume(ToU32(left), ToU32(right), UNITY))
    else if c.id in GAIN_MASTER then
      if c.length != 1 || c.offset != 0 then Malformed
      else
        var (master, r1) := GetNext(words, r);
        Change(r1, Volume(UNITY, UNITY, ToU32(master)))
    else Foreign
  }

  function Step(iid: bool, moduleId: uint32, words: Words, s: State): (v: Verdict)
    requires AllGains(s.out)
    ensures AllGains(v.s.out)
  {
    var (c, r) := GetCommand(words, s.r);
    match ReadChange(words, c, r, s.vol)
    case Foreign => Continue(s.(r := r))
    case Malformed => Leave(s.(r := r.(rc := -EINVAL)))
    case Change(r2, vol) =>
      var tooLong := s.Length(iid) + 2 * (COMMAND_IID_PAYLOAD_SZ + GAIN_SZ) > MAX_INBAND_PARAM_SZ;
      var rc := if c.state == CONFIG_SET && tooLong then -EINVAL else r2.rc;
      if rc != 0 then Continue(s.(r := r2.(rc := rc), vol := vol))
      else Continue(State(r2, vol, s.out + [LrPacket(moduleId, vol), MasterPacket(moduleId, vol)]))
  }

  function Run(iid: bool, moduleId: uint32, words: Words, n: int, i: int, s: State): (t: State)
    requires AllGains(s.out)
    ensures AllGains(t.out)
    decreases n - i
  {
    if i >= n then s
    else
      match Step(iid, moduleId, words, s)
      case Leave(t) => t
      case Continue(t) => Run(iid, moduleId, words, n, i + 1, t)
  }

  function Finish(iid: bool, s: State): Delivery
    requires AllGains(s.out)
  {
    Delivery(s.r.rc, if s.r.rc == 0 && s.out != [] then Some(Concat(iid, s.out)) else None)
  }

  /** Module of a soft-volume instance; an instance the driver does not know leaves the zeroed header alone. */
  function ModuleOf(instance: int): uint32 {
    if instance == 1 then 0x10BFE else if instance == 2 then 0x10910 else 0
  }

  function Handled(
      client: bool, memory: bool, iid: bool, instance: int, vol: Volume, words: Words): (Delivery, Volume) {
    match Open(words, client, memory)
    case Refused(rc) => (Delivery(rc, None), vol)
    case Accepted(n, r) =>
      var s := Run(iid, ModuleOf(instance), words, n, 0, State(r, vol, []));
      (Finish(iid, s), s.vol)
  }

  lemma {:induction false} ConcatLength(iid: bool, ps: seq<Packet>)
    requires AllGains(ps)
    ensures 16 * |ps| <= |Concat(iid, ps)| <= 20 * |ps|
  {
    if ps != [] {
      ConcatLength(iid, ps[1..]);
    }
  }

  class VolumeRecord {
    var left: uint32
    var right: uint32
    var master: uint32

    function Value(): Volume
      reads this
    {
      Volume(left, right, master)
    }

    constructor (v: Volume)
      ensures Value() == v
    {
      left, right, master := v.left, v.right, v.master;
    }
  }

  method Handle(ac: AudioClient?, vol: VolumeRecord, words: Words, instance: int, memory: bool, iid: bool)
    returns (rc: int)
    modifies ac, vol
    ensures var (d, v) := Handled(ac != null, memory, iid, instance, old(vol.Value()), words);
            rc == d.rc && vol.Value() == v
            && (ac != null ==> ac.delivered == old(ac.delivered) + Deliveries(d))
  {
    var p := ReadPrologue(words, ac != null, memory);
    if p.Refused? {
      return p.rc;
    }
    var buffer := new InbandBuffer(iid);
    var r := Loop(ModuleOf(instance), vol, words, buffer, p.r, p.numCommands);
    ConcatLength(iid, buffer.out);
    rc := r.rc;
    if buffer.length > 0 && rc == 0 {
      ac.SetPpParams(buffer.params, buffer.length);
    }
  }

  method Loop(moduleId: uint32, vol: VolumeRecord, words: Words, buffer: InbandBuffer, r0: Reader, numCommands: int)
    returns (r: Reader)
    requires buffer.Valid() && buffer.out == [] && 2 <= r0.pos <= READ_LIMIT
    modifies vol, buffer, buffer.params
    ensures buffer.Valid() && AllGains(buffer.out)
    ensures State(r, vol.Value(), buffer.out)
            == Run(buffer.iid, moduleId, words, numCommands, 0, State(r0, old(vol.Value()), []))
  {
    r := r0;
    var i, left := 0, false;
    hide Step;
    while i < numCommands && !left
      invariant buffer.Valid() && AllGains(buffer.out) && State(r, vol.Value(), buffer.out).Paid()
      invariant Run(buffer.iid, moduleId, words, numCommands, 0, State(r0, old(vol.Value()), []))
                == var s := State(r, vol.Value(), buffer.out);
                   if left then s else Run(buffer.iid, moduleId, words, numCommands, i, s)
      decreases !left, numCommands - i
    {
      r, left := Turn(moduleId, vol, words, buffer, r);
      i := i + 1;
    }
  }

  /** The switch over command ids: a malformed command is not ok, a foreign one is not accepted. */
  method Update(words: Words, c: Command, r0: Reader, vol: VolumeRecord) returns (r: Reader, ok: bool, accepted: bool)
    modifies vol
    ensures match ReadChange(words, c, r0, old(vol.Value()))
            case Foreign => ok && !accepted && r == r0 && vol.Value() == old(vol.Value())
            case Malformed => !ok && r == r0 && vol.Value() == old(vol.Value())
            case Change(r', v) => ok && accepted && r == r' && vol.Value() == v
  {
    r, ok, accepted := r0, true, true;
    if c.id in GAIN_2CH {
      if c.length != 2 || c.offset != 0 {
        ok := false;
        return;
      }
      var (gain, r1) := GetNext(words, r);
      vol.left := ToU32(gain);
      var (gain', r2) := GetNext(words, r1);
      vol.right := ToU32(gain');
      vol.master := UNITY;
      r := r2;
    } else if c.id in GAIN_MASTER {
      if c.length != 1 || c.offset != 0 {
        ok := false;
        return;
      }
      vol.left := UNITY;
      vol.right := UNITY;
      var (gain, r1) := GetNext(words, r);
      vol.master := ToU32(gain);
      r := r1;
    } else {
      accepted := false;
    }
  }

  /** Left/right first, master second; neither packing can fail at this size. */
  method PackPair(moduleId: uint32, v: Volume, buffer: InbandBuffer) returns (rc: int)
    requires buffer.Valid() && AllGains(buffer.out) && buffer.length + 40 <= MAX_INBAND_PARAM_SZ
    modifies buffer, buffer.params
    ensures buffer.Valid() && rc == 0
    ensures buffer.out == old(buffer.out) + [LrPacket(moduleId, v), MasterPacket(moduleId, v)]
  {
    rc := buffer.Pack(Header(moduleId, 0, LR_CHANNEL_GAIN, GAIN_SZ), Some(Le32(GainWord(v.left, v.right))));
    if rc == 0 {
      rc := buffer.Pack(Header(moduleId, 0, MASTER_GAIN, GAIN_SZ), Some(Le32(v.master)));
    }
  }

  method Turn(moduleId: uint32, vol: VolumeRecord, words: Words, buffer: InbandBuffer, r0: Reader)
    returns (r: Reader, left: bool)
    requires buffer.Valid() && AllGains(buffer.out) && State(r0, vol.Value(), buffer.out).Paid()
    modifies vol, buffer, buffer.params
    ensures buffer.Valid() && AllGains(buffer.out) && State(r, vol.Value(), buffer.out).Paid()
    ensures Step(buffer.iid, moduleId, words, old(State(r0, vol.Value(), buffer.out)))
            == if left then Leave(State(r, vol.Value(), buffer.out)) else Continue(State(r, vol.Value(), buffer.out))
    ensures left ==> r.rc != 0
  {
    hide GetCommand, Concat, ReadChange, GainWord, Le32;
    left := false;
    ConcatLength(buffer.iid, buffer.out);
    var (c, r1) := GetCommand(words, r0);
    r := r1;
    var ok, accepted;
    r, ok, accepted := Update(words, c, r, vol);
    if !ok {
      r, left := r.(rc := -EINVAL), true;
      return;
    }
    if !accepted {
      return;
    }
    if c.state == CONFIG_SET
       && buffer.length + 2 * (COMMAND_IID_PAYLOAD_SZ + GAIN_SZ) > MAX_INBAND_PARAM_SZ {
      r := r.(rc := -EINVAL);
    }
    if r.rc != 0 {
      return;
    }
    var rc := PackPair(moduleId, vol.Value(), buffer);
    r := r.(rc := rc);
    left := rc != 0;
  }
}
