/**
 The virtualizer, reverb and bass-boost handlers. The three C functions are one program over three tables:
 every command writes one 32-bit field of the effect record, and command 0 is the module's ENABLE.
 */
module SimpleEffects {
  import opened Machine
  import opened ParamPacking
  import opened CommandStream

  /** `paramIds[k]` is the DSP parameter behind command `enableCommand + k`. */
  datatype Module = Module(moduleId: uint32, enableCommand: uint32, paramIds: seq<uint32>)

  const VIRTUALIZER := Module(0x108A5, 0x1001, [0x108A6, 0x108A7, 0x108A8, 0x108A9])

  const REVERB := Module(0x108AA, 0x2001,
    [0x108AB, 0x108AC, 0x108AD, 0x108AE, 0x108AF, 0x108B0, 0x108B1, 0x108B2,
     0x108B3, 0x108B4, 0x108B5, 0x108B6, 0x108B7, 0x108B8, 0x108B9])

  const BASS_BOOST := Module(0x108A1, 0x3001, [0x108A2, 0x108A3, 0x108A4])

  const FIELD_SZ := 4

  /** What is packed while `target` is the field the data pointer refers to; before any choice, a bare zero header. */
  function PacketFor(m: Module, fields: seq<uint32>, target: Option<nat>): Packet
    requires target.Some? ==> target.value < |fields| == |m.paramIds|
  {
    match target
    case None => Packet(Header(m.moduleId, 0, 0, 0), [])
    case Some(k) => Packet(Header(m.moduleId, 0, m.paramIds[k], FIELD_SZ), Le32(fields[k]))
  }

  predicate Small(p: Packet) {
    |p.data| == p.hdr.paramSize <= FIELD_SZ && p.hdr.instanceId == 0
  }

  predicate AllSmall(ps: seq<Packet>) {
    forall k :: 0 <= k < |ps| ==> Small(ps[k])
  }

  /** `target` stands for the header and data pointer that survive from one command to the next. */
  datatype State = State(r: Reader, fields: seq<uint32>, target: Option<nat>, out: seq<Packet>) {
    predicate Ok(m: Module) {
      && |fields| == |m.paramIds| > 0
      && (target.Some? ==> target.value < |fields|)
      && AllSmall(out)
    }

    function Length(iid: bool): nat
      requires AllSmall(out)
    {
      |Concat(iid, out)|
    }

    /** Words read pay for packets: five or more per packet, after the two of the prologue. */
    predicate Paid() {
      2 + 5 * |out| <= r.pos <= READ_LIMIT
    }
  }

  datatype Verdict = Continue(s: State) | Leave(s: State)

  /** One turn of the command loop. */
  function Step(iid: bool, m: Module, words: Words, s: State): (v: Verdict)
    requires s.Ok(m)
    ensures v.s.Ok(m)
  {
    var (c, r) := GetCommand(words, s.r);
    var k := c.id - m.enableCommand;
    if !(0 <= k < |m.paramIds|) then
      Continue(s.(r := r))
    else if c.length != 1 || c.offset != 0 then
      Leave(s.(r := r.(rc := -EINVAL)))
    else
      var (value, r2) := GetNext(words, r);
      var fields := s.fields[k := ToU32(value)];
      if k == 0 && fields[0] == s.fields[0] then
        Continue(s.(r := r2, fields := fields))
      else
        var chosen := k == 0 || c.state == CONFIG_SET;
        var tooLong := s.Length(iid) + COMMAND_IID_PAYLOAD_SZ + FIELD_SZ > MAX_INBAND_PARAM_SZ;
        var rc := if chosen && tooLong then -EINVAL else r2.rc;
        if rc != 0 then
          Leave(s.(r := r2.(rc := rc), fields := fields))
        else
          var target := if chosen then Some(k) else s.target;
          Continue(State(r2, fields, target, s.out + [PacketFor(m, fields, target)]))
  }

  function Run(iid: bool, m: Module, words: Words, n: int, i: int, s: State): (t: State)
    requires s.Ok(m)
    ensures t.Ok(m)
    decreases n - i
  {
    if i >= n then s
    else
      match Step(iid, m, words, s)
      case Leave(t) => t
      case Continue(t) => Run(iid, m, words, n, i + 1, t)
  }

  function Finish(iid: bool, s: State): Delivery
    requires AllSmall(s.out)
  {
    Delivery(s.r.rc, if s.r.rc == 0 && s.out != [] then Some(Concat(iid, s.out)) else None)
  }

  function Start(fields: seq<uint32>, r: Reader): State {
    State(r, fields, None, [])
  }

  /** The whole call: the delivery and the effect record it leaves. */
  function Handled(client: bool, memory: bool, iid: bool, m: Module, fields: seq<uint32>, words: Words)
    : (Delivery, seq<uint32>)
    requires |fields| == |m.paramIds| > 0
  {
    match Open(words, client, memory)
    case Refused(rc) => (Delivery(rc, None), fields)
    case Accepted(n, r) =>
      var s := Run(iid, m, words, n, 0, Start(fields, r));
      (Finish(iid, s), s.fields)
  }

  lemma {:induction false} ConcatLength(iid: bool, ps: seq<Packet>)
    requires AllSmall(ps)
    ensures 12 * |ps| <= |Concat(iid, ps)| <= 20 * |ps|
  {
    if ps != [] {
      ConcatLength(iid, ps[1..]);
    }
  }

  /** The effect record of one module, updated in place. */
  class EffectRecord {
    var fields: seq<uint32>

    constructor (init: seq<uint32>)
      ensures fields == init
    {
      fields := init;
    }
  }

  method Handle(ac: AudioClient?, m: Module, record: EffectRecord, words: Words, memory: bool, iid: bool)
    returns (rc: int)
    requires |record.fields| == |m.paramIds| > 0
    modifies ac, record
    ensures var (d, fields) := Handled(ac != null, memory, iid, m, old(record.fields), words);
            rc == d.rc && record.fields == fields
            && (ac != null ==> ac.delivered == old(ac.delivered) + Deliveries(d))
  {
    var p := ReadPrologue(words, ac != null, memory);
    if p.Refused? {
      return p.rc;
    }
    var buffer := new InbandBuffer(iid);
    var r := Loop(m, record, words, buffer, p.r, p.numCommands);
    ConcatLength(iid, buffer.out);
    rc := r.rc;
    if buffer.length > 0 && rc == 0 {
      ac.SetPpParams(buffer.params, buffer.length);
    }
  }

  method Loop(m: Module, record: EffectRecord, words: Words, buffer: InbandBuffer, r0: Reader, numCommands: int)
    returns (r: Reader)
    requires buffer.Valid() && buffer.out == [] && 2 <= r0.pos <= READ_LIMIT
    requires |record.fields| == |m.paramIds| > 0
    modifies record, buffer, buffer.params
    ensures buffer.Valid()
    ensures var s := Run(buffer.iid, m, words, numCommands, 0, Start(old(record.fields), r0));
            r == s.r && record.fields == s.fields && buffer.out == s.out
  {
    r := r0;
    var i, left := 0, false;
    var hdr := Header(m.moduleId, 0, 0, 0);
    var target: Option<nat> := None;
    hide Step;
    while i < numCommands && !left
      invariant buffer.Valid()
      invariant State(r, record.fields, target, buffer.out).Ok(m)
      invariant hdr == PacketFor(m, record.fields, target).hdr
      invariant State(r, record.fields, target, buffer.out).Paid()
      invariant Run(buffer.iid, m, words, numCommands, 0, Start(old(record.fields), r0))
                == var s := State(r, record.fields, target, buffer.out);
                   if left then s else Run(buffer.iid, m, words, numCommands, i, s)
      decreases !left, numCommands - i
    {
      r, hdr, target, left := Turn(m, record, words, buffer, r, hdr, target);
      i := i + 1;
    }
  }

  /** The body of the command loop. */
  method Turn(m: Module, record: EffectRecord, words: Words, buffer: InbandBuffer,
              r0: Reader, hdr0: Header, target0: Option<nat>)
    returns (r: Reader, hdr: Header, target: Option<nat>, left: bool)
    requires buffer.Valid() && State(r0, record.fields, target0, buffer.out).Ok(m)
    requires State(r0, record.fields, target0, buffer.out).Paid()
    requires hdr0 == PacketFor(m, record.fields, target0).hdr
    modifies record, buffer, buffer.params
    ensures buffer.Valid() && State(r, record.fields, target, buffer.out).Paid()
    ensures Step(buffer.iid, m, words, old(State(r0, record.fields, target0, buffer.out)))
            == if left then Leave(State(r, record.fields, target, buffer.out))
               else Continue(State(r, record.fields, target, buffer.out))
    ensures left ==> r.rc != 0
    ensures hdr == PacketFor(m, record.fields, target).hdr
  {
    hide GetCommand, GetNext, Concat, Le32;
    hdr, target, left := hdr0, target0, false;
    ConcatLength(buffer.iid, buffer.out);
    var (c, r1) := GetCommand(words, r0);
    r := r1;
    var k := c.id - m.enableCommand;
    if !(0 <= k < |m.paramIds|) {
      return;
    }
    if c.length != 1 || c.offset != 0 {
      r, left := r.(rc := -EINVAL), true;
      return;
    }
    var previous := record.fields[k];
    var (value, r2) := GetNext(words, r);
    r := r2;
    record.fields := record.fields[k := ToU32(value)];
    if k == 0 && previous == record.fields[k] {
      return;
    }
    if k == 0 || c.state == CONFIG_SET {
      if buffer.length + COMMAND_IID_PAYLOAD_SZ + FIELD_SZ > MAX_INBAND_PARAM_SZ {
        r := r.(rc := -EINVAL);
      }
      if r.rc == 0 {
        hdr := hdr.(paramId := m.paramIds[k], paramSize := FIELD_SZ);
        target := Some(k);
      }
    }
    if r.rc != 0 {
      left := true;
      return;
    }
    var rc := buffer.Pack(hdr, if target.None? then None else Some(Le32(record.fields[target.value])));
    r := r.(rc := rc);
    left := rc != 0;
  }
}
