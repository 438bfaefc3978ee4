/** The psychoacoustic-bass (PBE) handler, whose coefficient loop shares the command loop's counter. */
module BassEnhancer {
  import opened Machine
  import opened ParamPacking
  import opened CommandStream

  const MODULE_ID: uint32 := 0x10C2A
  const PBE_ENABLE := 0x8001
  const PBE_CONFIG := 0x8002
  const PBE_CONFIG_PARAM_LEN := 28
  const SCALARS := 24
  const COEFFS := 45
  const CONFIG_SZ := 236

  /** The fields of pbe_config_t in struct order; all are 16 bits wide but the four attack and release times. */
  predicate IsWide(k: nat) {
    12 <= k < 16
  }

  type ScalarFields = s: seq<uint32> | |s| == SCALARS && forall k :: 0 <= k < SCALARS ==> IsWide(k) || s[k] < 0x1_0000
    witness seq(SCALARS, _ => 0)

  type CoeffFields = s: seq<uint32> | |s| == COEFFS witness seq(COEFFS, _ => 0)

  datatype Pbe = Pbe(enable: uint32, scalars: ScalarFields, coeffs: CoeffFields)

  function Narrow(s: seq<uint32>): (h: seq<uint16>)
    requires forall k :: 0 <= k < |s| ==> s[k] < 0x1_0000
  {
    seq(|s|, k requires 0 <= k < |s| => s[k])
  }

  /** The packed struct in memory. */
  function ConfigBytes(scalars: ScalarFields, coeffs: CoeffFields): (b: seq<uint8>)
    ensures |b| == CONFIG_SZ
  {
    HalfBytesOf(Narrow(scalars[..12])) + BytesOf(scalars[12..16]) + HalfBytesOf(Narrow(scalars[16..])) + BytesOf(coeffs)
  }

  /** Length of the coefficient run, from the crossover order (field 3) and the band-pass order (field 4). */
  function RunLength(scalars: ScalarFields): nat {
    var shelf := if scalars[3] == 3 then 10 else 5;
    2 * shelf + 5 * scalars[4] + 10
  }

  /** `n` consecutive reads; past an error they all yield the error value. */
  function ReadRun(words: Words, r: Reader, n: nat): (res: (seq<int>, Reader))
    ensures |res.0| == n
    ensures r.pos <= res.1.pos && (r.pos <= READ_LIMIT ==> res.1.pos <= READ_LIMIT)
    ensures r.rc != 0 ==> res.1.rc != 0
    ensures res.1.rc == 0 ==> res.1.pos == r.pos + n
    decreases n
  {
    if n == 0 then ([], r)
    else
      var (v, r1) := GetNext(words, r);
      var (rest, r2) := ReadRun(words, r1, n - 1);
      ([v] + rest, r2)
  }

  function ToField(k: nat, v: int): uint32 {
    if IsWide(k) then ToU32(v) else ToU16(v)
  }

  function ToScalars(vs: seq<int>): ScalarFields
    requires |vs| == SCALARS
  {
    seq(SCALARS, k requires 0 <= k < SCALARS => ToField(k, vs[k]))
  }

  function ToU32s(vs: seq<int>): (ws: seq<uint32>)
    ensures |ws| == |vs|
  {
    seq(|vs|, k requires 0 <= k < |vs| => ToU32(vs[k]))
  }

  datatype Target = Nothing | Enable | Config(length: uint32)

  function SizeOf(t: Target): uint32 {
    match t
    case Nothing => 0
    case Enable => WORD_SZ
    case Config(length) => length
  }

  function HeaderOf(t: Target): Header {
    var paramId := match t case Nothing => 0 case Enable => 0x10C2B case Config(_) => 0x10C49;
    Header(MODULE_ID, 0, paramId, SizeOf(t))
  }

  predicate AllFit(ps: seq<Packet>) {
    forall k :: 0 <= k < |ps| ==> |ps[k].data| == ps[k].hdr.paramSize <= CONFIG_SZ && ps[k].hdr.instanceId == 0
  }

  datatype State = State(r: Reader, pbe: Pbe, target: Target, out: seq<Packet>) {
    predicate Ok() {
      r.pos <= READ_LIMIT && AllFit(out) && (target.Config? ==> target.length <= CONFIG_SZ)
    }

    function Length(iid: bool): nat
      requires AllFit(out)
    {
      |Concat(iid, out)|
    }

    function Data(): (d: seq<uint8>)
      requires target.Config? ==> target.length <= CONFIG_SZ
      ensures |d| == SizeOf(target)
    {
      match target
      case Nothing => []
      case Enable => Le32(pbe.enable)
      case Config(length) => ConfigBytes(pbe.scalars, pbe.coeffs)[..length]
    }
  }

  /** `Pack` carries the counter the loop goes on with; `Overrun` is a coefficient run that leaves the struct. */
  datatype Effect = Skip(r: Reader, pbe: Pbe) | Fault(r: Reader, pbe: Pbe) | Overrun
                  | Pack(r: Reader, pbe: Pbe, chosen: Option<Target>, i: int)

  function ReadConfig(words: Words, c: Command, r: Reader, pbe: Pbe): Effect {
    if c.length > CONFIG_SZ || c.length < PBE_CONFIG_PARAM_LEN || c.offset != 0 then Fault(r, pbe)
    else
      var (vs, r1) := ReadRun(words, r, SCALARS);
      var scalars := ToScalars(vs);
      var total := RunLength(scalars);
      if total > COEFFS then Overrun
      else
        var (cs, r2) := ReadRun(words, r1, total);
        Pack(r2, pbe.(scalars := scalars, coeffs := ToU32s(cs) + pbe.coeffs[total..]),
             if c.state == CONFIG_SET then Some(Config(c.length)) else None, total)
  }

  function Interpret(words: Words, c: Command, r: Reader, pbe: Pbe, i: int): (e: Effect)
    ensures e != Overrun ==> r.pos <= e.r.pos && (r.pos <= READ_LIMIT ==> e.r.pos <= READ_LIMIT)
    ensures e.Pack? && e.r.rc == 0 ==> r.rc == 0 && r.pos < e.r.pos
    ensures e.Pack? && e.chosen.Some? && e.chosen.value.Config? ==> e.chosen.value.length <= CONFIG_SZ
  {
    if c.id == PBE_CONFIG then ReadConfig(words, c, r, pbe)
    else if c.id != PBE_ENABLE then Skip(r, pbe)
    else if c.length != 1 || c.offset != 0 then Fault(r, pbe)
    else
      var (v, r1) := GetNext(words, r);
      if ToU32(v) == pbe.enable then Skip(r1, pbe) else Pack(r1, pbe.(enable := ToU32(v)), Some(Enable), i)
  }

  datatype Verdict = Continue(s: State, i: int) | Leave(s: State) | Broken

  function Step(iid: bool, words: Words, s: State, i: int): (v: Verdict)
    requires s.Ok()
    ensures !v.Broken? ==> v.s.Ok()
    ensures v.Continue? ==> s.r.pos < v.s.r.pos || (s.r.pos == v.s.r.pos && i < v.i)
  {
    var (c, r) := GetCommand(words, s.r);
    match Interpret(words, c, r, s.pbe, i)
    case Overrun => Broken
    case Skip(r2, pbe) => Continue(s.(r := r2, pbe := pbe), i + 1)
    case Fault(r2, pbe) => Leave(s.(r := r2.(rc := -EINVAL), pbe := pbe))
    case Pack(r2, pbe, chosen, i') =>
      var target := if chosen.Some? then chosen.value else s.target;
      var tooLong := s.Length(iid) + COMMAND_IID_PAYLOAD_SZ + SizeOf(target) > MAX_INBAND_PARAM_SZ;
      var rc := if chosen.Some? && tooLong then -EINVAL else r2.rc;
      var t := State(r2, pbe, target, s.out);
      if rc != 0 then Leave(s.(r := r2.(rc := rc), pbe := pbe))
      else if s.Length(iid) + HeaderSize(iid) + SizeOf(target) > MAX_INBAND_PARAM_SZ then Broken
      else Continue(t.(out := s.out + [Packet(HeaderOf(target), t.Data())]), i' + 1)
  }

  datatype Ended = Ended(s: State) | Undefined

  /** The loop ends on every word array: a turn reads on, or leaves the read pointer and moves the counter up. */
  function Run(iid: bool, words: Words, n: int, i: int, s: State): (e: Ended)
    requires s.Ok()
    ensures e.Ended? ==> e.s.Ok()
    decreases READ_LIMIT - s.r.pos, n - i
  {
    if i >= n then Ended(s)
    else
      match Step(iid, words, s, i)
      case Broken => Undefined
      case Leave(t) => Ended(t)
      case Continue(t, i') => Run(iid, words, n, i', t)
  }

  function Finish(iid: bool, s: State): Delivery
    requires s.Ok()
  {
    Delivery(s.r.rc, if s.r.rc == 0 && s.out != [] then Some(Concat(iid, s.out)) else None)
  }

  /** What the handler makes of the end of its loop. */
  function Outcome(iid: bool, e: Ended): Option<(Delivery, Pbe)>
    requires e.Ended? ==> e.s.Ok()
  {
    if e.Undefined? then None else Some((Finish(iid, e.s), e.s.pbe))
  }

  function Handled(client: bool, memory: bool, iid: bool, pbe: Pbe, words: Words): Option<(Delivery, Pbe)> {
    match Open(words, client, memory)
    case Refused(rc) => Some((Delivery(rc, None), pbe))
    case Accepted(n, r) => Outcome(iid, Run(iid, words, n, 0, State(r, pbe, Nothing, [])))
  }

  // ---- The handler as it runs ----

  class PbeRecord {
    var enable: uint32
    var scalars: ScalarFields
    const coeffs: array<uint32>

    ghost predicate Valid()
      reads this
    {
      coeffs.Length == COEFFS
    }

    function Value(): Pbe
      requires coeffs.Length == COEFFS
      reads this, coeffs
    {
      Pbe(enable, scalars, coeffs[..])
    }

    constructor (pbe: Pbe)
      ensures Valid() && Value() == pbe && fresh(coeffs)
    {
      enable, scalars := pbe.enable, pbe.scalars;
      coeffs := new uint32[COEFFS](k requires 0 <= k < COEFFS => pbe.coeffs[k]);
    }

    /** The coefficient loop, running on the counter it is handed; on return the counter is the length of the run. */
    method LoadCoeffs(words: Words, r0: Reader, total: nat) returns (r: Reader, i: nat)
      requires Valid() && total <= COEFFS
      modifies coeffs
      ensures i == total && Valid()
      ensures (coeffs[..total], r) == (ToU32s(ReadRun(words, r0, total).0), ReadRun(words, r0, total).1)
      ensures coeffs[total..] == old(coeffs[total..])
    {
      r, i := r0, 0;
      ghost var (all, end) := ReadRun(words, r0, total);
      while i < total
        invariant i <= total
        invariant coeffs[..i] == ToU32s(all)[..i]
        invariant coeffs[total..] == old(coeffs[total..])
        invariant ReadRun(words, r, total - i) == (all[i..], end)
      {
        var (v, r1) := GetNext(words, r);
        coeffs[i] := ToU32(v);
        r := r1;
        i := i + 1;
        assert all[i - 1..][1..] == all[i..];
      }
      assert coeffs[..total] == ToU32s(all)[..total] == ToU32s(all);
    }
  }

  datatype Action = Ignore | Fail | Outside | Send(chosen: Option<Target>)

  predicate Matches(e: Effect, a: Action, r: Reader, pbe: Pbe, i: int) {
    match a
    case Ignore => e == Skip(r, pbe)
    case Fail => e == Fault(r, pbe)
    case Outside => e == Overrun
    case Send(chosen) => e == Pack(r, pbe, chosen, i)
  }

  method Dispatch(words: Words, c: Command, r0: Reader, record: PbeRecord, i0: int)
    returns (r: Reader, a: Action, i: int)
    requires record.Valid()
    modifies record, record.coeffs
    ensures Matches(Interpret(words, c, r0, old(record.Value()), i0), a, r, record.Value(), i)
    ensures a.Ignore? ==> i == i0
  {
    hide GetNext, ReadRun, RunLength;
    r, i := r0, i0;
    if c.id == PBE_CONFIG {
      if c.length > CONFIG_SZ || c.length < PBE_CONFIG_PARAM_LEN || c.offset != 0 {
        a := Fail;
        return;
      }
      var (vs, r1) := ReadRun(words, r, SCALARS);
      record.scalars := ToScalars(vs);
      var total := RunLength(record.scalars);
      if total > COEFFS {
        a := Outside;
        return;
      }
      r, i := record.LoadCoeffs(words, r1, total);
      assert record.coeffs[..] == record.coeffs[..total] + record.coeffs[total..];
      a := Send(if c.state == CONFIG_SET then Some(Config(c.length)) else None);
    } else if c.id != PBE_ENABLE {
      a := Ignore;
    } else if c.length != 1 || c.offset != 0 {
      a := Fail;
    } else {
      var previous := record.enable;
      var (v, r1) := GetNext(words, r);
      record.enable := ToU32(v);
      r := r1;
      a := if previous == record.enable then Ignore else Send(Some(Enable));
    }
  }

  method Turn(words: Words, record: PbeRecord, buffer: InbandBuffer, r0: Reader, target0: Target, i0: int)
    returns (r: Reader, target: Target, i: int, left: bool, broken: bool)
    requires record.Valid() && buffer.Valid() && record.coeffs as object != buffer.params
    requires State(r0, record.Value(), target0, buffer.out).Ok()
    modifies record, record.coeffs, buffer, buffer.params
    ensures buffer.Valid()
    ensures var v := Step(buffer.iid, words, old(State(r0, record.Value(), target0, buffer.out)), i0);
            if broken then v == Broken
            else
              var s := State(r, record.Value(), target, buffer.out);
              s.Ok() && v == (if left then Leave(s) else Continue(s, i))
  {
    hide GetCommand, Interpret, Concat, ConfigBytes;
    target, left, broken := target0, false, false;
    var (c, r1) := GetCommand(words, r0);
    var a;
    r, a, i := Dispatch(words, c, r1, record, i0);
    if a == Ignore {
      i := i + 1;
      return;
    }
    if a == Fail {
      r, left := r.(rc := -EINVAL), true;
      return;
    }
    if a == Outside {
      broken := true;
      return;
    }
    if a.chosen.Some? {
      if buffer.length + COMMAND_IID_PAYLOAD_SZ + SizeOf(a.chosen.value) > MAX_INBAND_PARAM_SZ {
        r := r.(rc := -EINVAL);
      }
      if r.rc == 0 {
        target := a.chosen.value;
      }
    }
    if r.rc != 0 {
      left := true;
      return;
    }
    if buffer.length + HeaderSize(buffer.iid) + SizeOf(target) > MAX_INBAND_PARAM_SZ {
      broken := true;
      return;
    }
    var data := match target
                case Nothing => []
                case Enable => Le32(record.enable)
                case Config(length) => ConfigBytes(record.scalars, record.coeffs[..])[..length];
    var rc := buffer.Pack(HeaderOf(target), if target == Nothing then None else Some(data));
    r := r.(rc := rc);
    left := rc != 0;
    i := i + 1;
  }

  method Loop(words: Words, record: PbeRecord, buffer: InbandBuffer, r0: Reader, numCommands: int)
    returns (r: Reader, broken: bool)
    requires record.Valid() && buffer.Valid() && buffer.out == [] && r0.pos <= READ_LIMIT
    requires record.coeffs as object != buffer.params
    modifies record, record.coeffs, buffer, buffer.params
    ensures buffer.Valid()
    ensures match Run(buffer.iid, words, numCommands, 0, State(r0, old(record.Value()), Nothing, []))
            case Undefined => broken
            case Ended(s) => !broken && s.r == r && s.pbe == record.Value() && s.out == buffer.out
  {
    r, broken := r0, false;
    var i, left := 0, false;
    var target := Nothing;
    hide Step;
    while i < numCommands && !left
      invariant buffer.Valid()
      invariant State(r, record.Value(), target, buffer.out).Ok()
      invariant Run(buffer.iid, words, numCommands, 0, State(r0, old(record.Value()), Nothing, []))
                == var s := State(r, record.Value(), target, buffer.out);
                   if left then Ended(s) else Run(buffer.iid, words, numCommands, i, s)
      decreases !left, READ_LIMIT - r.pos, numCommands - i
    {
      r, target, i, left, broken := Turn(words, record, buffer, r, target, i);
      if broken {
        return;
      }
    }
  }

  /** `broken` marks calls that write outside the struct; they are not described further. */
  method Handle(ac: AudioClient?, record: PbeRecord, words: Words, memory: bool, iid: bool)
    returns (rc: int, broken: bool)
    requires record.Valid()
    modifies ac, record, record.coeffs
    ensures match Handled(ac != null, memory, iid, old(record.Value()), words)
            case None => broken
            case Some((d, pbe)) =>
              !broken && rc == d.rc && record.Value() == pbe
              && (ac != null ==> ac.delivered == old(ac.delivered) + Deliveries(d))
  {
    broken := false;
    var p := ReadPrologue(words, ac != null, memory);
    if p.Refused? {
      rc := p.rc;
      return;
    }
    var buffer := new InbandBuffer(iid);
    var r: Reader;
    r, broken := Loop(words, record, buffer, p.r, p.numCommands);
    if broken {
      rc := -EINVAL;
      return;
    }
    ConcatNonEmpty(iid, buffer.out);
    rc := r.rc;
    if buffer.length > 0 && rc == 0 {
      ac.SetPpParams(buffer.params, buffer.length);
    }
  }
}
