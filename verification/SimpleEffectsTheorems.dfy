/** What the virtualizer, reverb and bass-boost handlers guarantee, over every word array and every command list. */
module SimpleEffectsTheorems {
  import opened Machine
  import opened ParamPacking
  import opened CommandStream
  import opened SimpleEffects

  // ---- Error stickiness and delivery ----

  lemma {:induction false} ErrorNeverLost(iid: bool, m: Module, words: Words, n: int, i: int, s: State)
    requires s.Ok(m) && s.r.rc != 0
    ensures Run(iid, m, words, n, i, s).r.rc != 0
    ensures Finish(iid, Run(iid, m, words, n, i, s)).sent == None
    decreases n - i
  {
    if i < n {
      match Step(iid, m, words, s)
      case Leave(t) =>
      case Continue(t) => ErrorNeverLost(iid, m, words, n, i + 1, t);
    }
  }

  // ---- Emission is paid for by consumption ----

  lemma StepStaysPaid(iid: bool, m: Module, words: Words, s: State)
    requires s.Ok(m) && s.Paid()
    ensures Step(iid, m, words, s).s.Paid()
  {
  }

  lemma {:induction false} RunStaysPaid(iid: bool, m: Module, words: Words, n: int, i: int, s: State)
    requires s.Ok(m) && s.Paid()
    ensures Run(iid, m, words, n, i, s).Paid()
    decreases n - i
  {
    if i < n {
      StepStaysPaid(iid, m, words, s);
      match Step(iid, m, words, s)
      case Leave(t) =>
      case Continue(t) => RunStaysPaid(iid, m, words, n, i + 1, t);
    }
  }

  /**
   On every word array: an error delivers nothing, success delivers one block that parses back into the packets
   of the final state, at most 25 of them and 500 bytes, whether or not the commands took the length check.
   */
  lemma {:induction false} DeliveryIsAllOrNothing(
      client: bool, memory: bool, iid: bool, m: Module, fields: seq<uint32>, words: Words)
    requires |fields| == |m.paramIds| > 0
    ensures var (d, after) := Handled(client, memory, iid, m, fields, words);
            && |after| == |fields|
            && (d.rc != 0 ==> d.sent == None)
            && (d.sent.Some? ==> 0 < |d.sent.value| <= 500)
            && (d.sent.Some? ==>
                  exists ps :: AllSmall(ps) && 0 < |ps| <= 25 && d.sent.value == Concat(iid, ps)
                               && Parse(iid, d.sent.value) == Some(ps))
  {
    var p := Open(words, client, memory);
    if p.Accepted? {
      var s := Run(iid, m, words, p.numCommands, 0, Start(fields, p.r));
      RunStaysPaid(iid, m, words, p.numCommands, 0, Start(fields, p.r));
      ConcatLength(iid, s.out);
      ParseInverse(iid, s.out);
    }
  }

  // ---- The command language: encoding, meaning, refinement ----

  /** A command a client may write: one of the module's own, with any configuration state, or a foreign one. */
  datatype Cmd =
    | Known(k: nat, state: uint32, value: int)
    | Foreign(id: uint32, state: uint32, offset: uint32, length: uint32)

  predicate InModule(m: Module, c: Cmd) {
    match c
    case Known(k, _, _) => k < |m.paramIds| && m.enableCommand + k < 0x1_0000_0000
    case Foreign(id, _, _, _) => !(m.enableCommand <= id < m.enableCommand + |m.paramIds|)
  }

  predicate AllInModule(m: Module, cs: seq<Cmd>) {
    forall j :: 0 <= j < |cs| ==> InModule(m, cs[j])
  }

  function Encode(m: Module, c: Cmd): seq<int> {
    match c
    case Known(k, state, value) => [m.enableCommand + k, state, 0, 1, value]
    case Foreign(id, state, offset, length) => [id, state, offset, length]
  }

  function EncodeAll(m: Module, cs: seq<Cmd>): seq<int> {
    if cs == [] then [] else Encode(m, cs[0]) + EncodeAll(m, cs[1..])
  }

  // ---- Its grammar, on arbitrary words ----

  predicate IsCommandOf(m: Module, id: int) {
    m.enableCommand <= id < m.enableCommand + |m.paramIds|
  }

  /** The command that lies at `pos`, unless it is malformed or reaches beyond the limit. */
  function Read(m: Module, words: Words, pos: nat): (c: Option<Cmd>)
    ensures c.Some? ==> InModule(m, c.value) && pos + |Encode(m, c.value)| <= READ_LIMIT
  {
    if pos + 4 > READ_LIMIT then None
    else
      var id, state := ToU32(words[pos]), ToU32(words[pos + 1]);
      var offset, length := ToU32(words[pos + 2]), ToU32(words[pos + 3]);
      if !IsCommandOf(m, id) then Some(Foreign(id, state, offset, length))
      else if length != 1 || offset != 0 || pos + 5 > READ_LIMIT then None
      else Some(Known(id - m.enableCommand, state, words[pos + 4]))
  }

  function ReadAll(m: Module, words: Words, pos: nat, n: nat): (l: Listing<Cmd>)
    ensures AllInModule(m, l.cs)
    decreases n
  {
    if n == 0 then Listing([], pos, true)
    else
      var c := Read(m, words, pos);
      if c.None? then Listing([], pos, false)
      else
        var rest := ReadAll(m, words, pos + |Encode(m, c.value)|, n - 1);
        Listing([c.value] + rest.cs, rest.end, rest.whole)
  }

  lemma {:induction false} ReadInverse(m: Module, words: Words, pos: nat, c: Cmd)
    requires InModule(m, c) && At(words, pos, Encode(m, c))
    ensures Read(m, words, pos) == Some(c)
  {
    HeadAt(words, pos, Encode(m, c));
    if c.Known? {
      AtElement(words, pos, Encode(m, c), 4);
    }
  }

  lemma {:induction false} ReadAllInverse(m: Module, words: Words, pos: nat, cs: seq<Cmd>)
    requires AllInModule(m, cs) && At(words, pos, EncodeAll(m, cs))
    ensures ReadAll(m, words, pos, |cs|) == Listing(cs, pos + |EncodeAll(m, cs)|, true)
    decreases |cs|
  {
    hide InModule, Encode, At, Read;
    if cs != [] {
      AtSplit(words, pos, Encode(m, cs[0]), EncodeAll(m, cs[1..]));
      assert InModule(m, cs[0]);
      ReadInverse(m, words, pos, cs[0]);
      ReadAllInverse(m, words, pos + |Encode(m, cs[0])|, cs[1..]);
      assert [cs[0]] + cs[1..] == cs;
    }
  }

  /**
    * An unreadable command leaves the record as it was, unless only its value is missing: the error value is
    * stored for it.
    */
  function Leftover(m: Module, words: Words, pos: nat, fields: seq<uint32>): seq<uint32>
    requires |fields| == |m.paramIds|
  {
    if pos + 4 != READ_LIMIT then fields
    else
      var k := ToU32(words[pos]) - m.enableCommand;
      if 0 <= k < |fields| && ToU32(words[pos + 2]) == 0 && ToU32(words[pos + 3]) == 1 then fields[k := ToU32(-EINVAL)]
      else fields
  }

  // ---- What a command means ----

  datatype Fold = Fold(fields: seq<uint32>, target: Option<nat>, out: seq<Packet>)

  /** The meaning of one command: set the field; ENABLE speaks only on a change; everything else always speaks. */
  function Apply(m: Module, f: Fold, c: Cmd): (g: Fold)
    requires InModule(m, c) && |f.fields| == |m.paramIds| && (f.target.Some? ==> f.target.value < |f.fields|)
    ensures |g.fields| == |m.paramIds| && (g.target.Some? ==> g.target.value < |g.fields|)
  {
    match c
    case Foreign(_, _, _, _) => f
    case Known(k, state, value) =>
      var fields := f.fields[k := ToU32(value)];
      if k == 0 && fields == f.fields then f
      else
        var target := if k == 0 || state == CONFIG_SET then Some(k) else f.target;
        Fold(fields, target, f.out + [PacketFor(m, fields, target)])
  }

  function ApplyAll(m: Module, f: Fold, cs: seq<Cmd>): (g: Fold)
    requires AllInModule(m, cs) && |f.fields| == |m.paramIds| && (f.target.Some? ==> f.target.value < |f.fields|)
    ensures |g.fields| == |m.paramIds| && (g.target.Some? ==> g.target.value < |g.fields|)
    decreases |cs|
  {
    if cs == [] then f else ApplyAll(m, Apply(m, f, cs[0]), cs[1..])
  }

  /** A turn does what the command at the reader says, and ends in an error exactly if none can be read there. */
  lemma {:induction false} StepReads(iid: bool, m: Module, words: Words, s: State)
    requires s.Ok(m) && s.Paid() && s.r.rc == 0
    ensures
      var c, v := Read(m, words, s.r.pos), Step(iid, m, words, s);
      if c.None? then
        v.s.r.rc == -EINVAL && v.s.fields == Leftover(m, words, s.r.pos, s.fields)
      else
        var f := Apply(m, Fold(s.fields, s.target, s.out), c.value);
        v == Continue(State(Reader(s.r.pos + |Encode(m, c.value)|, 0), f.fields, f.target, f.out))
  {
    hide Concat, Le32, GetCommand;
    ConcatLength(iid, s.out);
    if s.r.pos + 4 <= READ_LIMIT {
      HeaderIsRead(words, s.r.pos);
      var c := Read(m, words, s.r.pos);
      if c.Some? && c.value.Known? {
        var k, x := c.value.k, ToU32(c.value.value);
        assert s.fields[k := x] == s.fields <==> s.fields[k] == x;
      }
    } else {
      TruncatedHeader(words, s.r.pos);
    }
  }

  lemma TruncatedHeader(words: Words, pos: nat)
    requires pos <= READ_LIMIT < pos + 4
    ensures GetCommand(words, Reader(pos, 0)).0.length == ToU32(-EINVAL)
    ensures GetCommand(words, Reader(pos, 0)).1.rc == -EINVAL
  {
  }

  /** After a read error nothing is read, stored or packed any more. */
  lemma {:induction false} ErrorIsFinal(iid: bool, m: Module, words: Words, n: int, i: int, s: State)
    requires s.Ok(m) && s.r.rc == -EINVAL && !IsCommandOf(m, ToU32(-EINVAL))
    ensures Run(iid, m, words, n, i, s) == s
    decreases n - i
  {
    if i < n {
      ErrorStays(words, s.r);
      ErrorIsFinal(iid, m, words, n, i + 1, s);
    }
  }

  /** The whole loop is the fold over the commands read, and fails where one cannot be read. */
  lemma {:induction false} RunReads(iid: bool, m: Module, words: Words, n: int, i: int, s: State)
    requires s.Ok(m) && s.Paid() && s.r.rc == 0
    ensures
      var l, t := ReadAll(m, words, s.r.pos, if i < n then n - i else 0), Run(iid, m, words, n, i, s);
      var f := ApplyAll(m, Fold(s.fields, s.target, s.out), l.cs);
      if l.whole then t == State(Reader(l.end, 0), f.fields, f.target, f.out)
      else
        && t.r.rc != 0
        && (!IsCommandOf(m, ToU32(-EINVAL)) ==> t.r.rc == -EINVAL && t.fields == Leftover(m, words, l.end, f.fields))
    decreases n - i
  {
    hide Step, Apply, Encode, Read, Leftover;
    if i < n {
      StepReads(iid, m, words, s);
      StepStaysPaid(iid, m, words, s);
      var c, v := Read(m, words, s.r.pos), Step(iid, m, words, s);
      if c.None? {
        if v.Continue? {
          ErrorNeverLost(iid, m, words, n, i + 1, v.s);
          if !IsCommandOf(m, ToU32(-EINVAL)) {
            ErrorIsFinal(iid, m, words, n, i + 1, v.s);
          }
        }
      } else {
        var rest := ReadAll(m, words, v.s.r.pos, n - i - 1);
        assert ([c.value] + rest.cs)[1..] == rest.cs;
        RunReads(iid, m, words, n, i + 1, v.s);
      }
    }
  }

  /**
    * Every call, on every word array: without a client, with an error value for the device or the count, or
    * without memory for its buffer it fails at once. Otherwise it fails, sending nothing, exactly if an announced
    * command cannot be read, the commands before it being kept unless the error value reads as a command of the
    * effect; and if all can, it is the left fold over them, in record and packets.
    */
  lemma {:induction false} HandlerReadsAll(
      client: bool, memory: bool, iid: bool, m: Module, fields: seq<uint32>, words: Words)
    requires |fields| == |m.paramIds| > 0
    ensures
      var h, l := Handled(client, memory, iid, m, fields, words), ReadAll(m, words, 2, NumCommands(words));
      var f := ApplyAll(m, Fold(fields, None, []), l.cs);
      if !client || ToS32(words[0]) == -EINVAL || ToS32(words[1]) == -EINVAL then h == (Delivery(-EINVAL, None), fields)
      else if !memory then h == (Delivery(-ENOMEM, None), fields)
      else if !l.whole then
        && h.0.rc != 0 && h.0.sent == None
        && (!IsCommandOf(m, ToU32(-EINVAL)) ==>
              h == (Delivery(-EINVAL, None), Leftover(m, words, l.end, f.fields)))
      else
        && AllSmall(f.out)
        && h == (Delivery(0, if f.out == [] then None else Some(Concat(iid, f.out))), f.fields)
  {
    hide Run, ReadAll, ApplyAll, Leftover;
    var p := Open(words, client, memory);
    if p.Accepted? {
      RunReads(iid, m, words, p.numCommands, 0, Start(fields, Reader(2, 0)));
    }
  }

  /** An array holding the device, the count and the encoded commands, with anything behind them. */
  predicate Holds(m: Module, words: Words, cs: seq<Cmd>) {
    && ToS32(words[0]) != -EINVAL
    && words[1] == |cs|
    && At(words, 2, EncodeAll(m, cs))
  }

  lemma {:induction false} EncodingLength(m: Module, cs: seq<Cmd>)
    ensures 4 * |cs| <= |EncodeAll(m, cs)|
  {
    if cs != [] {
      EncodingLength(m, cs[1..]);
    }
  }

  /** Refinement: on every encoded command list that fits the array, the handler is the left fold over the commands. */
  lemma {:induction false} HandlerIsFold(iid: bool, m: Module, fields: seq<uint32>, words: Words, cs: seq<Cmd>)
    requires |fields| == |m.paramIds| > 0 && AllInModule(m, cs) && Holds(m, words, cs)
    ensures var f := ApplyAll(m, Fold(fields, None, []), cs);
            && AllSmall(f.out)
            && Handled(true, true, iid, m, fields, words)
               == (Delivery(0, if f.out == [] then None else Some(Concat(iid, f.out))), f.fields)
  {
    hide Handled, ReadAll, ApplyAll, Leftover, EncodeAll;
    EncodingLength(m, cs);
    ReadAllInverse(m, words, 2, cs);
    HandlerReadsAll(true, true, iid, m, fields, words);
  }

  /** The three effects of this form. */
  predicate Shipped(m: Module) {
    m == VIRTUALIZER || m == REVERB || m == BASS_BOOST
  }

  predicate OwnOrForeign(m: Module, c: Cmd) {
    if c.Known? then c.k < |m.paramIds| else !IsCommandOf(m, c.id)
  }

  /** Their commands are 32-bit ids, disjoint between the effects, and no two fields of one share a parameter. */
  lemma {:induction false} TablesAreSeparate(m: Module, o: Module, id: int)
    requires Shipped(m) && Shipped(o) && IsCommandOf(m, id)
    ensures |m.paramIds| > 0 && id < 0x1_0000_0000 && id != ToU32(-EINVAL) && (IsCommandOf(o, id) <==> o == m)
    ensures forall j, k :: 0 <= j < k < |m.paramIds| ==> m.paramIds[j] != m.paramIds[k]
  {
  }

  /**
    * So the virtualizer, reverb and bass-boost handlers are folds over any list of the effect's fields and
    * foreign commands.
    */
  lemma {:induction false} ShippedHandlersAreFolds(
      iid: bool, m: Module, fields: seq<uint32>, words: Words, cs: seq<Cmd>)
    requires Shipped(m) && |fields| == |m.paramIds| && Holds(m, words, cs)
    requires forall j :: 0 <= j < |cs| ==> OwnOrForeign(m, cs[j])
    ensures AllInModule(m, cs)
    ensures var f := ApplyAll(m, Fold(fields, None, []), cs);
            && AllSmall(f.out)
            && Handled(true, true, iid, m, fields, words)
               == (Delivery(0, if f.out == [] then None else Some(Concat(iid, f.out))), f.fields)
  {
    hide ApplyAll, Handled, Holds;
    assert |m.paramIds| > 0 && m.enableCommand + |m.paramIds| <= 0x1_0000_0000;
    HandlerIsFold(iid, m, fields, words, cs);
  }

  // ---- All-SET streams, described without the handler's memory of earlier commands ----

  predicate AllSet(cs: seq<Cmd>) {
    forall j :: 0 <= j < |cs| ==> cs[j].Known? && cs[j].state == CONFIG_SET
  }

  /** One packet per command, in order, with the command's own parameter and value; an unchanged ENABLE is skipped. */
  function Announced(m: Module, flag: uint32, cs: seq<Cmd>): seq<Packet>
    requires AllInModule(m, cs) && AllSet(cs)
    decreases |cs|
  {
    if cs == [] then []
    else
      var c := cs[0];
      var v := ToU32(c.value);
      var packet := Packet(Header(m.moduleId, 0, m.paramIds[c.k], FIELD_SZ), Le32(v));
      if c.k != 0 then [packet] + Announced(m, flag, cs[1..])
      else if v == flag then Announced(m, flag, cs[1..])
      else [packet] + Announced(m, v, cs[1..])
  }

  /** The last value written to field `k`, or what it held. */
  function LastWrite(k: nat, old_: uint32, cs: seq<Cmd>): uint32
    decreases |cs|
  {
    if cs == [] then old_
    else LastWrite(k, if cs[0].Known? && cs[0].k == k then ToU32(cs[0].value) else old_, cs[1..])
  }

  lemma {:induction false} FoldKeepsLastWrites(m: Module, f: Fold, cs: seq<Cmd>)
    requires AllInModule(m, cs) && |f.fields| == |m.paramIds| && (f.target.Some? ==> f.target.value < |f.fields|)
    ensures forall k :: 0 <= k < |f.fields| ==> ApplyAll(m, f, cs).fields[k] == LastWrite(k, f.fields[k], cs)
    decreases |cs|
  {
    if cs != [] {
      FoldKeepsLastWrites(m, Apply(m, f, cs[0]), cs[1..]);
    }
  }

  lemma {:induction false} FoldOfSetsIsAnnounced(m: Module, f: Fold, cs: seq<Cmd>)
    requires AllInModule(m, cs) && AllSet(cs) && |f.fields| == |m.paramIds| > 0
    requires f.target.Some? ==> f.target.value < |f.fields|
    ensures ApplyAll(m, f, cs).out == f.out + Announced(m, f.fields[0], cs)
    decreases |cs|
  {
    hide Le32, ToU32;
    if cs != [] {
      FoldOfSetsIsAnnounced(m, Apply(m, f, cs[0]), cs[1..]);
    }
  }

  /** On a list of SET commands the DSP is told exactly what was commanded, and the record ends with the last writes. */
  lemma {:induction false} SetStreamsAreAnnounced(iid: bool, m: Module, fields: seq<uint32>, words: Words, cs: seq<Cmd>)
    requires |fields| == |m.paramIds| > 0 && AllInModule(m, cs) && AllSet(cs) && Holds(m, words, cs)
    ensures var ps := Announced(m, fields[0], cs);
            var (d, after) := Handled(true, true, iid, m, fields, words);
            && AllSmall(ps)
            && d == Delivery(0, if ps == [] then None else Some(Concat(iid, ps)))
            && |after| == |fields| && forall k :: 0 <= k < |fields| ==> after[k] == LastWrite(k, fields[k], cs)
  {
    HandlerIsFold(iid, m, fields, words, cs);
    FoldOfSetsIsAnnounced(m, Fold(fields, None, []), cs);
    FoldKeepsLastWrites(m, Fold(fields, None, []), cs);
    assert [] + Announced(m, fields[0], cs) == Announced(m, fields[0], cs);
  }

  /**
   A CACHE or GET command is not silent: it stores its value, then repeats the packet chosen before it, which carries
   the new value exactly when the earlier choice was the same field.
   */
  lemma {:induction false} CacheRepeatsEarlierChoice(m: Module, f: Fold, c: Cmd)
    requires InModule(m, c) && c.Known? && c.k != 0 && c.state != CONFIG_SET
    requires |f.fields| == |m.paramIds| && (f.target.Some? ==> f.target.value < |f.fields|)
    ensures var g := Apply(m, f, c);
            && g.target == f.target && |g.out| == |f.out| + 1
            && g.out[|f.out|] == (match f.target
                                  case None => Packet(Header(m.moduleId, 0, 0, 0), [])
                                  case Some(k) =>
                                    Packet(Header(m.moduleId, 0, m.paramIds[k], FIELD_SZ), Le32(g.fields[k])))
            && (f.fields[c.k] != ToU32(c.value) ==>
                  (g.out[|f.out|] != PacketFor(m, f.fields, f.target) <==> f.target == Some(c.k)))
  {
    if f.target == Some(c.k) {
      Le32Inverse(f.fields[c.k]);
      Le32Inverse(ToU32(c.value));
    }
  }

  // ---- The DSP's side ----

  /** The effect's module at the DSP; the parameters of its fields follow the module's number in order. */
  function DspModule(m: Module): uint32
    requires Shipped(m)
  {
    if m == VIRTUALIZER then 0x108A5 else if m == REVERB then 0x108AA else 0x108A1
  }

  /** A parameter received replaces the field it is for. */
  function Receive(m: Module, view: seq<uint32>, p: Packet): (v: seq<uint32>)
    requires Shipped(m)
    ensures |v| == |view|
  {
    var k := p.hdr.paramId - DspModule(m) - 1;
    if p.hdr.moduleId == DspModule(m) && 0 <= k < |view| && |p.data| == FIELD_SZ then view[k := FromLe32(p.data)]
    else view
  }

  function ReceiveAll(m: Module, view: seq<uint32>, ps: seq<Packet>): (v: seq<uint32>)
    requires Shipped(m)
    ensures |v| == |view|
    decreases |ps|
  {
    if ps == [] then view else Receive(m, ReceiveAll(m, view, ps[..|ps| - 1]), ps[|ps| - 1])
  }

  predicate OnlySets(cs: seq<Cmd>) {
    forall j :: 0 <= j < |cs| ==> cs[j].Known? ==> cs[j].state == CONFIG_SET
  }

  lemma {:induction false} SetIsHeard(m: Module, view: seq<uint32>, f: Fold, c: Cmd)
    requires Shipped(m) && InModule(m, c) && (c.Known? ==> c.state == CONFIG_SET)
    requires |view| == |f.fields| == |m.paramIds| && (f.target.Some? ==> f.target.value < |f.fields|)
    requires ReceiveAll(m, view, f.out) == f.fields
    ensures ReceiveAll(m, view, Apply(m, f, c).out) == Apply(m, f, c).fields
  {
    hide Le32, Receive, ReceiveAll, PacketFor, Shipped;
    var g := Apply(m, f, c);
    if g.out != f.out {
      ReceiveOneMore(m, view, f.out, g.out[|f.out|]);
      FieldIsHeard(m, f.fields, g.fields, c.k);
      assert f.fields[c.k := g.fields[c.k]] == g.fields;
    }
  }

  lemma ReceiveOneMore(m: Module, view: seq<uint32>, ps: seq<Packet>, p: Packet)
    requires Shipped(m)
    ensures ReceiveAll(m, view, ps + [p]) == Receive(m, ReceiveAll(m, view, ps), p)
  {
    hide Receive, Shipped;
    assert (ps + [p])[..|ps|] == ps;
  }

  lemma FieldIsHeard(m: Module, view: seq<uint32>, fields: seq<uint32>, k: nat)
    requires Shipped(m) && |view| == |fields| == |m.paramIds| && k < |fields|
    ensures Receive(m, view, PacketFor(m, fields, Some(k))) == view[k := fields[k]]
  {
    hide Le32, FromLe32;
    Le32Inverse(fields[k]);
    assert m.paramIds[k] == DspModule(m) + 1 + k;
  }

  lemma {:induction false} SetsAreHeard(m: Module, view: seq<uint32>, f: Fold, cs: seq<Cmd>)
    requires Shipped(m) && AllInModule(m, cs) && OnlySets(cs)
    requires |view| == |f.fields| == |m.paramIds| && (f.target.Some? ==> f.target.value < |f.fields|)
    requires ReceiveAll(m, view, f.out) == f.fields
    ensures ReceiveAll(m, view, ApplyAll(m, f, cs).out) == ApplyAll(m, f, cs).fields
    decreases |cs|
  {
    hide Apply, ReceiveAll, InModule;
    if cs != [] {
      assert InModule(m, cs[0]);
      SetIsHeard(m, view, f, cs[0]);
      SetsAreHeard(m, view, Apply(m, f, cs[0]), cs[1..]);
    }
  }

  /**
    * A DSP whose parameters are those of the record, receiving what a call with SET and foreign commands sends,
    * has those of the record again; and a call that sends nothing leaves the record.
    */
  lemma {:induction false} DspStaysInStep(iid: bool, m: Module, fields: seq<uint32>, words: Words, cs: seq<Cmd>)
    requires Shipped(m) && |fields| == |m.paramIds| && AllInModule(m, cs) && OnlySets(cs) && Holds(m, words, cs)
    ensures
      var (d, after) := Handled(true, true, iid, m, fields, words);
      if d.sent.None? then after == fields
      else Parse(iid, d.sent.value).Some? && ReceiveAll(m, fields, Parse(iid, d.sent.value).value) == after
  {
    hide ApplyAll, Handled, Holds, Parse, Concat;
    assert |m.paramIds| > 0;
    HandlerIsFold(iid, m, fields, words, cs);
    SetsAreHeard(m, fields, Fold(fields, None, []), cs);
    ParseInverse(iid, ApplyAll(m, Fold(fields, None, []), cs).out);
  }
}
