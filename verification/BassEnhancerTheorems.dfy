/** What the PBE handler guarantees: when it stays in its struct, what it delivers, and where its counter goes. */
module BassEnhancerTheorems {
  import opened Machine
  import opened ParamPacking
  import opened CommandStream
  import opened BassEnhancer

  // ---- When a call leaves its struct ----

  /** The coefficient run fits the struct exactly for band-pass orders up to 3 with a third-order crossover, else 5. */
  lemma RunFitsIff(scalars: ScalarFields)
    ensures RunLength(scalars) <= COEFFS <==> scalars[4] <= (if scalars[3] == 3 then 3 else 5)
  {
  }

  /** What the reader yields j words on: the word there, or the error value beyond the limit or after an error. */
  function WordAt(words: Words, r: Reader, j: nat): int {
    if r.rc == 0 && r.pos + j < READ_LIMIT then words[r.pos + j] else -EINVAL
  }

  lemma {:induction false} RunWords(words: Words, r: Reader, n: nat, j: nat)
    requires j < n
    ensures ReadRun(words, r, n).0[j] == WordAt(words, r, j)
    decreases n
  {
    var (v, r1) := GetNext(words, r);
    if j > 0 {
      RunWords(words, r1, n - 1, j - 1);
    }
  }

  /**
    * A configuration that passes its checks and whose band-pass order, the fifth of its words, is too large for the
    * crossover order in the fourth.
    */
  predicate LeavesStruct(words: Words, c: Command, r: Reader) {
    && c.id == PBE_CONFIG
    && PBE_CONFIG_PARAM_LEN <= c.length <= CONFIG_SZ
    && c.offset == 0
    && ToU16(WordAt(words, r, 4)) > (if ToU16(WordAt(words, r, 3)) == 3 then 3 else 5)
  }

  lemma OverrunIff(words: Words, c: Command, r: Reader, pbe: Pbe, i: int)
    ensures Interpret(words, c, r, pbe, i) == Overrun <==> LeavesStruct(words, c, r)
  {
    hide ReadRun, GetNext, RunLength, WordAt;
    if c.id == PBE_CONFIG && PBE_CONFIG_PARAM_LEN <= c.length <= CONFIG_SZ && c.offset == 0 {
      var scalars := ToScalars(ReadRun(words, r, SCALARS).0);
      RunWords(words, r, SCALARS, 3);
      RunWords(words, r, SCALARS, 4);
      RunFitsIff(scalars);
      assert scalars[3] == ToU16(WordAt(words, r, 3)) && scalars[4] == ToU16(WordAt(words, r, 4));
    }
  }

  /**
    * A configuration cut off before its fifth word is not refused: the error value read for it is an order far
    * too large.
    */
  lemma CutOffConfigLeavesStruct(words: Words, c: Command, r: Reader, pbe: Pbe, i: int)
    requires c.id == PBE_CONFIG && PBE_CONFIG_PARAM_LEN <= c.length <= CONFIG_SZ && c.offset == 0
    requires r.rc != 0 || r.pos + 4 >= READ_LIMIT
    ensures Interpret(words, c, r, pbe, i) == Overrun
  {
    OverrunIff(words, c, r, pbe, i);
  }

  /**
    * One command on an otherwise arbitrary array: crossover order 3 with band-pass order 4 is one coefficient
    * section too many.
    */
  lemma StructCanBeLeft(iid: bool, pbe: Pbe, words: Words)
    requires words[0] == 0 && words[1] == 1 && At(words, 2, [PBE_CONFIG, CONFIG_SET, 0, PBE_CONFIG_PARAM_LEN])
    requires words[9] == 3 && words[10] == 4
    ensures Handled(true, true, iid, pbe, words) == None
  {
    hide Interpret, GetCommand;
    var c, r := Command(PBE_CONFIG, CONFIG_SET, 0, PBE_CONFIG_PARAM_LEN), Reader(6, 0);
    CommandAt(words, 2, [PBE_CONFIG, CONFIG_SET, 0, PBE_CONFIG_PARAM_LEN], c);
    OverrunIff(words, c, r, pbe, 0);
    assert Open(words, true, true) == Accepted(1, Reader(2, 0));
    assert Step(iid, words, State(Reader(2, 0), pbe, Nothing, []), 0) == Broken;
  }

  // ---- Delivery ----

  /**
    * Each word read pays for six bytes: 252 for the 48 words or more of a configuration, 20 for the five of an
    * ENABLE.
    */
  ghost predicate Paid(iid: bool, s: State) {
    s.Ok() && 2 <= s.r.pos && s.Length(iid) <= 6 * (s.r.pos - 2)
  }

  lemma {:induction false} InterpretCost(words: Words, c: Command, r: Reader, pbe: Pbe, i: int)
    ensures var e := Interpret(words, c, r, pbe, i);
            && (e.Pack? && e.r.rc == 0 && (e.chosen == None || e.chosen.value.Config?) ==> e.r.pos >= r.pos + 44)
            && (e.Skip? && r.rc != 0 ==> e.r.rc != 0)
  {
  }

  /** One turn: an error stays, packets stay paid for, and the struct is left exactly by an overlong coefficient run. */
  lemma {:induction false} StepPaid(iid: bool, words: Words, s: State, i: int)
    requires Paid(iid, s)
    ensures var v := Step(iid, words, s, i);
            var (c, r) := GetCommand(words, s.r);
            && (v.Broken? <==> LeavesStruct(words, c, r))
            && (v.Continue? ==> Paid(iid, v.s) && (s.r.rc != 0 ==> v.s.r.rc != 0))
            && (v.Leave? ==> v.s.r.rc != 0)
  {
    hide GetCommand, Interpret, Concat, ConfigBytes, LeavesStruct;
    var (c, r) := GetCommand(words, s.r);
    InterpretCost(words, c, r, s.pbe, i);
    OverrunIff(words, c, r, s.pbe, i);
    var e := Interpret(words, c, r, s.pbe, i);
    if e.Pack? && e.r.rc == 0 {
      var target := if e.chosen.Some? then e.chosen.value else s.target;
      ConcatAppend(iid, s.out, Packet(HeaderOf(target), State(e.r, e.pbe, target, s.out).Data()));
    }
  }

  /** Some turn of the run meets a configuration with too large an order. */
  predicate EverOverruns(iid: bool, words: Words, n: int, i: int, s: State)
    requires s.Ok()
    decreases READ_LIMIT - s.r.pos, n - i
  {
    i < n
    && (var (c, r) := GetCommand(words, s.r);
        LeavesStruct(words, c, r)
        || (var v := Step(iid, words, s, i); v.Continue? && EverOverruns(iid, words, n, v.i, v.s)))
  }

  lemma {:induction false} RunPaid(iid: bool, words: Words, n: int, i: int, s: State)
    requires Paid(iid, s)
    ensures var e := Run(iid, words, n, i, s);
            && (e == Undefined <==> EverOverruns(iid, words, n, i, s))
            && (e.Ended? ==> (s.r.rc != 0 ==> e.s.r.rc != 0) && (e.s.r.rc == 0 ==> e.s.Length(iid) <= 750))
    decreases READ_LIMIT - s.r.pos, n - i
  {
    hide Interpret, GetCommand, Concat, LeavesStruct;
    if i < n {
      StepPaid(iid, words, s, i);
      match Step(iid, words, s, i)
      case Broken =>
      case Leave(t) =>
      case Continue(t, i') => RunPaid(iid, words, n, i', t);
    }
  }

  /**
   On every word array: the call leaves its struct exactly if some turn meets a configuration with too large an order,
   cut-off ones included; an error delivers nothing; and a delivery is at most 750 bytes and parses into its packets.
   */
  lemma {:induction false} DeliveryIsAllOrNothing(client: bool, memory: bool, iid: bool, pbe: Pbe, words: Words)
    ensures var p := Open(words, client, memory);
            Handled(client, memory, iid, pbe, words) == None
            <==> p.Accepted? && EverOverruns(iid, words, p.numCommands, 0, State(p.r, pbe, Nothing, []))
    ensures match Handled(client, memory, iid, pbe, words)
            case None => true
            case Some((d, after)) =>
              && (d.rc != 0 ==> d.sent == None)
              && (d.sent.Some? ==>
                    && 0 < |d.sent.value| <= 750
                    && exists ps :: AllFit(ps) && Parse(iid, d.sent.value) == Some(ps))
  {
    var p := Open(words, client, memory);
    if p.Accepted? {
      RunPaid(iid, words, p.numCommands, 0, State(p.r, pbe, Nothing, []));
      var e := Run(iid, words, p.numCommands, 0, State(p.r, pbe, Nothing, []));
      if e.Ended? {
        ParseInverse(iid, e.s.out);
      }
    }
  }

  // ---- The struct image ----

  function DecodeConfig(b: seq<uint8>): (seq<uint32>, seq<uint32>)
    requires |b| == CONFIG_SZ
  {
    (HalvesOf(b[..24]) + WordsOf(b[24..40]) + HalvesOf(b[40..56]), WordsOf(b[56..]))
  }

  /** The packed image gives back all 24 scalars and all 45 coefficients. */
  lemma ConfigImageIsFaithful(scalars: ScalarFields, coeffs: CoeffFields)
    ensures DecodeConfig(ConfigBytes(scalars, coeffs)) == (scalars, coeffs)
  {
    hide HalfBytesOf, BytesOf, HalvesOf, WordsOf;
    var b := ConfigBytes(scalars, coeffs);
    var low, times, high := Narrow(scalars[..12]), scalars[12..16], Narrow(scalars[16..]);
    HalvesOfBytes(low);
    WordsOfBytes(times);
    HalvesOfBytes(high);
    WordsOfBytes(coeffs);
    assert b[..24] == HalfBytesOf(low) && b[24..40] == BytesOf(times);
    assert b[40..56] == HalfBytesOf(high) && b[56..] == BytesOf(coeffs);
    assert low + times + high == scalars;
  }
}
