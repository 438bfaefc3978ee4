/**
  * What any order of the SLIMbus callbacks keeps: the ladder of states, every channel handle accounted
  * for, and the port group held exactly while running. For the last two, the exact faults of the caller
  * or of the bus that break the account.
  */
module SlimbusDaiTheorems {
  import opened Machine
  import opened SlimbusDai

  datatype Event =
    | ChannelMap(num: uint32, slots: seq<uint32>)
    | PrepareCall
    | ShutdownCall
    | Control(enable: bool)

  predicate Callable(e: Event) {
    e.ChannelMap? ==> e.num <= |e.slots|
  }

  predicate Ladder(d: Dai) {
    && WellFormed(d)
    && (Running in d.status ==> Prepared in d.status)
    && (Prepared in d.status ==> Initialized in d.status && d.dmaData)
  }

  /** One callback. The ladder of states holds after it whatever the state of the bus. */
  function Step(d: Dai, e: Event, r: Replies): (v: Dai)
    requires Ladder(d) && Callable(e)
    ensures Ladder(v)
  {
    match e
    case ChannelMap(num, slots) => SetChannelMap(d, num, slots).0
    case PrepareCall => Prepare(d, r).0
    case ShutdownCall => Shutdown(d, r)
    case Control(enable) => ChannelControl(d, enable, r).0
  }

  /** While running, no callback gives a channel back or takes another. */
  lemma RunningKeepsChannels(d: Dai, e: Event, r: Replies)
    requires Ladder(d) && Callable(e) && Running in d.status
    ensures Step(d, e, r).outstanding == d.outstanding && Step(d, e, r).chanH == d.chanH
    ensures Prepared in Step(d, e, r).status
  {
    hide Acquire;
  }

  // ---- Channel handles ----

  /** Every handle out on loan is one of the recorded ones, with the same multiplicity; none when not prepared. */
  predicate Conserved(d: Dai)
    requires WellFormed(d)
  {
    d.outstanding == if Prepared in d.status then multiset(d.chanH[..d.chCnt]) else multiset{}
  }

  predicate AnyRefused(k: nat, r: Replies) {
    exists i :: 0 <= i < k && r.release(i) != 0
  }

  function Refused(hs: seq<Handle>, r: Replies): (m: multiset<Handle>)
    ensures m == multiset{} <==> !AnyRefused(|hs|, r)
    decreases |hs|
  {
    if hs == [] then multiset{}
    else
      var n := |hs| - 1;
      var m := Refused(hs[..n], r) + (if r.release(n) != 0 then multiset{hs[n]} else multiset{});
      assert r.release(n) != 0 ==> hs[n] in m;
      assert AnyRefused(|hs|, r) <==> AnyRefused(n, r) || r.release(n) != 0;
      m
  }

  /** Exactly the refused handles stay out. */
  lemma {:induction false} RefusedStayOut(held: multiset<Handle>, hs: seq<Handle>, r: Replies)
    requires multiset(hs) <= held
    ensures Released(held, hs, r) == held - multiset(hs) + Refused(hs, r)
    decreases |hs|
  {
    if hs != [] {
      var n := |hs| - 1;
      var given, kept := multiset(hs[..n]), Refused(hs[..n], r);
      assert hs == hs[..n] + [hs[n]];
      assert multiset(hs) == given + multiset{hs[n]};
      RefusedStayOut(held, hs[..n], r);
      OneMoreReturned(held, given, kept, hs[n]);
    }
  }

  lemma ReleasedIsReturned(held: multiset<Handle>, hs: seq<Handle>, r: Replies)
    requires multiset(hs) <= held
    ensures Released(held, hs, r) == held - multiset(hs) <==> !AnyRefused(|hs|, r)
  {
    hide Released, Refused;
    RefusedStayOut(held, hs, r);
    NothingMore(held - multiset(hs), Refused(hs, r));
  }

  lemma OneMoreReturned(held: multiset<Handle>, given: multiset<Handle>, kept: multiset<Handle>, h: Handle)
    requires given + multiset{h} <= held
    ensures held - given + kept - multiset{h} == held - (given + multiset{h}) + kept
    ensures held - given + kept == held - (given + multiset{h}) + (kept + multiset{h})
  {
    assert held[h] >= given[h] + 1;
  }

  lemma NothingMore(a: multiset<Handle>, b: multiset<Handle>)
    ensures a + b == a <==> b == multiset{}
  {
    if b != multiset{} {
      assert |a + b| == |a| + |b|;
    }
  }

  /** The bus gives handles for the first k mapped channels, and refuses the next if there is one. */
  predicate GivesFirst(d: Dai, r: Replies, k: nat)
    requires WellFormed(d)
  {
    && k <= d.chCnt
    && (forall j :: 0 <= j < k ==> r.query(j, d.shCh[j]).rc == 0)
    && (k < d.chCnt ==> r.query(k, d.shCh[k]).rc != 0)
  }

  lemma GivesGranted(d: Dai, r: Replies, k: nat)
    requires WellFormed(d) && GivesFirst(d, r, k)
    ensures Granted(d, r) == k
  {
    hide Accepted;
    FirstRefusal(d.chCnt, QueryRefused(d.shCh, r), k);
  }

  lemma GivesSome(d: Dai, r: Replies) returns (k: nat)
    requires WellFormed(d)
    ensures GivesFirst(d, r, k)
  {
    hide Accepted;
    k := Granted(d, r);
    var refused := QueryRefused(d.shCh, r);
    assert k == Accepted(d.chCnt, refused);
    forall j | 0 <= j < k ensures r.query(j, d.shCh[j]).rc == 0 {
      assert !refused(j);
    }
    assert k < d.chCnt ==> refused(k);
  }

  /**
    * A prepare with work to do returns the code of the first query that is refused, and else that of the definition. It
    * is then prepared exactly if that is zero; and each channel asked for before a refusal has left its handle.
    */
  lemma {:induction false} PrepareByReplies(d: Dai, r: Replies, k: nat)
    requires WellFormed(d) && Initialized in d.status && Prepared !in d.status && GivesFirst(d, r, k)
    ensures
      var (v, rc) := Prepare(d, r);
      && rc == (if k < d.chCnt then r.query(k, d.shCh[k]).rc else r.define)
      && v.status == (if rc == 0 then d.status + {Prepared} else d.status) && v.dmaData
      && v.channelsMax == d.channelsMax && v.shCh == d.shCh && v.chCnt == d.chCnt && v.ports == d.ports
      && |v.chanH| == |d.chanH|
      && forall i :: 0 <= i < |d.chanH| ==>
           v.chanH[i] == if i < k then r.query(i, d.shCh[i]).handle else d.chanH[i]
  {
    hide Accepted, Released;
    GivesGranted(d, r, k);
  }

  /** A prepare that fails, at a query or when the channels are defined, returns exactly what it took. */
  lemma {:induction false} FailedPrepareGivesBack(d: Dai, r: Replies, k: nat)
    requires WellFormed(d) && Initialized in d.status && Prepared !in d.status && GivesFirst(d, r, k)
    requires k < d.chCnt || r.define != 0
    ensures Prepare(d, r).1 != 0 && Prepare(d, r).0.status == d.status
    ensures Prepare(d, r).0.outstanding == d.outstanding <==> !AnyRefused(k, r)
  {
    hide Accepted, Taken, Released;
    GivesGranted(d, r, k);
    var hs := Taken(k, d.shCh, r);
    var e := Queried(d, r);
    assert e.chanH[..k] == hs;
    ReleasedIsReturned(e.outstanding, hs, r);
    assert e.outstanding - multiset(hs) == d.outstanding;
  }

  /** A prepare out of turn, and a shutdown with nothing to give back, change nothing. */
  lemma OutOfTurn(d: Dai, r: Replies)
    requires WellFormed(d)
    ensures Initialized !in d.status ==> Prepare(d, r) == (d, -EINVAL)
    ensures Initialized in d.status && Prepared in d.status ==> Prepare(d, r) == (d, 0)
    ensures !d.dmaData || Prepared !in d.status || Running in d.status ==> Shutdown(d, r) == d
  {
    hide Accepted, Taken, Released;
  }

  /**
    * Any other shutdown leaves the prepared state and returns the handles of the mapped channels, but for the
    * refused.
    */
  lemma {:induction false} ShutdownReturns(d: Dai, r: Replies)
    requires WellFormed(d) && d.dmaData && Prepared in d.status && Running !in d.status
    requires multiset(d.chanH[..d.chCnt]) <= d.outstanding
    ensures
      var hs := d.chanH[..d.chCnt];
      Shutdown(d, r) ==
        d.(outstanding := d.outstanding - multiset(hs) + Refused(hs, r),
           dmaData := false,
           status := d.status - {Prepared})
  {
    hide Released, Refused;
    RefusedStayOut(d.outstanding, d.chanH[..d.chCnt], r);
  }

  /**
    * A channel map of more channels than there are ports is refused; any other is stored slot by slot, cut to 16
    * bits.
    */
  lemma MapIsStored(d: Dai, num: uint32, slots: seq<uint32>)
    requires WellFormed(d) && num <= |slots|
    ensures num > d.channelsMax ==> SetChannelMap(d, num, slots) == (d, -EINVAL)
    ensures num <= d.channelsMax ==>
      var (v, rc) := SetChannelMap(d, num, slots);
      && rc == 0 && v.chCnt == num && v == d.(shCh := v.shCh, chCnt := num) && |v.shCh| == |d.shCh|
      && forall i :: 0 <= i < |d.shCh| ==> v.shCh[i] == if i < num then ToU16(slots[i]) else d.shCh[i]
  {
  }

  /** After a new channel map, a successful prepare holds for every slot the handle of that slot's channel. */
  lemma {:induction false} HandlesAreForTheMap(d: Dai, num: uint32, slots: seq<uint32>, r: Replies)
    requires Ladder(d) && num <= |slots| && num <= d.channelsMax && Prepared !in d.status
    ensures
      var (p, rc) := Prepare(SetChannelMap(d, num, slots).0, r);
      rc == 0 ==>
      && p.chCnt == num
      && p.outstanding == d.outstanding + multiset(p.chanH[..num])
      && forall i :: 0 <= i < num ==>
           r.query(i, ToU16(slots[i])).rc == 0 && p.chanH[i] == r.query(i, ToU16(slots[i])).handle
  {
    hide Accepted, Taken, Released;
    var m := SetChannelMap(d, num, slots).0;
    if Prepare(m, r).1 == 0 {
      var p := Prepare(m, r).0;
      assert p.chanH[..num] == Taken(num, m.shCh, r);
      forall i | 0 <= i < num
        ensures r.query(i, ToU16(slots[i])).rc == 0 && p.chanH[i] == r.query(i, ToU16(slots[i])).handle
      {
        assert m.shCh[i] == ToU16(slots[i]) && p.chanH[i] == p.chanH[..num][i];
        assert !QueryRefused(m.shCh, r)(i);
      }
    }
  }

  /** Preparing again takes nothing. */
  lemma PrepareTwice(d: Dai, r: Replies, q: Replies)
    requires WellFormed(d) && Prepare(d, r).1 == 0
    ensures Prepare(Prepare(d, r).0, q) == (Prepare(d, r).0, 0)
  {
    hide Accepted, Taken, Released;
  }

  /**
    * The only ways to lose the account of the handles: a different number of channels while prepared,
    * and a release that the bus refuses.
    */
  predicate HandleFault(d: Dai, e: Event, r: Replies)
    requires Ladder(d)
  {
    match e
    case ChannelMap(num, _) => Prepared in d.status && num <= d.channelsMax && num != d.chCnt
    case PrepareCall =>
      && Initialized in d.status && Prepared !in d.status
      && exists k :: 0 <= k <= d.chCnt && GivesFirst(d, r, k) && (k < d.chCnt || r.define != 0) && AnyRefused(k, r)
    case ShutdownCall => Prepared in d.status && Running !in d.status && AnyRefused(d.chCnt, r)
    case Control(_) => false
  }

  lemma StepHandles(d: Dai, e: Event, r: Replies)
    requires Ladder(d) && Callable(e) && Conserved(d)
    ensures Conserved(Step(d, e, r)) <==> !HandleFault(d, e, r)
  {
    hide Accepted, Taken, Released, AnyRefused;
    match e
    case ChannelMap(num, slots) =>
      if HandleFault(d, e, r) {
        assert |multiset(d.chanH[..num])| == num && |multiset(d.chanH[..d.chCnt])| == d.chCnt;
      }
    case PrepareCall => PrepareHandles(d, r);
    case ShutdownCall =>
      if Prepared in d.status && Running !in d.status {
        ReleasedIsReturned(d.outstanding, d.chanH[..d.chCnt], r);
        assert d.outstanding - multiset(d.chanH[..d.chCnt]) == multiset{};
      }
    case Control(_) =>
  }

  lemma PrepareHandles(d: Dai, r: Replies)
    requires Ladder(d) && Conserved(d)
    ensures Conserved(Step(d, PrepareCall, r)) <==> !HandleFault(d, PrepareCall, r)
  {
    hide Accepted, Taken, Released, AnyRefused, GivesFirst;
    if Initialized in d.status && Prepared !in d.status {
      var k := GivesSome(d, r);
      assert forall j :: GivesFirst(d, r, j) ==> j == k by {
        forall j | GivesFirst(d, r, j) ensures j == k {
          GivesGranted(d, r, j);
          GivesGranted(d, r, k);
        }
      }
      GivesGranted(d, r, k);
      if k < d.chCnt || r.define != 0 {
        FailedPrepareGivesBack(d, r, k);
      } else {
        var v := Prepare(d, r).0;
        assert v.chanH[..v.chCnt] == Taken(d.chCnt, d.shCh, r);
      }
    }
  }

  // ---- Ports ----

  predicate PortsExact(d: Dai) {
    d.ports == if Running in d.status then 1 else 0
  }

  /** Every mapped channel can be connected. */
  predicate Connects(d: Dai, r: Replies)
    requires WellFormed(d)
  {
    forall k :: 0 <= k < d.chCnt ==> r.connect(k, d.chanH[k]) >= 0
  }

  /** Channel k is the first that cannot. */
  predicate FirstUnconnected(d: Dai, r: Replies, k: nat)
    requires WellFormed(d)
  {
    && k < d.chCnt && r.connect(k, d.chanH[k]) < 0
    && forall j :: 0 <= j < k ==> r.connect(j, d.chanH[j]) >= 0
  }

  /** The bus grants all that enabling asks of it. */
  predicate Enables(d: Dai, r: Replies)
    requires WellFormed(d)
  {
    r.alloc >= 0 && r.config >= 0 && Connects(d, r) && r.control >= 0
  }

  /**
    * Enabling a prepared interface sets it running and takes one port group exactly if the allocation, the
    * configuration, every connection and the activation answer at least zero. Otherwise it returns the code of
    * the first that does not, and changes nothing but to keep an allocated group that cannot be given back.
    */
  lemma {:induction false} EnableByReplies(d: Dai, r: Replies)
    requires WellFormed(d)
    ensures
      var (v, rc) := ChannelControl(d, true, r);
      if Prepared !in d.status then v == d && rc == -EINVAL
      else if Enables(d, r) then
        v == d.(ports := d.ports + 1, status := d.status + {Running}) && rc == r.control
      else
        && rc < 0
        && v == (if r.alloc >= 0 && r.dealloc < 0 then d.(ports := d.ports + 1) else d)
        && if r.alloc < 0 then rc == r.alloc
           else if r.config < 0 then rc == r.config
           else if Connects(d, r) then rc == r.control
           else exists k: nat :: FirstUnconnected(d, r, k) && rc == r.connect(k, d.chanH[k])
  {
    hide Accepted;
    var hs := d.chanH[..d.chCnt];
    var k := Accepted(|hs|, ConnectRefused(hs, r));
    assert forall j :: 0 <= j < k ==> !ConnectRefused(hs, r)(j) && hs[j] == d.chanH[j];
    if k < |hs| {
      assert ConnectRefused(hs, r)(k) && hs[k] == d.chanH[k];
      assert FirstUnconnected(d, r, k);
    } else {
      assert Connects(d, r);
    }
  }

  /**
    * Disabling stops it and gives the group back exactly if the removal and then the deallocation answer at least
    * zero.
    */
  lemma DisableByReplies(d: Dai, r: Replies)
    requires WellFormed(d)
    ensures
      ChannelControl(d, false, r) ==
        if Running !in d.status then (d, -EINVAL)
        else if r.control < 0 then (d, r.control)
        else if r.dealloc < 0 then (d, r.dealloc)
        else (d.(ports := d.ports - 1, status := d.status - {Running}), r.dealloc)
  {
  }

  /** A second group taken while running, or a group that could not be given back after a failure. */
  predicate PortFault(d: Dai, e: Event, r: Replies)
    requires WellFormed(d)
  {
    && e == Control(true) && Prepared in d.status && r.alloc >= 0
    && if Enables(d, r) then Running in d.status else r.dealloc < 0
  }

  lemma StepPorts(d: Dai, e: Event, r: Replies)
    requires Ladder(d) && Callable(e) && PortsExact(d)
    ensures PortsExact(Step(d, e, r)) <==> !PortFault(d, e, r)
  {
    hide Accepted, Taken, Released, Enabling, Connects;
    EnableByReplies(d, r);
  }

  /** Whichever step of the connect loop fails, the enable fails with that step's code and keeps no port. */
  lemma FailedConnect(d: Dai, r: Replies, k: nat)
    requires Ladder(d) && Prepared in d.status
    requires r.alloc >= 0 && r.config >= 0 && r.dealloc >= 0
    requires k < d.chCnt && r.connect(k, d.chanH[k]) < 0
    requires forall j :: 0 <= j < k ==> r.connect(j, d.chanH[j]) >= 0
    ensures ChannelControl(d, true, r) == (d, r.connect(k, d.chanH[k]))
  {
    FirstRefusal(d.chCnt, ConnectRefused(d.chanH[..d.chCnt], r), k);
  }

  // ---- Whole runs ----

  predicate CallableAll(script: seq<(Event, Replies)>) {
    forall k :: 0 <= k < |script| ==> Callable(script[k].0)
  }

  function After(d: Dai, script: seq<(Event, Replies)>): (v: Dai)
    requires Ladder(d) && CallableAll(script)
    ensures Ladder(v)
    decreases |script|
  {
    if script == [] then d
    else
      assert Callable(script[0].0);
      After(Step(d, script[0].0, script[0].1), script[1..])
  }

  predicate ExactThroughout(d: Dai, script: seq<(Event, Replies)>)
    requires Ladder(d) && CallableAll(script)
    decreases |script|
  {
    && Conserved(d) && PortsExact(d)
    && (script == [] ||
        (assert Callable(script[0].0); ExactThroughout(Step(d, script[0].0, script[0].1), script[1..])))
  }

  predicate NoFault(d: Dai, script: seq<(Event, Replies)>)
    requires Ladder(d) && CallableAll(script)
    decreases |script|
  {
    script == [] ||
    (&& !HandleFault(d, script[0].0, script[0].1)
     && !PortFault(d, script[0].0, script[0].1)
     && Callable(script[0].0)
     && NoFault(Step(d, script[0].0, script[0].1), script[1..]))
  }

  /** Along every run the handles and ports are accounted for after each callback, exactly if no fault occurs in it. */
  lemma {:induction false} RunIsExact(d: Dai, script: seq<(Event, Replies)>)
    requires Ladder(d) && CallableAll(script) && Conserved(d) && PortsExact(d)
    ensures ExactThroughout(d, script) <==> NoFault(d, script)
    decreases |script|
  {
    hide Step, HandleFault, PortFault, Conserved, PortsExact;
    if script != [] {
      var (e, r) := script[0];
      assert Callable(e);
      StepHandles(d, e, r);
      StepPorts(d, e, r);
      var v := Step(d, e, r);
      if Conserved(v) && PortsExact(v) {
        RunIsExact(v, script[1..]);
      }
    }
  }

  /**
    * When the bus refuses no release, a run without remapping or enabling out of turn ends with every handle and
    * port returned once shut down.
    */
  lemma {:induction false} ShutDownHoldsNothing(d: Dai, script: seq<(Event, Replies)>)
    requires Ladder(d) && CallableAll(script) && Conserved(d) && PortsExact(d) && NoFault(d, script)
    requires Prepared !in After(d, script).status
    ensures After(d, script).outstanding == multiset{} && After(d, script).ports == 0
    decreases |script|
  {
    hide Step, HandleFault, PortFault;
    if script != [] {
      var (e, r) := script[0];
      assert Callable(e);
      StepHandles(d, e, r);
      StepPorts(d, e, r);
      ShutDownHoldsNothing(Step(d, e, r), script[1..]);
    }
  }

  // ---- The faults happen ----

  const TWO_PREPARED := Dai(2, {Initialized, Prepared}, [0, 1, 0, 0], [5, 6, 0, 0], 2, true, multiset{5, 6}, 0)

  /**
    * A fresh interface comes there by mapping the channels 0 and 1 and preparing, the bus giving the handles 5
    * and 6.
    */
  lemma TwoArePrepared(r: Replies)
    requires r.query(0, 0) == QueryReply(0, 5) && r.query(1, 1) == QueryReply(0, 6) && r.define == 0
    ensures Ladder(Fresh(2)) && CallableAll([(ChannelMap(2, [0, 1]), r), (PrepareCall, r)])
    ensures After(Fresh(2), [(ChannelMap(2, [0, 1]), r), (PrepareCall, r)]) == TWO_PREPARED
  {
    var script := [(ChannelMap(2, [0, 1]), r), (PrepareCall, r)];
    assert CallableAll(script) && script[1..] == [(PrepareCall, r)];
    var d := Step(Fresh(2), script[0].0, r);
    assert d.shCh == [0, 1, 0, 0];
    GrantedAre(d, r, 2, [5, 6]);
    assert Step(d, PrepareCall, r) == TWO_PREPARED;
    assert After(Fresh(2), script) == After(d, [(PrepareCall, r)]) == After(TWO_PREPARED, []);
  }

  /** Two channels prepared, one mapped away, then shut down: the second handle is never returned. */
  lemma {:induction false} RemappingLosesAHandle(r: Replies)
    requires r.release(0) == 0
    ensures Ladder(TWO_PREPARED) && Conserved(TWO_PREPARED)
    ensures
      var v := Shutdown(SetChannelMap(TWO_PREPARED, 1, [7]).0, r);
      v.outstanding == multiset{6} && Prepared !in v.status
  {
    assert TWO_PREPARED.chanH[..2] == [5, 6];
    var m := SetChannelMap(TWO_PREPARED, 1, [7]).0;
    assert m.chanH[..1] == [5];
    assert Released(m.outstanding, [], r) == m.outstanding;
    assert Released(m.outstanding, [5], r) == multiset{6};
  }

  /** Two channels prepared, enabled twice and disabled once: a port group is held with nothing running. */
  lemma {:induction false} PortsCanLeak(r: Replies)
    requires r.alloc >= 0 && r.config >= 0 && r.control >= 0 && r.dealloc >= 0
    requires r.connect(0, 5) >= 0 && r.connect(1, 6) >= 0
    ensures
      var v := ChannelControl(ChannelControl(ChannelControl(TWO_PREPARED, true, r).0, true, r).0, false, r).0;
      v.ports == 1 && Running !in v.status
  {
    var hs := TWO_PREPARED.chanH[..2];
    assert hs == [5, 6];
    FirstRefusal(2, ConnectRefused(hs, r), 2);
    assert Enabling(hs, r) == r.control;
  }
}
