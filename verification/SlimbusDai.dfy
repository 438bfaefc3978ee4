/**
  * A SLIMbus audio interface: channel handles taken and given back by its prepare and shutdown
  * callbacks, and the port group taken by its channel control. The functions give each callback as one
  * transition; the class carries out the callbacks, with their loops and unwinding, over the arrays
  * they fill, and is proved to make exactly those transitions.
  */
module SlimbusDai {
  import opened Machine

  // A port mask has 32 bits, and both arrays hold room for the channels of both directions.
  const MAX_CHANNELS := 32

  datatype Flag = Initialized | Prepared | Running

  // A handle is an opaque number to the driver.
  type Handle = int

  datatype QueryReply = QueryReply(rc: int, handle: Handle)

  /**
    * What the bus answers during one callback, by loop position: to a query for a channel number, to a
    * connection of a handle, and to a release.
    */
  datatype Replies = Replies(
    query: (nat, uint16) -> QueryReply,
    define: int,
    release: nat -> int,
    alloc: int,
    config: int,
    connect: (nat, Handle) -> int,
    control: int,
    dealloc: int)

  /**
    * The driver's record of the interface and, in `outstanding` and `ports`, what the bus has lent it:
    * channel handles not yet released and port groups not yet deallocated.
    */
  datatype Dai = Dai(
    channelsMax: nat,
    status: set<Flag>,
    shCh: seq<uint16>,
    chanH: seq<Handle>,
    chCnt: nat,
    dmaData: bool,
    outstanding: multiset<Handle>,
    ports: int)

  /** The interface as it is probed. */
  function Fresh(channelsMax: nat): Dai {
    Dai(channelsMax, {Initialized}, seq(2 * channelsMax, _ => 0), seq(2 * channelsMax, _ => 0), 0, false, multiset{}, 0)
  }

  predicate WellFormed(d: Dai) {
    && d.chCnt <= d.channelsMax <= MAX_CHANNELS
    && |d.shCh| == |d.chanH| == 2 * d.channelsMax
  }

  /** How many of the first n answers, from position i on, come before the first refusal. */
  function Accepted(n: nat, refused: nat -> bool, i: nat := 0): (k: nat)
    requires i <= n
    ensures i <= k <= n
    ensures forall j :: i <= j < k ==> !refused(j)
    ensures k < n ==> refused(k)
    decreases n - i
  {
    if i == n || refused(i) then i else Accepted(n, refused, i + 1)
  }

  lemma FirstRefusal(n: nat, refused: nat -> bool, i: nat)
    requires i <= n && forall j :: 0 <= j < i ==> !refused(j)
    requires i < n ==> refused(i)
    ensures i == Accepted(n, refused)
  {
    hide Accepted;
  }

  /** The handles given for the first k mapped channels. */
  function Taken(k: nat, chs: seq<uint16>, r: Replies): (hs: seq<Handle>)
    requires k <= |chs|
    ensures |hs| == k
    ensures forall i :: 0 <= i < k ==> hs[i] == r.query(i, chs[i]).handle
  {
    seq(k, i requires 0 <= i < k => r.query(i, chs[i]).handle)
  }

  /** The handles still outstanding after releasing the given ones, of which the bus may refuse some. */
  function Released(held: multiset<Handle>, hs: seq<Handle>, r: Replies): multiset<Handle>
    decreases |hs|
  {
    if hs == [] then held
    else
      var rest := Released(held, hs[..|hs| - 1], r);
      if r.release(|hs| - 1) != 0 then rest else rest - multiset{hs[|hs| - 1]}
  }

  function SetChannelMap(d: Dai, num: uint32, slots: seq<uint32>): (Dai, int)
    requires WellFormed(d) && num <= |slots|
  {
    if num > d.channelsMax then (d, -EINVAL)
    else (d.(shCh := seq(num, i requires 0 <= i < num => ToU16(slots[i])) + d.shCh[num..], chCnt := num), 0)
  }

  function QueryRefused(chs: seq<uint16>, r: Replies): nat -> bool {
    (i: nat) => i < |chs| && r.query(i, chs[i]).rc != 0
  }

  /** How many of the mapped channels the bus gives a handle for before it first refuses. */
  function Granted(d: Dai, r: Replies): (k: nat)
    requires WellFormed(d)
    ensures k <= d.chCnt
  {
    Accepted(d.chCnt, QueryRefused(d.shCh, r))
  }

  lemma GrantedAre(d: Dai, r: Replies, i: nat, hs: seq<Handle>)
    requires WellFormed(d) && i == |hs| <= d.chCnt
    requires forall j :: 0 <= j < i ==> r.query(j, d.shCh[j]) == QueryReply(0, hs[j])
    requires i < d.chCnt ==> r.query(i, d.shCh[i]).rc != 0
    ensures Granted(d, r) == i && Taken(i, d.shCh, r) == hs
  {
    hide Accepted;
    FirstRefusal(d.chCnt, QueryRefused(d.shCh, r), i);
  }

  function Queried(d: Dai, r: Replies): (e: Dai)
    requires WellFormed(d)
    ensures WellFormed(e)
  {
    var hs := Taken(Granted(d, r), d.shCh, r);
    d.(chanH := hs + d.chanH[|hs|..], outstanding := d.outstanding + multiset(hs))
  }

  /** Prepare when it has work to do: the handles granted are kept only if none was refused and they can be defined. */
  function Acquire(d: Dai, r: Replies): (Dai, int)
    requires WellFormed(d)
  {
    var k := Granted(d, r);
    var e := Queried(d, r).(dmaData := true);
    if k == d.chCnt && r.define == 0 then (e.(status := d.status + {Prepared}), 0)
    else
      (e.(outstanding := Released(e.outstanding, e.chanH[..k], r)),
       if k == d.chCnt then r.define else r.query(k, d.shCh[k]).rc)
  }

  function Prepare(d: Dai, r: Replies): (Dai, int)
    requires WellFormed(d)
  {
    if Initialized !in d.status then (d, -EINVAL)
    else if Prepared in d.status then (d, 0)
    else Acquire(d, r)
  }

  function Shutdown(d: Dai, r: Replies): Dai
    requires WellFormed(d)
  {
    if !d.dmaData || Prepared !in d.status || Running in d.status then d
    else
      d.(outstanding := Released(d.outstanding, d.chanH[..d.chCnt], r),
         dmaData := false,
         status := d.status - {Prepared})
  }

  function ConnectRefused(hs: seq<Handle>, r: Replies): nat -> bool {
    (i: nat) => i < |hs| && r.connect(i, hs[i]) < 0
  }

  /** What the enabling calls that follow the allocation of the ports return; negative at the first failure. */
  function Enabling(hs: seq<Handle>, r: Replies): int {
    var k := Accepted(|hs|, ConnectRefused(hs, r));
    if r.config < 0 then r.config else if k < |hs| then r.connect(k, hs[k]) else r.control
  }

  function ChannelControl(d: Dai, enable: bool, r: Replies): (Dai, int)
    requires WellFormed(d)
  {
    if enable then
      if Prepared !in d.status then (d, -EINVAL)
      else if r.alloc < 0 then (d, r.alloc)
      else
        var rc := Enabling(d.chanH[..d.chCnt], r);
        if rc >= 0 then (d.(ports := d.ports + 1, status := d.status + {Running}), rc)
        else (if r.dealloc < 0 then d.(ports := d.ports + 1) else d, rc)
    else
      if Running !in d.status then (d, -EINVAL)
      else if r.control < 0 then (d, r.control)
      else if r.dealloc < 0 then (d, r.dealloc)
      else (d.(ports := d.ports - 1, status := d.status - {Running}), r.dealloc)
  }

  class SlimDai {
    const channelsMax: nat
    const shCh: array<uint16>
    const chanH: array<Handle>
    var status: set<Flag>
    var chCnt: nat
    var dmaData: bool
    ghost var outstanding: multiset<Handle>
    ghost var ports: int

    ghost predicate Valid()
      reads this
    {
      && chCnt <= channelsMax <= MAX_CHANNELS
      && shCh.Length == chanH.Length == 2 * channelsMax
    }

    ghost function State(): (d: Dai)
      requires Valid()
      reads this, shCh, chanH
      ensures WellFormed(d)
    {
      Dai(channelsMax, status, shCh[..], chanH[..], chCnt, dmaData, outstanding, ports)
    }

    constructor (channelsMax: nat)
      requires channelsMax <= MAX_CHANNELS
      ensures Valid() && fresh(shCh) && fresh(chanH)
      ensures State() == Fresh(channelsMax)
    {
      this.channelsMax := channelsMax;
      shCh := new uint16[2 * channelsMax](_ => 0);
      chanH := new Handle[2 * channelsMax](_ => 0);
      status := {Initialized};
      chCnt := 0;
      dmaData := false;
      outstanding := multiset{};
      ports := 0;
    }

    method PutChannelMap(num: uint32, slots: seq<uint32>) returns (ret: int)
      requires Valid() && num <= |slots|
      modifies this`chCnt, shCh
      ensures Valid() && (State(), ret) == SetChannelMap(old(State()), num, slots)
    {
      if num > channelsMax {
        return -EINVAL;
      }
      ghost var was := shCh[..];
      var i := 0;
      while i < num
        invariant 0 <= i <= num
        invariant forall j :: 0 <= j < i ==> shCh[j] == ToU16(slots[j])
        invariant forall j :: i <= j < shCh.Length ==> shCh[j] == was[j]
      {
        shCh[i] := ToU16(slots[i]);
        i := i + 1;
      }
      assert shCh[..] == seq(num, j requires 0 <= j < num => ToU16(slots[j])) + was[num..];
      chCnt := num;
      ret := 0;
    }

    /** Release of the first k handles; what the bus answers is not looked at. */
    method ReleaseFirst(k: nat, r: Replies)
      requires Valid() && k <= chanH.Length
      modifies this`outstanding
      ensures outstanding == Released(old(outstanding), chanH[..k], r)
    {
      var j := 0;
      while j < k
        invariant 0 <= j <= k
        invariant outstanding == Released(old(outstanding), chanH[..j], r)
      {
        assert chanH[..j + 1][..j] == chanH[..j];
        if r.release(j) == 0 {
          outstanding := outstanding - multiset{chanH[j]};
        }
        j := j + 1;
      }
    }

    /** Asks for the mapped channels in turn, up to the first refusal; `hs` are the handles given. */
    method QueryEach(r: Replies) returns (i: nat, rc: int, ghost hs: seq<Handle>)
      requires Valid()
      modifies this`outstanding, chanH
      ensures i == |hs| <= chCnt && (rc == 0 <==> i == chCnt)
      ensures forall j :: 0 <= j < i ==> r.query(j, shCh[j]) == QueryReply(0, hs[j]) && chanH[j] == hs[j]
      ensures forall j :: i <= j < chanH.Length ==> chanH[j] == old(chanH[j])
      ensures i < chCnt ==> rc == r.query(i, shCh[i]).rc
      ensures outstanding == old(outstanding) + multiset(hs)
    {
      hs := [];
      i := 0;
      rc := 0;
      while i < chCnt
        invariant 0 <= i <= chCnt && |hs| == i && rc == 0
        invariant forall j :: 0 <= j < i ==> r.query(j, shCh[j]) == QueryReply(0, hs[j]) && chanH[j] == hs[j]
        invariant forall j :: i <= j < chanH.Length ==> chanH[j] == old(chanH[j])
        invariant outstanding == old(outstanding) + multiset(hs)
      {
        var reply := r.query(i, shCh[i]);
        rc := reply.rc;
        if rc != 0 {
          return;
        }
        chanH[i] := reply.handle;
        outstanding := outstanding + multiset{reply.handle};
        hs := hs + [reply.handle];
        i := i + 1;
      }
    }

    method QueryAll(r: Replies) returns (i: nat, rc: int)
      requires Valid()
      modifies this`outstanding, chanH
      ensures Valid() && State() == Queried(old(State()), r)
      ensures i == Granted(old(State()), r)
      ensures rc == (if i < chCnt then r.query(i, shCh[i]).rc else 0) && (rc == 0 <==> i == chCnt)
    {
      hide Granted, Taken;
      ghost var d, was := State(), chanH[..];
      ghost var hs;
      i, rc, hs := QueryEach(r);
      GrantedAre(d, r, i, hs);
      assert chanH[..] == hs + was[i..];
    }

    method AcquireChannels(r: Replies) returns (rc: int)
      requires Valid()
      modifies this, chanH
      ensures Valid() && (State(), rc) == Acquire(old(State()), r)
    {
      hide Granted, Queried, Released;
      var i: nat;
      i, rc := QueryAll(r);
      dmaData := true;
      if rc == 0 {
        rc := r.define;
      }
      if rc == 0 {
        status := status + {Prepared};
      } else {
        assert chanH[..i] == chanH[..][..i];
        ReleaseFirst(i, r);
      }
    }

    method PrepareStream(r: Replies) returns (rc: int)
      requires Valid()
      modifies this, chanH
      ensures Valid() && (State(), rc) == Prepare(old(State()), r)
    {
      hide Acquire;
      if Initialized !in status {
        return -EINVAL;
      }
      if Prepared in status {
        return 0;
      }
      rc := AcquireChannels(r);
    }

    method ShutdownStream(r: Replies)
      requires Valid()
      modifies this
      ensures Valid() && State() == Shutdown(old(State()), r)
    {
      if !dmaData || Prepared !in status || Running in status {
        return;
      }
      ReleaseFirst(chCnt, r);
      assert chanH[..chCnt] == chanH[..][..chCnt];
      dmaData := false;
      status := status - {Prepared};
    }

    method ConnectAll(r: Replies) returns (rc: int)
      requires Valid()
      ensures
        var hs := chanH[..chCnt];
        var k := Accepted(|hs|, ConnectRefused(hs, r));
        if k < |hs| then rc == r.connect(k, hs[k]) else rc >= 0
    {
      ghost var hs := chanH[..chCnt];
      rc := 0;
      var i := 0;
      while i < chCnt
        invariant 0 <= i <= chCnt && rc >= 0
        invariant Accepted(|hs|, ConnectRefused(hs, r)) == Accepted(|hs|, ConnectRefused(hs, r), i)
      {
        rc := r.connect(i, chanH[i]);
        if rc < 0 {
          return;
        }
        i := i + 1;
      }
    }

    method ControlChannels(enable: bool, r: Replies) returns (rc: int)
      requires Valid()
      modifies this`status, this`ports
      ensures Valid() && (State(), rc) == ChannelControl(old(State()), enable, r)
    {
      hide Accepted;
      assert chanH[..][..chCnt] == chanH[..chCnt];
      if enable {
        if Prepared !in status {
          return -EINVAL;
        }
        rc := r.alloc;
        if rc < 0 {
          return;
        }
        ports := ports + 1;
        rc := r.config;
        if rc >= 0 {
          rc := ConnectAll(r);
        }
        if rc >= 0 {
          rc := r.control;
        }
        if rc < 0 {
          if r.dealloc >= 0 {
            ports := ports - 1;
          }
          return;
        }
        status := status + {Running};
      } else {
        if Running !in status {
          return -EINVAL;
        }
        rc := r.control;
        if rc < 0 {
          return;
        }
        rc := r.dealloc;
        if rc < 0 {
          return;
        }
        ports := ports - 1;
        status := status - {Running};
      }
    }
  }
}
