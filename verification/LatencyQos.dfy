/**
  * The latency requests that keep the audio CPUs responsive while low-latency streams are prepared:
  * one request per CPU and one unsigned count of clients.
  */
module LatencyQos {
  import opened Machine

  const LOW_LATENCY := 300
  const MAX_COUNT: uint32 := 0xFFFF_FFFF

  /** The set-up of the target: how many CPUs, which of them serve audio, and the default latency. */
  datatype Target = Target(cpus: nat, audio: seq<nat>, default: int)

  /**
    * `latency` holds one request per CPU once the array has been allocated; `mask` marks the audio CPUs; `own` are the
    * streams that still have the sound core's own request.
    */
  datatype Qos = Qos(latency: Option<seq<int>>, mask: seq<bool>, active: uint32, own: set<nat>)

  datatype Event = AddRequests(granted: bool) | PrepareCall(stream: nat) | ShutdownCall

  predicate Shaped(g: Target, q: Qos) {
    && |q.mask| == g.cpus
    && (q.latency.Some? ==> |q.latency.value| == g.cpus)
  }

  function Fresh(g: Target, own: set<nat>): (q: Qos)
    ensures Shaped(g, q)
  {
    Qos(None, seq(g.cpus, _ => false), 0, own)
  }

  function Set(latency: seq<int>, mask: seq<bool>, value: int): (r: seq<int>)
    requires |latency| == |mask|
    ensures |r| == |latency|
    ensures forall c :: 0 <= c < |r| ==> r[c] == if mask[c] then value else latency[c]
  {
    seq(|latency|, c requires 0 <= c < |latency| => if mask[c] then value else latency[c])
  }

  function Update(g: Target, q: Qos, value: int): (r: Qos)
    requires Shaped(g, q)
    ensures Shaped(g, r)
  {
    if q.latency.None? then q else q.(latency := Some(Set(q.latency.value, q.mask, value)))
  }

  function Step(g: Target, q: Qos, e: Event): (r: Qos)
    requires Shaped(g, q)
    ensures Shaped(g, r)
  {
    match e
    case AddRequests(granted) =>
      if !granted then q.(latency := None)
      else
        var mask := seq(g.cpus, c requires 0 <= c < g.cpus => q.mask[c] || c in g.audio);
        Qos(Some(Set(seq(g.cpus, _ => 0), mask, g.default)), mask, q.active, q.own)
    case PrepareCall(stream) =>
      var counted := q.(own := q.own - {stream}, active := ToU32(q.active + 1));
      if counted.active == 1 then Update(g, counted, LOW_LATENCY) else counted
    case ShutdownCall =>
      var counted := if q.active > 0 then q.(active := q.active - 1) else q;
      if counted.active == 0 then Update(g, counted, g.default) else counted
  }

  class LatencyRequests {
    const target: Target
    var latency: array?<int>
    const mask: array<bool>
    var active: uint32
    var own: set<nat>

    ghost predicate Valid()
      reads this
    {
      mask.Length == target.cpus && (latency != null ==> latency.Length == target.cpus)
    }

    ghost function State(): (q: Qos)
      requires Valid()
      reads this, latency, mask
      ensures Shaped(target, q)
    {
      Qos(if latency == null then None else Some(latency[..]), mask[..], active, own)
    }

    constructor (target: Target, own: set<nat>)
      ensures Valid() && this.target == target && State() == Fresh(target, own)
    {
      this.target := target;
      latency := null;
      mask := new bool[target.cpus](_ => false);
      active := 0;
      this.own := own;
      new;
      assert mask[..] == Fresh(target, own).mask;
    }

    /** Sets the request of every audio CPU, if the requests were allocated. */
    method UpdateRequests(value: int)
      requires Valid()
      modifies latency
      ensures Valid() && State() == Update(target, old(State()), value)
    {
      if latency != null {
        ghost var was := latency[..];
        var cpu := 0;
        while cpu < mask.Length
          invariant 0 <= cpu <= mask.Length
          invariant forall c :: 0 <= c < cpu ==> latency[c] == if mask[c] then value else was[c]
          invariant forall c :: cpu <= c < mask.Length ==> latency[c] == was[c]
        {
          if mask[cpu] {
            latency[cpu] := value;
          }
          cpu := cpu + 1;
        }
        assert latency[..] == Set(was, mask[..], value);
      }
    }

    method Add(granted: bool)
      requires Valid()
      modifies this, mask
      ensures Valid() && State() == Step(target, old(State()), AddRequests(granted))
    {
      if !granted {
        latency := null;
        return;
      }
      latency := new int[target.cpus](_ => 0);
      ghost var was := mask[..];
      var i := 0;
      while i < |target.audio|
        modifies mask
        invariant 0 <= i <= |target.audio|
        invariant forall c :: 0 <= c < mask.Length ==> mask[c] == (was[c] || c in target.audio[..i])
      {
        if target.audio[i] < target.cpus {
          mask[target.audio[i]] := true;
        }
        i := i + 1;
      }
      assert target.audio[..i] == target.audio;
      assert mask[..] == seq(target.cpus, c requires 0 <= c < target.cpus => was[c] || c in target.audio);
      assert latency[..] == seq(target.cpus, _ => 0);
      UpdateRequests(target.default);
    }

    method Prepare(stream: nat)
      requires Valid()
      modifies this`active, this`own, latency
      ensures Valid() && State() == Step(target, old(State()), PrepareCall(stream))
    {
      if stream in own {
        own := own - {stream};
      }
      active := ToU32(active + 1);
      if active == 1 {
        UpdateRequests(LOW_LATENCY);
      }
    }

    method Shutdown()
      requires Valid()
      modifies this`active, latency
      ensures Valid() && State() == Step(target, old(State()), ShutdownCall)
    {
      if active > 0 {
        active := active - 1;
      }
      if active == 0 {
        UpdateRequests(target.default);
      }
    }
  }

  // ---- The requests follow the count ----

  /** Once allocated, every audio CPU holds the low latency while there are clients and the default otherwise. */
  ghost predicate Follows(g: Target, q: Qos)
    requires Shaped(g, q)
  {
    && (forall c :: 0 <= c < g.cpus && q.latency.Some? ==> q.mask[c] == (c in g.audio))
    && (forall c :: 0 <= c < g.cpus ==> q.mask[c] ==> c in g.audio)
    && (forall c :: 0 <= c < g.cpus && c in g.audio && q.latency.Some? ==>
          q.latency.value[c] == if q.active > 0 then LOW_LATENCY else g.default)
  }

  /** A target on which the two values can be told apart. */
  predicate Telling(g: Target) {
    g.default != LOW_LATENCY && exists c :: 0 <= c < g.cpus && c in g.audio
  }

  /** The two ways out: allocating while clients are already counted, and counting past the largest unsigned number. */
  predicate Fault(q: Qos, e: Event) {
    match e
    case AddRequests(granted) => granted && q.active > 0
    case PrepareCall(_) => q.latency.Some? && q.active == MAX_COUNT
    case ShutdownCall => false
  }

  /**
    * One callback keeps the requests in step with the count, shutdowns without a prepare included, exactly unless
    * it is a fault.
    */
  lemma StepFollows(g: Target, q: Qos, e: Event)
    requires Shaped(g, q) && Follows(g, q)
    ensures !Fault(q, e) ==> Follows(g, Step(g, q, e))
    ensures Telling(g) && Follows(g, Step(g, q, e)) ==> !Fault(q, e)
  {
    var v := Step(g, q, e);
    if Fault(q, e) && Telling(g) {
      var c :| 0 <= c < g.cpus && c in g.audio;
      assert v.latency.value[c] != if v.active > 0 then LOW_LATENCY else g.default;
    } else if !Fault(q, e) && e.AddRequests? && e.granted {
      assert v.active == 0;
    }
  }

  predicate Faultless(g: Target, q: Qos, es: seq<Event>)
    requires Shaped(g, q)
    decreases |es|
  {
    es == [] || (!Fault(q, es[0]) && Faultless(g, Step(g, q, es[0]), es[1..]))
  }

  ghost predicate FollowsThroughout(g: Target, q: Qos, es: seq<Event>)
    requires Shaped(g, q)
    decreases |es|
  {
    Follows(g, q) && (es == [] || FollowsThroughout(g, Step(g, q, es[0]), es[1..]))
  }

  /**
    * Along any run from a state in step, such as the fresh one, the requests follow the count throughout, exactly
    * if no callback of it is a fault.
    */
  lemma {:induction false} RunFollows(g: Target, q: Qos, es: seq<Event>)
    requires Shaped(g, q) && Follows(g, q)
    ensures Faultless(g, q, es) ==> FollowsThroughout(g, q, es)
    ensures Telling(g) && FollowsThroughout(g, q, es) ==> Faultless(g, q, es)
    decreases |es|
  {
    hide Step, Follows, Fault;
    if es != [] {
      StepFollows(g, q, es[0]);
      if Follows(g, Step(g, q, es[0])) {
        RunFollows(g, Step(g, q, es[0]), es[1..]);
      } else {
        assert !FollowsThroughout(g, Step(g, q, es[0]), es[1..]);
      }
    }
  }

  lemma FreshFollows(g: Target, own: set<nat>)
    ensures Follows(g, Fresh(g, own))
  {
  }

  function After(g: Target, q: Qos, es: seq<Event>): (r: Qos)
    requires Shaped(g, q)
    ensures Shaped(g, r)
    decreases |es|
  {
    if es == [] then q else After(g, Step(g, q, es[0]), es[1..])
  }

  /** The streams prepared in a run. */
  function Prepared(es: seq<Event>): set<nat> {
    if es == [] then {} else (if es[0].PrepareCall? then {es[0].stream} else {}) + Prepared(es[1..])
  }

  /** The requests are there: the last attempt to add them got its memory, or there was none and they were. */
  predicate Added(es: seq<Event>, before: bool) {
    if es == [] then before else Added(es[1..], if es[0].AddRequests? then es[0].granted else before)
  }

  /**
    * In every state that a faultless run reaches from the state the driver starts in, each audio CPU holds the
    * low value exactly while clients are counted, if the last attempt to add the requests was granted; and exactly
    * the streams prepared have lost their own request.
    */
  lemma {:induction false} EveryReachedState(g: Target, own: set<nat>, es: seq<Event>)
    requires Faultless(g, Fresh(g, own), es)
    ensures
      var q := After(g, Fresh(g, own), es);
      && q.own == own - Prepared(es)
      && (q.latency.Some? <==> Added(es, false))
      && forall c :: 0 <= c < g.cpus && c in g.audio && q.latency.Some? ==>
           q.latency.value[c] == if q.active > 0 then LOW_LATENCY else g.default
  {
    FreshFollows(g, own);
    RunFollows(g, Fresh(g, own), es);
    EndFollows(g, Fresh(g, own), es);
  }

  lemma {:induction false} EndFollows(g: Target, q: Qos, es: seq<Event>)
    requires Shaped(g, q) && FollowsThroughout(g, q, es)
    ensures Follows(g, After(g, q, es)) && After(g, q, es).own == q.own - Prepared(es)
    ensures After(g, q, es).latency.Some? <==> Added(es, q.latency.Some?)
    decreases |es|
  {
    hide Follows, Set;
    if es != [] {
      EndFollows(g, Step(g, q, es[0]), es[1..]);
    }
  }

  /** The CPUs that serve no audio have no request, whatever happens. */
  lemma {:induction false} OthersKeepNone(g: Target, q: Qos, es: seq<Event>, c: nat)
    requires Shaped(g, q) && c < g.cpus && c !in g.audio
    requires !q.mask[c] && (q.latency.Some? ==> q.latency.value[c] == 0)
    ensures
      var v := After(g, q, es);
      !v.mask[c] && (v.latency.Some? ==> v.latency.value[c] == 0)
    decreases |es|
  {
    hide Set;
    if es != [] {
      OthersKeepNone(g, Step(g, q, es[0]), es[1..], c);
    }
  }

  // ---- The count ----

  /** Prepares less shutdowns. */
  function Net(es: seq<Event>): int {
    if es == [] then 0
    else (if es[0].PrepareCall? then 1 else if es[0].ShutdownCall? then -1 else 0) + Net(es[1..])
  }

  /** The largest of the net numbers of the run's suffixes, and of the whole run on top of the n clients before it. */
  ghost predicate IsBacklog(n: nat, es: seq<Event>, x: int) {
    && x >= n + Net(es)
    && (forall j :: 0 <= j <= |es| ==> x >= Net(es[j..]))
    && (x == n + Net(es) || exists j :: 0 <= j <= |es| && x == Net(es[j..]))
  }

  /**
    * The clients counted after a run are its prepares less its shutdowns, stopped at zero: a shutdown with nothing
    * counted is forgotten, so the count is the largest net number of any suffix of the run. The count is unsigned, so
    * this is for runs that begin with room for a client per callback.
    */
  lemma {:induction false} CountIsBacklog(g: Target, q: Qos, es: seq<Event>)
    requires Shaped(g, q) && q.active + |es| <= MAX_COUNT
    ensures IsBacklog(q.active, es, After(g, q, es).active)
    decreases |es|
  {
    hide Set;
    assert es[|es|..] == [];
    if es != [] {
      var v := Step(g, q, es[0]);
      CountIsBacklog(g, v, es[1..]);
      var x := After(g, q, es).active;
      assert forall j :: 1 <= j <= |es| ==> es[1..][j - 1..] == es[j..];
      assert es[0..] == es && es[1..][0..] == es[1..];
      forall j | 0 <= j <= |es| ensures x >= Net(es[j..]) {
        if j > 0 {
          assert x >= Net(es[1..][j - 1..]);
        }
      }
      if x != q.active + Net(es) {
        if x == v.active + Net(es[1..]) {
          assert x == Net(es[1..]);
        } else {
          var j :| 0 <= j <= |es[1..]| && x == Net(es[1..][j..]);
          assert es[1..][j..] == es[j + 1..];
        }
      }
    }
  }

  /** A stream prepared before the requests are added: they start at the default with a client counted. */
  lemma {:induction false} RequestsCanLag(default: int)
    ensures
      var g := Target(2, [1], default);
      var q := After(g, Fresh(g, {}), [PrepareCall(0), AddRequests(true)]);
      q.active == 1 && q.latency.Some? && q.latency.value[1] == default
  {
    var g := Target(2, [1], default);
    var q := Step(g, Fresh(g, {}), PrepareCall(0));
    assert [PrepareCall(0), AddRequests(true)][1..] == [AddRequests(true)];
    assert [AddRequests(true)][1..] == [];
    assert q.active == 1 && q.latency.None?;
    assert 1 in g.audio;
    var v := Step(g, q, AddRequests(true));
    assert v.mask[1] && v.latency.value[1] == default;
  }
}
