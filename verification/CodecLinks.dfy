/**
  * Resolving the components of a sound card's DAI links against the device tree, and dropping from
  * every multi-codec link the codecs that the device tree disables. The functions say what becomes of
  * the links; the methods below update the links in place, loop by loop, and are proved to agree.
  */
module CodecLinks {
  import opened Machine

  type Node = nat

  datatype Component = Component(name: Option<string>, node: Option<Node>)
  datatype Codec = Codec(name: Option<string>, node: Option<Node>, daiName: string)
  datatype Link = Link(platform: Component, cpu: Component, codecs: seq<Codec>)

  /** What the device tree answers: the position of a name (negative if absent), the node there, and its status. */
  datatype Tree = Tree(
    platformIndex: string -> int,
    platformNode: int -> Option<Node>,
    cpuIndex: string -> int,
    cpuNode: int -> Option<Node>,
    codecIndex: string -> int,
    codecNode: int -> Option<Node>,
    available: Node -> bool)

  // ---- Resolving names ----

  predicate Skipped(l: Link) {
    l.platform.node.Some? && l.cpu.node.Some?
  }

  function ResolvePlatform(t: Tree, l: Link): (Link, int) {
    if l.platform.name.None? || l.platform.node.Some? then (l, 0)
    else
      var index := t.platformIndex(l.platform.name.value);
      if index < 0 then (l, index)
      else
        var np := t.platformNode(index);
        if np.None? then (l, -ENODEV) else (l.(platform := Component(None, np)), 0)
  }

  function ResolveCpu(t: Tree, l: Link): (Link, int) {
    if l.cpu.name.None? || l.cpu.node.Some? then (l, 0)
    else
      var index := t.cpuIndex(l.cpu.name.value);
      if index < 0 then (l, 0)
      else
        var np := t.cpuNode(index);
        if np.None? then (l, -ENODEV) else (l.(cpu := Component(None, np)), 0)
  }

  /** A codec that resolving leaves alone. */
  predicate Settled(t: Tree, c: Codec) {
    c.node.Some? || c.name.None? || t.codecIndex(c.name.value) < 0
  }

  function ResolveCodec(t: Tree, c: Codec): (Codec, int) {
    if Settled(t, c) then (c, 0)
    else
      var np := t.codecNode(t.codecIndex(c.name.value));
      if np.None? then (c, -ENODEV) else (c.(name := None, node := np), 0)
  }

  function ResolveCodecs(t: Tree, cs: seq<Codec>): (r: (seq<Codec>, int))
    ensures |r.0| == |cs|
    decreases |cs|
  {
    if cs == [] then ([], 0)
    else
      var (c, rc) := ResolveCodec(t, cs[0]);
      if rc != 0 then (cs, rc)
      else
        var (rest, after) := ResolveCodecs(t, cs[1..]);
        ([c] + rest, after)
  }

  /** Part-way through resolving `all`: `done` has been resolved and `todo` is left. */
  predicate ResolvedSoFar(t: Tree, all: seq<Codec>, done: seq<Codec>, todo: seq<Codec>) {
    ResolveCodecs(t, all) == (done + ResolveCodecs(t, todo).0, ResolveCodecs(t, todo).1)
  }

  lemma {:induction false} ResolvingProceeds(t: Tree, all: seq<Codec>, done: seq<Codec>, todo: seq<Codec>)
    ensures ResolvedSoFar(t, all, [], all)
    ensures ResolvedSoFar(t, all, done, todo) && todo == [] ==> ResolveCodecs(t, all) == (done, 0)
    ensures ResolvedSoFar(t, all, done, todo) && todo != [] ==>
      var (c, rc) := ResolveCodec(t, todo[0]);
      if rc == 0 then ResolvedSoFar(t, all, done + [c], todo[1..])
      else ResolveCodecs(t, all) == (done + todo, rc)
  {
    assert [] + ResolveCodecs(t, all).0 == ResolveCodecs(t, all).0;
    assert done + [] == done;
    if todo != [] {
      var c, rest := ResolveCodec(t, todo[0]).0, ResolveCodecs(t, todo[1..]).0;
      assert done + ([c] + rest) == (done + [c]) + rest;
    }
  }

  function ResolveLink(t: Tree, l: Link): (Link, int) {
    if Skipped(l) then (l, 0)
    else
      var (p, prc) := ResolvePlatform(t, l);
      if prc != 0 then (p, prc)
      else
        var (u, urc) := ResolveCpu(t, p);
        if urc != 0 then (u, urc)
        else
          var (cs, rc) := ResolveCodecs(t, u.codecs);
          (u.(codecs := cs), rc)
  }

  // ---- Dropping disabled codecs ----

  predicate Alive(t: Tree, c: Codec) {
    c.node.Some? && t.available(c.node.value)
  }

  function Dropped(t: Tree, c: Codec): Codec {
    if Alive(t, c) then c else c.(node := None)
  }

  function DropAll(t: Tree, cs: seq<Codec>): (ds: seq<Codec>)
    ensures |ds| == |cs| && forall i :: 0 <= i < |cs| ==> ds[i] == Dropped(t, cs[i])
  {
    seq(|cs|, i requires 0 <= i < |cs| => Dropped(t, cs[i]))
  }

  /** The live codecs in their order, as the new array holds them. */
  function Survivors(t: Tree, cs: seq<Codec>): (s: seq<Codec>)
    ensures |s| <= |cs|
    decreases |cs|
  {
    if cs == [] then []
    else
      var c := cs[|cs| - 1];
      Survivors(t, cs[..|cs| - 1]) + if Alive(t, c) then [c.(name := None)] else []
  }

  lemma {:induction false} SurvivorsGrow(t: Tree, cs: seq<Codec>, j: nat)
    requires j <= |cs|
    ensures |Survivors(t, cs[..j])| <= |Survivors(t, cs)|
    ensures j < |cs| ==>
      Survivors(t, cs[..j + 1]) == Survivors(t, cs[..j]) + if Alive(t, cs[j]) then [cs[j].(name := None)] else []
    decreases |cs|
  {
    if j < |cs| {
      assert cs[..j + 1][..j] == cs[..j];
      SurvivorsGrow(t, cs[..|cs| - 1], j);
      assert cs[..|cs| - 1][..j] == cs[..j];
    } else {
      assert cs[..j] == cs;
    }
  }

  predicate Shrinks(t: Tree, l: Link) {
    |l.codecs| > 1 && 0 < |Survivors(t, l.codecs)| < |l.codecs|
  }

  function CompactLink(t: Tree, l: Link, canAllocate: bool): (Link, int) {
    if |l.codecs| <= 1 then (l, 0)
    else if !Shrinks(t, l) then (l.(codecs := DropAll(t, l.codecs)), 0)
    else if !canAllocate then (l.(codecs := DropAll(t, l.codecs)), -ENOMEM)
    else (l.(codecs := Survivors(t, l.codecs)), 0)
  }

  // ---- The card ----

  /** A pass over the links from number k on, stopping at the first one that fails. */
  function Pass(work: (nat, Link) -> (Link, int), ls: seq<Link>, k: nat := 0): (r: (seq<Link>, int))
    ensures |r.0| == |ls|
    decreases |ls|
  {
    if ls == [] then ([], 0)
    else
      var (l, rc) := work(k, ls[0]);
      if rc != 0 then ([l] + ls[1..], rc)
      else
        var (rest, after) := Pass(work, ls[1..], k + 1);
        ([l] + rest, after)
  }

  function Resolving(t: Tree): (nat, Link) -> (Link, int) {
    (_, l) => ResolveLink(t, l)
  }

  function Compacting(t: Tree, canAllocate: nat -> bool): (nat, Link) -> (Link, int) {
    (k: nat, l: Link) => CompactLink(t, l, canAllocate(k))
  }

  /** Both passes over the card's links; `canAllocate` says for which links a new codec array can be had. */
  function Populate(t: Tree, ls: seq<Link>, canAllocate: nat -> bool): (r: (seq<Link>, int))
    ensures |r.0| == |ls|
  {
    var (rs, rc) := Pass(Resolving(t), ls);
    if rc != 0 then (rs, rc) else Pass(Compacting(t, canAllocate), rs)
  }

  /** Part-way through a pass over `all`: `done` has been worked on and `todo` is left. */
  predicate PassedSoFar(work: (nat, Link) -> (Link, int), all: seq<Link>, done: seq<Link>, todo: seq<Link>) {
    Pass(work, all) == (done + Pass(work, todo, |done|).0, Pass(work, todo, |done|).1)
  }

  lemma {:induction false} PassProceeds(
      work: (nat, Link) -> (Link, int), all: seq<Link>, done: seq<Link>, todo: seq<Link>)
    ensures PassedSoFar(work, all, [], all)
    ensures PassedSoFar(work, all, done, todo) && todo == [] ==> Pass(work, all) == (done, 0)
    ensures PassedSoFar(work, all, done, todo) && todo != [] ==>
      var (l, rc) := work(|done|, todo[0]);
      if rc == 0 then PassedSoFar(work, all, done + [l], todo[1..])
      else Pass(work, all) == (done + [l] + todo[1..], rc)
  {
    assert [] + Pass(work, all).0 == Pass(work, all).0;
    assert done + [] == done;
    if todo != [] {
      var l, rest := work(|done|, todo[0]).0, Pass(work, todo[1..], |done| + 1).0;
      assert done + ([l] + rest) == (done + [l]) + rest;
      assert done + ([l] + todo[1..]) == (done + [l]) + todo[1..];
    }
  }

  // ---- The passes, in place ----

  method ResolveOne(t: Tree, c: Codec) returns (d: Codec, rc: int)
    ensures (d, rc) == ResolveCodec(t, c)
  {
    d, rc := c, 0;
    if c.node.None? && c.name.Some? {
      var index := t.codecIndex(c.name.value);
      if index >= 0 {
        var np := t.codecNode(index);
        if np.None? {
          rc := -ENODEV;
        } else {
          d := c.(name := None, node := np);
        }
      }
    }
  }

  /** One DAI link, whose codec array is updated element by element and may be replaced by a shorter one. */
  class DaiLink {
    var platform: Component
    var cpu: Component
    var codecs: array<Codec>

    ghost function State(): Link
      reads this, codecs
    {
      Link(platform, cpu, codecs[..])
    }

    constructor (platform: Component, cpu: Component, codecs: array<Codec>)
      ensures this.platform == platform && this.cpu == cpu && this.codecs == codecs
    {
      this.platform := platform;
      this.cpu := cpu;
      this.codecs := codecs;
    }

    method ResolveEnds(t: Tree) returns (rc: int)
      requires !Skipped(State())
      modifies this`platform, this`cpu
      ensures
        var (p, prc) := ResolvePlatform(t, old(State()));
        if prc != 0 then (State(), rc) == (p, prc) else (State(), rc) == ResolveCpu(t, p)
    {
      if platform.name.Some? && platform.node.None? {
        var index := t.platformIndex(platform.name.value);
        if index < 0 {
          return index;
        }
        var np := t.platformNode(index);
        if np.None? {
          return -ENODEV;
        }
        platform := Component(None, np);
      }
      if cpu.name.Some? && cpu.node.None? {
        var index := t.cpuIndex(cpu.name.value);
        if index >= 0 {
          var np := t.cpuNode(index);
          if np.None? {
            return -ENODEV;
          }
          cpu := Component(None, np);
        }
      }
      rc := 0;
    }

    method ResolveEach(t: Tree) returns (rc: int)
      modifies codecs
      ensures (codecs[..], rc) == ResolveCodecs(t, old(codecs[..]))
    {
      hide ResolveCodecs, ResolvedSoFar, ResolveCodec;
      ghost var was, done := codecs[..], [];
      ResolvingProceeds(t, was, [], was);
      var j := 0;
      while j < codecs.Length
        invariant 0 <= j <= codecs.Length && |done| == j
        invariant forall k :: 0 <= k < j ==> codecs[k] == done[k]
        invariant forall k :: j <= k < codecs.Length ==> codecs[k] == was[k]
        invariant ResolvedSoFar(t, was, done, was[j..])
      {
        ResolvingProceeds(t, was, done, was[j..]);
        assert was[j..][1..] == was[j + 1..];
        var c: Codec;
        c, rc := ResolveOne(t, codecs[j]);
        if rc != 0 {
          assert codecs[..] == done + was[j..];
          return;
        }
        codecs[j] := c;
        done := done + [c];
        j := j + 1;
      }
      ResolvingProceeds(t, was, done, was[j..]);
      assert codecs[..] == done;
      rc := 0;
    }

    method Resolve(t: Tree) returns (rc: int)
      modifies this`platform, this`cpu, codecs
      ensures (State(), rc) == ResolveLink(t, old(State()))
    {
      hide ResolveCodecs, ResolveCpu, ResolvePlatform;
      if platform.node.Some? && cpu.node.Some? {
        return 0;
      }
      rc := ResolveEnds(t);
      if rc == 0 {
        rc := ResolveEach(t);
      }
    }

    /** Clears the node of every disabled codec and counts the others. */
    method DropEach(t: Tree) returns (enabled: nat)
      modifies codecs
      ensures codecs[..] == DropAll(t, old(codecs[..])) && enabled == |Survivors(t, old(codecs[..]))|
    {
      hide Survivors;
      ghost var was := codecs[..];
      enabled := 0;
      var j := 0;
      assert |Survivors(t, was[..0])| == 0;
      while j < codecs.Length
        invariant 0 <= j <= codecs.Length
        invariant forall k :: 0 <= k < j ==> codecs[k] == Dropped(t, was[k])
        invariant forall k :: j <= k < codecs.Length ==> codecs[k] == was[k]
        invariant enabled == |Survivors(t, was[..j])|
      {
        SurvivorsGrow(t, was, j);
        if codecs[j].node.Some? {
          if t.available(codecs[j].node.value) {
            enabled := enabled + 1;
          } else {
            codecs[j] := codecs[j].(node := None);
          }
        }
        j := j + 1;
      }
      assert was[..j] == was;
    }

    /** Fills a new array with the codecs that still have a node; there is exactly room for them. */
    method CopyEnabled(t: Tree, ghost was: seq<Codec>, enabled: nat) returns (component: array<Codec>)
      requires codecs[..] == DropAll(t, was) && enabled == |Survivors(t, was)|
      ensures fresh(component) && component[..] == Survivors(t, was)
    {
      hide Survivors;
      component := new Codec[enabled](_ => Codec(None, None, ""));
      var index, j := 0, 0;
      assert Survivors(t, was[..0]) == [];
      while j < codecs.Length
        invariant 0 <= j <= codecs.Length
        invariant index == |Survivors(t, was[..j])| && index <= enabled
        invariant component[..index] == Survivors(t, was[..j])
      {
        SurvivorsGrow(t, was, j);
        SurvivorsGrow(t, was, j + 1);
        if codecs[j].node.Some? {
          component[index] := Codec(None, codecs[j].node, codecs[j].daiName);
          index := index + 1;
        }
        j := j + 1;
      }
      assert was[..j] == was;
      assert component[..] == component[..index];
    }

    method Compact(t: Tree, canAllocate: bool) returns (rc: int)
      modifies this`codecs, codecs
      ensures (State(), rc) == CompactLink(t, old(State()), canAllocate)
      ensures codecs == old(codecs) || fresh(codecs)
    {
      hide Survivors;
      rc := 0;
      if codecs.Length > 1 {
        ghost var was := codecs[..];
        var enabled := DropEach(t);
        if 0 < enabled < codecs.Length {
          if !canAllocate {
            return -ENOMEM;
          }
          var shorter := CopyEnabled(t, was, enabled);
          codecs := shorter;
        }
      }
    }
  }

  // ---- The whole card ----

  /** The links and their codec arrays are separate objects. */
  ghost predicate Separate(links: seq<DaiLink>)
    reads links
  {
    forall i, j :: 0 <= i < j < |links| ==> links[i] != links[j] && links[i].codecs != links[j].codecs
  }

  ghost function Arrays(links: seq<DaiLink>): set<object>
    reads links
  {
    set l | l in links :: l.codecs
  }

  ghost predicate Hold(links: seq<DaiLink>, ls: seq<Link>)
    reads links, Arrays(links)
  {
    |ls| == |links| && forall k :: 0 <= k < |links| ==> links[k].State() == ls[k]
  }

  lemma HeldLength(links: seq<DaiLink>, ls: seq<Link>)
    requires Hold(links, ls)
    ensures |ls| == |links|
  {
  }

  method ResolveNumber(t: Tree, links: seq<DaiLink>, i: nat, ghost was: seq<Link>) returns (rc: int)
    requires Separate(links) && i < |links| && Hold(links, was)
    modifies links, Arrays(links)
    ensures Separate(links) && Arrays(links) == old(Arrays(links))
    ensures Hold(links, was[i := ResolveLink(t, was[i]).0]) && rc == ResolveLink(t, was[i]).1
  {
    hide ResolveLink;
    rc := links[i].Resolve(t);
  }

  method ResolveLinks(t: Tree, links: seq<DaiLink>, ghost was: seq<Link>) returns (rc: int)
    requires Separate(links) && Hold(links, was)
    modifies links, Arrays(links)
    ensures Separate(links) && Arrays(links) == old(Arrays(links))
    ensures Hold(links, Pass(Resolving(t), was).0) && rc == Pass(Resolving(t), was).1
  {
    hide Pass, ResolveLink, PassedSoFar, Hold, Separate, Arrays;
    ghost var work, done: seq<Link> := Resolving(t), [];
    HeldLength(links, was);
    PassProceeds(work, was, [], was);
    var i := 0;
    rc := 0;
    assert done + was[i..] == was;
    while i < |links| && rc == 0
      invariant 0 <= i <= |links|
      invariant Separate(links) && Arrays(links) == old(Arrays(links)) && |was| == |links|
      invariant rc == 0 ==> |done| == i && Hold(links, done + was[i..])
      invariant rc == 0 ==> PassedSoFar(work, was, done, was[i..])
      invariant rc != 0 ==> Hold(links, Pass(work, was).0) && rc == Pass(work, was).1
      decreases |links| - i, if rc == 0 then 1 else 0
    {
      PassProceeds(work, was, done, was[i..]);
      ghost var before := done + was[i..];
      rc := ResolveNumber(t, links, i, before);
      ghost var l := ResolveLink(t, was[i]).0;
      assert before[i := l] == done + [l] + was[i + 1..];
      assert was[i..][1..] == was[i + 1..];
      if rc == 0 {
        done := done + [l];
        i := i + 1;
      }
    }
    PassProceeds(work, was, done, was[i..]);
    assert rc == 0 ==> done + was[i..] == done;
  }

  method CompactNumber(t: Tree, links: seq<DaiLink>, i: nat, canAllocate: bool, ghost was: seq<Link>) returns (rc: int)
    requires Separate(links) && i < |links| && Hold(links, was)
    modifies links, Arrays(links)
    ensures Separate(links)
    ensures forall k :: 0 <= k < |links| ==> links[k].codecs == old(links[k].codecs) || fresh(links[k].codecs)
    ensures Hold(links, was[i := CompactLink(t, was[i], canAllocate).0]) && rc == CompactLink(t, was[i], canAllocate).1
  {
    hide CompactLink;
    rc := links[i].Compact(t, canAllocate);
  }

  method CompactLinks(t: Tree, links: seq<DaiLink>, canAllocate: nat -> bool, ghost was: seq<Link>) returns (rc: int)
    requires Separate(links) && Hold(links, was)
    modifies links, Arrays(links)
    ensures Separate(links)
    ensures forall k :: 0 <= k < |links| ==> links[k].codecs == old(links[k].codecs) || fresh(links[k].codecs)
    ensures
      var (ls, code) := Pass(Compacting(t, canAllocate), was);
      Hold(links, ls) && rc == code
  {
    hide Pass, CompactLink, PassedSoFar, Hold, Separate;
    ghost var work, done: seq<Link> := Compacting(t, canAllocate), [];
    HeldLength(links, was);
    PassProceeds(work, was, [], was);
    var i := 0;
    rc := 0;
    assert done + was[i..] == was;
    while i < |links| && rc == 0
      invariant 0 <= i <= |links|
      invariant Separate(links) && |was| == |links|
      invariant forall k :: 0 <= k < |links| ==> links[k].codecs == old(links[k].codecs) || fresh(links[k].codecs)
      invariant rc == 0 ==> |done| == i && Hold(links, done + was[i..])
      invariant rc == 0 ==> PassedSoFar(work, was, done, was[i..])
      invariant rc != 0 ==> Hold(links, Pass(work, was).0) && rc == Pass(work, was).1
      decreases |links| - i, if rc == 0 then 1 else 0
    {
      PassProceeds(work, was, done, was[i..]);
      ghost var before := done + was[i..];
      rc := CompactNumber(t, links, i, canAllocate(i), before);
      ghost var l := CompactLink(t, was[i], canAllocate(i)).0;
      assert before[i := l] == done + [l] + was[i + 1..];
      assert was[i..][1..] == was[i + 1..];
      if rc == 0 {
        done := done + [l];
        i := i + 1;
      }
    }
    PassProceeds(work, was, done, was[i..]);
    assert rc == 0 ==> done + was[i..] == done;
  }

  method PopulateLinks(t: Tree, links: seq<DaiLink>, canAllocate: nat -> bool, ghost was: seq<Link>) returns (rc: int)
    requires Separate(links) && Hold(links, was)
    modifies links, Arrays(links)
    ensures Separate(links)
    ensures
      var (ls, code) := Populate(t, was, canAllocate);
      Hold(links, ls) && rc == code
  {
    hide Pass, Hold, Separate, Arrays;
    rc := ResolveLinks(t, links, was);
    if rc == 0 {
      rc := CompactLinks(t, links, canAllocate, Pass(Resolving(t), was).0);
    }
  }
}
