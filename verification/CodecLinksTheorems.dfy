/**
  * Population of a card's links as a function of each link alone: when it succeeds, which codecs each
  * link is left with, and when running it again would change nothing.
  */
module CodecLinksTheorems {
  import opened Machine
  import opened CodecLinks

  // ---- What the device tree says of a link ----

  /** Platform and CPU have nodes: population passes the whole link over. */
  predicate PassedOver(l: Link) {
    l.platform.node.Some? && l.cpu.node.Some?
  }

  /** The platform with the node at the index of its name, if it has a name and no node. */
  function PlatformByName(t: Tree, x: Component): Component {
    if x.name.Some? && x.node.None? then Component(None, t.platformNode(t.platformIndex(x.name.value))) else x
  }

  /** The same for a CPU, which is left alone where its name is not found. */
  function CpuByName(t: Tree, x: Component): Component {
    if x.name.Some? && x.node.None? && t.cpuIndex(x.name.value) >= 0
    then Component(None, t.cpuNode(t.cpuIndex(x.name.value)))
    else x
  }

  function CodecByName(t: Tree, c: Codec): Codec {
    if c.name.Some? && c.node.None? && t.codecIndex(c.name.value) >= 0
    then Codec(None, t.codecNode(t.codecIndex(c.name.value)), c.daiName)
    else c
  }

  function ByName(t: Tree, l: Link): Link {
    if PassedOver(l) then l
    else
      Link(PlatformByName(t, l.platform), CpuByName(t, l.cpu),
        seq(|l.codecs|, i requires 0 <= i < |l.codecs| => CodecByName(t, l.codecs[i])))
  }

  /** The platform's name is found, and every name that is found has its phandle. */
  predicate PlatformKnown(t: Tree, x: Component) {
    x.name.Some? && x.node.None? ==>
      t.platformIndex(x.name.value) >= 0 && t.platformNode(t.platformIndex(x.name.value)).Some?
  }

  predicate CpuKnown(t: Tree, x: Component) {
    x.name.Some? && x.node.None? && t.cpuIndex(x.name.value) >= 0 ==> t.cpuNode(t.cpuIndex(x.name.value)).Some?
  }

  predicate CodecKnown(t: Tree, c: Codec) {
    c.name.Some? && c.node.None? && t.codecIndex(c.name.value) >= 0 ==>
      t.codecNode(t.codecIndex(c.name.value)).Some?
  }

  predicate NamesKnown(t: Tree, l: Link) {
    || PassedOver(l)
    || (&& PlatformKnown(t, l.platform)
        && CpuKnown(t, l.cpu)
        && forall i :: 0 <= i < |l.codecs| ==> CodecKnown(t, l.codecs[i]))
  }

  /** The code of a link with an unknown name: the negative index of the platform's, or that a phandle is missing. */
  function FailureCode(t: Tree, l: Link): int {
    if l.platform.name.Some? && l.platform.node.None? && t.platformIndex(l.platform.name.value) < 0
    then t.platformIndex(l.platform.name.value)
    else -ENODEV
  }

  /** The device tree has the codec, and has it enabled. */
  predicate Enabled(t: Tree, c: Codec) {
    c.node.Some? && t.available(c.node.value)
  }

  /** The positions of the enabled codecs, in increasing order. */
  function LivePositions(t: Tree, cs: seq<Codec>): (p: seq<nat>)
    ensures forall k :: 0 <= k < |p| ==> p[k] < |cs| && Enabled(t, cs[p[k]])
    ensures forall j, k :: 0 <= j < k < |p| ==> p[j] < p[k]
    ensures forall i :: 0 <= i < |cs| && Enabled(t, cs[i]) ==> i in p
    decreases |cs|
  {
    if cs == [] then []
    else
      var n := |cs| - 1;
      var p := LivePositions(t, cs[..n]);
      assert forall i :: 0 <= i < n && Enabled(t, cs[i]) ==> Enabled(t, cs[..n][i]);
      if Enabled(t, cs[n]) then p + [n] else p
  }

  /** The survivors are the live codecs and nothing else, in order and each once, without their names. */
  lemma {:induction false} SurvivorsAreTheLive(t: Tree, cs: seq<Codec>)
    ensures
      var s, p := Survivors(t, cs), LivePositions(t, cs);
      |s| == |p| && forall k :: 0 <= k < |s| ==> s[k] == cs[p[k]].(name := None)
    decreases |cs|
  {
    if cs != [] {
      SurvivorsAreTheLive(t, cs[..|cs| - 1]);
    }
  }

  lemma {:induction false} SurvivorCount(t: Tree, cs: seq<Codec>)
    ensures Survivors(t, cs) == [] <==> forall i :: 0 <= i < |cs| ==> !Alive(t, cs[i])
    ensures |Survivors(t, cs)| == |cs| <==> forall i :: 0 <= i < |cs| ==> Alive(t, cs[i])
    ensures forall c :: c in Survivors(t, cs) ==> Alive(t, c) && c.name.None?
    decreases |cs|
  {
    if cs != [] {
      var n := |cs| - 1;
      SurvivorCount(t, cs[..n]);
      assert forall i :: 0 <= i < n ==> cs[..n][i] == cs[i];
      assert Survivors(t, cs) == [] ==> Survivors(t, cs[..n]) == [];
    }
  }

  // ---- One link ----

  predicate Resolves(t: Tree, l: Link) {
    ResolveLink(t, l).1 == 0
  }

  /** What becomes of a link for which no allocation fails. */
  function Once(t: Tree, l: Link): Link {
    CompactLink(t, ResolveLink(t, l).0, true).0
  }

  lemma {:induction false} ResolvedCodecs(t: Tree, cs: seq<Codec>)
    ensures
      var (rs, rc) := ResolveCodecs(t, cs);
      && (rc == 0 <==> forall i :: 0 <= i < |cs| ==> ResolveCodec(t, cs[i]).1 == 0)
      && (rc == 0 ==> forall i :: 0 <= i < |cs| ==> rs[i] == ResolveCodec(t, cs[i]).0)
    decreases |cs|
  {
    if cs != [] {
      ResolvedCodecs(t, cs[1..]);
      var rs, rest := ResolveCodecs(t, cs).0, ResolveCodecs(t, cs[1..]).0;
      assert ResolveCodec(t, cs[0]).1 == 0 ==> rs == [ResolveCodec(t, cs[0]).0] + rest;
      assert forall i :: 1 <= i < |cs| ==> cs[i] == cs[1..][i - 1];
    }
  }

  /**
    * One link's names: they are resolved exactly if each that is looked up has its phandle, every component then has
    * the node at the index of its own name; and otherwise the code is the platform's negative index or -ENODEV.
    */
  lemma LinkIsResolved(t: Tree, l: Link)
    ensures ResolveLink(t, l).1 == 0 <==> NamesKnown(t, l)
    ensures NamesKnown(t, l) ==> ResolveLink(t, l).0 == ByName(t, l)
    ensures !NamesKnown(t, l) ==> ResolveLink(t, l).1 == FailureCode(t, l)
  {
    hide ResolveCodecs;
    ResolvedCodecs(t, l.codecs);
    assert forall i :: 0 <= i < |l.codecs| ==>
      && (ResolveCodec(t, l.codecs[i]).1 == 0 <==> CodecKnown(t, l.codecs[i]))
      && (CodecKnown(t, l.codecs[i]) ==> ResolveCodec(t, l.codecs[i]).0 == CodecByName(t, l.codecs[i]));
    if NamesKnown(t, l) && !PassedOver(l) {
      assert ResolveCodecs(t, l.codecs).0 == ByName(t, l).codecs;
    }
    CodecFailure(t, l.codecs);
  }

  lemma {:induction false} CodecFailure(t: Tree, cs: seq<Codec>)
    ensures ResolveCodecs(t, cs).1 in {0, -ENODEV}
    decreases |cs|
  {
    if cs != [] {
      CodecFailure(t, cs[1..]);
    }
  }

  predicate AllSettled(t: Tree, cs: seq<Codec>) {
    forall i :: 0 <= i < |cs| ==> Settled(t, cs[i])
  }

  /** Resolving is done with a list of codecs exactly when every one is settled, and it leaves them so. */
  lemma ResolvingSettles(t: Tree, cs: seq<Codec>)
    ensures ResolveCodecs(t, cs) == (cs, 0) <==> AllSettled(t, cs)
    ensures ResolveCodecs(t, cs).1 == 0 ==> AllSettled(t, ResolveCodecs(t, cs).0)
  {
    ResolvedCodecs(t, cs);
    var rs := ResolveCodecs(t, cs).0;
    if AllSettled(t, cs) {
      assert rs == cs;
    } else {
      var i :| 0 <= i < |cs| && !Settled(t, cs[i]);
      assert ResolveCodecs(t, cs).1 == 0 ==> rs[i].node.Some?;
    }
  }

  /** The link's platform and CPU both have nodes once it is resolved, so that it will be passed over from then on. */
  predicate EndsSettle(t: Tree, l: Link) {
    && (l.platform.node.Some? || l.platform.name.Some?)
    && (l.cpu.node.Some? || (l.cpu.name.Some? && t.cpuIndex(l.cpu.name.value) >= 0))
  }

  /**
    * A link that a second run would disturb: none of its several codecs is enabled, and one of them
    * came with both a node and a name that the device tree knows, so that losing the node brings the
    * name back into play.
    */
  predicate Relapses(t: Tree, l: Link) {
    && !EndsSettle(t, l)
    && |l.codecs| > 1
    && (forall i :: 0 <= i < |l.codecs| ==> !Enabled(t, CodecByName(t, l.codecs[i])))
    && exists i :: 0 <= i < |l.codecs| && NodeAndKnownName(t, l.codecs[i])
  }

  predicate NodeAndKnownName(t: Tree, c: Codec) {
    c.node.Some? && c.name.Some? && t.codecIndex(c.name.value) >= 0
  }

  /** The same in terms of the steps. */
  predicate LeavesUnsettled(t: Tree, l: Link) {
    && !EndsSettle(t, l)
    && |l.codecs| > 1
    && Survivors(t, ResolveLink(t, l).0.codecs) == []
    && exists i :: 0 <= i < |l.codecs| && l.codecs[i].node.Some? && !Settled(t, l.codecs[i].(node := None))
  }

  lemma RelapsesIff(t: Tree, l: Link)
    requires Resolves(t, l)
    ensures Relapses(t, l) <==> LeavesUnsettled(t, l)
  {
    hide ResolveLink, Survivors;
    LinkIsResolved(t, l);
    var cs := ByName(t, l).codecs;
    SurvivorCount(t, cs);
    if !EndsSettle(t, l) {
      assert forall i :: 0 <= i < |cs| ==> cs[i] == CodecByName(t, l.codecs[i]);
      assert forall i :: 0 <= i < |l.codecs| ==>
        (NodeAndKnownName(t, l.codecs[i]) <==> l.codecs[i].node.Some? && !Settled(t, l.codecs[i].(node := None)));
    }
  }

  lemma {:induction false} ResolvedParts(t: Tree, l: Link)
    requires Resolves(t, l)
    ensures
      var m := ResolveLink(t, l).0;
      && (Skipped(m) <==> EndsSettle(t, l))
      && (m.platform.node.Some? || m.platform.name.None?)
      && (m.cpu.node.Some? || m.cpu.name.None? || t.cpuIndex(m.cpu.name.value) < 0)
      && m.codecs == (if Skipped(l) then l.codecs else ResolveCodecs(t, l.codecs).0)
      && (!Skipped(l) ==> ResolveCodecs(t, l.codecs).1 == 0)
  {
    hide ResolveCodecs;
  }

  /**
    * Resolving a link whose ends are resolved changes nothing exactly if it is passed over or its codecs are
    * settled.
    */
  lemma ResolvingAgain(t: Tree, m: Link)
    requires m.platform.node.Some? || m.platform.name.None?
    requires m.cpu.node.Some? || m.cpu.name.None? || t.cpuIndex(m.cpu.name.value) < 0
    ensures ResolveLink(t, m) == (m, 0) <==> Skipped(m) || AllSettled(t, m.codecs)
  {
    hide ResolveCodecs;
    ResolvingSettles(t, m.codecs);
    assert m.(codecs := ResolveCodecs(t, m.codecs).0).codecs == ResolveCodecs(t, m.codecs).0;
  }

  lemma {:induction false} CompactingAgain(t: Tree, l: Link, canAllocate: bool)
    ensures
      var m := CompactLink(t, l, true).0;
      CompactLink(t, m, canAllocate) == (m, 0)
  {
    hide Survivors;
    var m := CompactLink(t, l, true).0;
    SurvivorCount(t, l.codecs);
    SurvivorCount(t, m.codecs);
    if |l.codecs| > 1 {
      if Shrinks(t, l) {
        assert DropAll(t, m.codecs) == m.codecs by {
          assert forall i :: 0 <= i < |m.codecs| ==> m.codecs[i] in Survivors(t, l.codecs);
        }
      } else {
        assert DropAll(t, m.codecs) == m.codecs;
        assert forall i :: 0 <= i < |l.codecs| ==> (Alive(t, m.codecs[i]) <==> Alive(t, l.codecs[i]));
      }
    }
  }

  /**
    * Where none of several codecs is enabled, an unsettled one is left exactly when one came with both a node and
    * a known name.
    */
  lemma WhatIsLeftUnsettled(t: Tree, cs: seq<Codec>)
    requires ResolveCodecs(t, cs).1 == 0
    ensures AllSettled(t, DropAll(t, ResolveCodecs(t, cs).0)) <==>
      !exists i :: 0 <= i < |cs| && cs[i].node.Some? && !Settled(t, cs[i].(node := None)) && !Alive(t, cs[i])
  {
    hide ResolveCodecs;
    ResolvedCodecs(t, cs);
    var ds := DropAll(t, ResolveCodecs(t, cs).0);
    assert forall i :: 0 <= i < |cs| ==>
      (Settled(t, ds[i]) <==> !(cs[i].node.Some? && !Settled(t, cs[i].(node := None)) && !Alive(t, cs[i])));
  }

  /** A resolved and compacted link is settled unless it relapses. */
  lemma OnceSettles(t: Tree, l: Link)
    requires Resolves(t, l)
    ensures Skipped(Once(t, l)) || AllSettled(t, Once(t, l).codecs) <==> !LeavesUnsettled(t, l)
    ensures !Skipped(Once(t, l)) && !AllSettled(t, Once(t, l).codecs) ==>
      |l.codecs| > 1 && forall i :: 0 <= i < |Once(t, l).codecs| ==> Once(t, l).codecs[i].node.None?
  {
    hide ResolveCodecs, Survivors, ResolveLink;
    ResolvedParts(t, l);
    var r, m := ResolveLink(t, l).0, Once(t, l);
    if !Skipped(l) {
      ResolvingSettles(t, l.codecs);
      ResolvedCodecs(t, l.codecs);
      SurvivorCount(t, r.codecs);
      if |l.codecs| > 1 {
        if Shrinks(t, r) {
          assert forall i :: 0 <= i < |m.codecs| ==> m.codecs[i] in Survivors(t, r.codecs);
        } else if Survivors(t, r.codecs) == [] {
          WhatIsLeftUnsettled(t, l.codecs);
          assert forall i :: 0 <= i < |l.codecs| && l.codecs[i].node.Some? ==> r.codecs[i] == l.codecs[i];
        }
      }
    }
  }

  /** Running a link that is not settled again changes it. */
  lemma UnsettledChanges(t: Tree, m: Link)
    requires !Skipped(m) && !AllSettled(t, m.codecs) && |m.codecs| > 1 && Resolves(t, m)
    requires forall i :: 0 <= i < |m.codecs| ==> m.codecs[i].node.None?
    ensures Once(t, m) != m
  {
    hide ResolveCodecs, Survivors, ResolveLink;
    ResolvedParts(t, m);
    ResolvedCodecs(t, m.codecs);
    var i :| 0 <= i < |m.codecs| && !Settled(t, m.codecs[i]);
    assert ResolveLink(t, m).0.codecs[i].name.None?;
  }

  /** Once more on a link that was resolved and compacted: nothing changes, exactly unless it relapses. */
  lemma {:induction false} LinkTwice(t: Tree, l: Link)
    requires Resolves(t, l)
    ensures
      var m := Once(t, l);
      Resolves(t, m) && Once(t, m) == m <==> !Relapses(t, l)
  {
    hide ResolveCodecs, Survivors, ResolveLink, CompactLink, Relapses;
    RelapsesIff(t, l);
    var m := Once(t, l);
    ResolvedParts(t, l);
    EndsOfOnce(t, l);
    OnceSettles(t, l);
    ResolvingAgain(t, m);
    CompactingAgain(t, ResolveLink(t, l).0, true);
    if LeavesUnsettled(t, l) && Resolves(t, m) {
      OnceLength(t, l);
      UnsettledChanges(t, m);
    }
  }

  lemma EndsOfOnce(t: Tree, l: Link)
    ensures Once(t, l).platform == ResolveLink(t, l).0.platform && Once(t, l).cpu == ResolveLink(t, l).0.cpu
  {
    hide ResolveLink, Survivors;
  }

  lemma OnceLength(t: Tree, l: Link)
    requires LeavesUnsettled(t, l) && Resolves(t, l)
    ensures |Once(t, l).codecs| == |l.codecs|
  {
    hide ResolveLink, Survivors;
    ResolvedParts(t, l);
  }

  // ---- The card ----

  lemma {:induction false} PassIsPointwise(work: (nat, Link) -> (Link, int), ls: seq<Link>, k: nat)
    ensures
      var (rs, rc) := Pass(work, ls, k);
      && (rc == 0 <==> forall i: nat :: i < |ls| ==> work(k + i, ls[i]).1 == 0)
      && (rc == 0 ==> forall i: nat :: i < |ls| ==> rs[i] == work(k + i, ls[i]).0)
    decreases |ls|
  {
    if ls != [] {
      var (l, rc) := work(k, ls[0]);
      assert work(k + 0, ls[0]) == (l, rc);
      if rc == 0 {
        PassIsPointwise(work, ls[1..], k + 1);
        var (rest, after) := Pass(work, ls[1..], k + 1);
        if after == 0 {
          forall i: nat | i < |ls|
            ensures work(k + i, ls[i]).1 == 0 && ([l] + rest)[i] == work(k + i, ls[i]).0
          {
            if i > 0 {
              assert work(k + 1 + (i - 1), ls[1..][i - 1]) == work(k + i, ls[i]);
            }
          }
        } else {
          var i: nat :| i < |ls| - 1 && work(k + 1 + i, ls[1..][i]).1 != 0;
          assert work(k + (i + 1), ls[i + 1]).1 != 0;
        }
      }
    }
  }

  lemma {:induction false} ResolvePass(t: Tree, ls: seq<Link>)
    ensures
      var (rs, rc) := Pass(Resolving(t), ls);
      && (rc == 0 <==> forall i :: 0 <= i < |ls| ==> Resolves(t, ls[i]))
      && (rc == 0 ==> forall i :: 0 <= i < |ls| ==> rs[i] == ResolveLink(t, ls[i]).0)
  {
    hide Pass, ResolveLink;
    PassIsPointwise(Resolving(t), ls, 0);
    assert forall i :: 0 <= i < |ls| ==> Resolving(t)(0 + i, ls[i]) == ResolveLink(t, ls[i]);
  }

  lemma {:induction false} CompactPass(t: Tree, ls: seq<Link>, canAllocate: nat -> bool)
    ensures
      var (ms, rc) := Pass(Compacting(t, canAllocate), ls);
      && (rc == 0 <==> forall i :: 0 <= i < |ls| ==> (Shrinks(t, ls[i]) ==> canAllocate(i)))
      && (rc == 0 ==> forall i :: 0 <= i < |ls| ==> ms[i] == CompactLink(t, ls[i], true).0)
  {
    hide Pass, CompactLink, Shrinks, Compacting;
    var work := Compacting(t, canAllocate);
    var (ms, rc) := Pass(work, ls);
    PassIsPointwise(work, ls, 0);
    forall i: nat | i < |ls|
      ensures work(0 + i, ls[i]).1 == 0 <==> (Shrinks(t, ls[i]) ==> canAllocate(i))
      ensures rc == 0 ==> ms[i] == CompactLink(t, ls[i], true).0
    {
      CompactingOne(t, canAllocate, i, ls[i]);
      AllocationMatters(t, ls[i], canAllocate(i));
    }
  }

  lemma CompactingOne(t: Tree, canAllocate: nat -> bool, k: nat, l: Link)
    ensures Compacting(t, canAllocate)(k, l) == CompactLink(t, l, canAllocate(k))
  {
    hide CompactLink;
  }

  lemma {:induction false} PopulateIsPointwise(t: Tree, ls: seq<Link>, canAllocate: nat -> bool)
    ensures
      var (ms, rc) := Populate(t, ls, canAllocate);
      && (rc == 0 <==> forall i :: 0 <= i < |ls| ==>
            Resolves(t, ls[i]) && (Shrinks(t, ResolveLink(t, ls[i]).0) ==> canAllocate(i)))
      && (rc == 0 ==> forall i :: 0 <= i < |ls| ==> ms[i] == Once(t, ls[i]))
  {
    hide Pass, ResolveLink, CompactLink, Shrinks, Resolves;
    ResolvePass(t, ls);
    CompactPass(t, Pass(Resolving(t), ls).0, canAllocate);
  }

  /** A link of several codecs of which some but not all are enabled needs a shorter array. */
  predicate NeedsArray(t: Tree, l: Link) {
    && |ByName(t, l).codecs| > 1
    && 0 < |LivePositions(t, ByName(t, l).codecs)| < |ByName(t, l).codecs|
  }

  lemma NeedsArrayIff(t: Tree, l: Link)
    requires NamesKnown(t, l)
    ensures NeedsArray(t, l) <==> Shrinks(t, ResolveLink(t, l).0)
  {
    hide ResolveLink, Survivors, LivePositions;
    LinkIsResolved(t, l);
    SurvivorsAreTheLive(t, ByName(t, l).codecs);
  }

  /**
    * Population succeeds exactly when every link's names are known and every link that needs a shorter array gets
    * it.
    */
  lemma {:induction false} PopulateEachLink(t: Tree, ls: seq<Link>, canAllocate: nat -> bool)
    ensures Populate(t, ls, canAllocate).1 == 0 <==>
      forall i :: 0 <= i < |ls| ==> NamesKnown(t, ls[i]) && (NeedsArray(t, ls[i]) ==> canAllocate(i))
  {
    hide Populate, ResolveLink, Shrinks, NamesKnown, NeedsArray;
    PopulateIsPointwise(t, ls, canAllocate);
    forall i | 0 <= i < |ls|
      ensures NamesKnown(t, ls[i]) <==> Resolves(t, ls[i])
      ensures NamesKnown(t, ls[i]) ==> (NeedsArray(t, ls[i]) <==> Shrinks(t, ResolveLink(t, ls[i]).0))
    {
      LinkIsResolved(t, ls[i]);
      if NamesKnown(t, ls[i]) {
        NeedsArrayIff(t, ls[i]);
      }
    }
  }

  // ---- A population that fails ----

  /** What a pass makes of link i alone. */
  function Alone(work: (nat, Link) -> (Link, int), ls: seq<Link>, base: nat, i: nat): (Link, int)
    requires i < |ls|
  {
    work(base + i, ls[i])
  }

  /** Link k is the first that `work` fails on; the links before it are done, and those behind it left alone. */
  lemma {:induction false} PassStops(work: (nat, Link) -> (Link, int), ls: seq<Link>, base: nat) returns (k: nat)
    requires Pass(work, ls, base).1 != 0
    ensures
      var (rs, rc) := Pass(work, ls, base);
      && k < |ls| && rc == Alone(work, ls, base, k).1
      && (forall i: nat :: i < k ==> Alone(work, ls, base, i).1 == 0)
      && (forall i: nat :: i <= k ==> rs[i] == Alone(work, ls, base, i).0)
      && (forall i :: k < i < |ls| ==> rs[i] == ls[i])
    decreases |ls|
  {
    hide Alone;
    AloneShifts(work, ls, base);
    var (l, rc) := work(base, ls[0]);
    if rc != 0 {
      k := 0;
    } else {
      var j := PassStops(work, ls[1..], base + 1);
      k := j + 1;
      var rest := Pass(work, ls[1..], base + 1).0;
      forall i: nat | i <= k
        ensures i < k ==> Alone(work, ls, base, i).1 == 0
        ensures ([l] + rest)[i] == Alone(work, ls, base, i).0
      {
        if i > 0 {
          assert Alone(work, ls, base, i) == Alone(work, ls[1..], base + 1, i - 1);
        }
      }
    }
  }

  lemma AloneShifts(work: (nat, Link) -> (Link, int), ls: seq<Link>, base: nat)
    requires ls != []
    ensures Alone(work, ls, base, 0) == work(base, ls[0])
    ensures forall i: nat :: 0 < i < |ls| ==> Alone(work, ls, base, i) == Alone(work, ls[1..], base + 1, i - 1)
  {
    forall i: nat | 0 < i < |ls| ensures Alone(work, ls, base, i) == Alone(work, ls[1..], base + 1, i - 1) {
      assert base + 1 + (i - 1) == base + i && ls[1..][i - 1] == ls[i];
    }
  }

  /**
    * A population that fails because of a name fails at its first link with an unknown one, with that link's code; the
    * links before it are resolved, none is shortened, and those behind it are untouched.
    */
  lemma {:induction false} UnknownNameFails(t: Tree, ls: seq<Link>, canAllocate: nat -> bool, k: nat)
    requires k < |ls| && !NamesKnown(t, ls[k]) && forall i :: 0 <= i < k ==> NamesKnown(t, ls[i])
    ensures
      var (ms, rc) := Populate(t, ls, canAllocate);
      && rc == FailureCode(t, ls[k])
      && (forall i :: 0 <= i < k ==> ms[i] == ByName(t, ls[i]))
      && forall i :: k < i < |ls| ==> ms[i] == ls[i]
  {
    hide Pass, ResolveLink, NamesKnown, ByName, FailureCode;
    ResolvePass(t, ls);
    forall i: nat | i < |ls|
      ensures Alone(Resolving(t), ls, 0, i) == ResolveLink(t, ls[i])
      ensures Resolves(t, ls[i]) <==> NamesKnown(t, ls[i])
      ensures NamesKnown(t, ls[i]) ==> ResolveLink(t, ls[i]).0 == ByName(t, ls[i])
    {
      LinkIsResolved(t, ls[i]);
    }
    assert !Resolves(t, ls[k]);
    var j := PassStops(Resolving(t), ls, 0);
    assert Alone(Resolving(t), ls, 0, j).1 != 0;
    LinkIsResolved(t, ls[k]);
  }

  /**
    * With all names known, a population fails at the first link that needs an array and does not get it, with -ENOMEM;
    * the links behind it are resolved and not shortened.
    */
  lemma {:induction false} NoArrayFails(t: Tree, ls: seq<Link>, canAllocate: nat -> bool, k: nat)
    requires forall i :: 0 <= i < |ls| ==> NamesKnown(t, ls[i])
    requires k < |ls| && NeedsArray(t, ls[k]) && !canAllocate(k)
    requires forall i :: 0 <= i < k && NeedsArray(t, ls[i]) ==> canAllocate(i)
    ensures
      var (ms, rc) := Populate(t, ls, canAllocate);
      rc == -ENOMEM && forall i :: k < i < |ls| ==> ms[i] == ByName(t, ls[i])
  {
    hide Pass, ResolveLink, CompactLink, NamesKnown, NeedsArray, Shrinks, ByName;
    ResolvePass(t, ls);
    var (rs, code) := Pass(Resolving(t), ls);
    forall i | 0 <= i < |ls| ensures Resolves(t, ls[i]) && ResolveLink(t, ls[i]).0 == ByName(t, ls[i]) {
      LinkIsResolved(t, ls[i]);
    }
    var work := Compacting(t, canAllocate);
    CompactPass(t, rs, canAllocate);
    forall i: nat | i < |ls|
      ensures Alone(work, rs, 0, i).1 == (if NeedsArray(t, ls[i]) && !canAllocate(i) then -ENOMEM else 0)
    {
      NeedsArrayIff(t, ls[i]);
      CompactingOne(t, canAllocate, i, rs[i]);
      AllocationMatters(t, rs[i], canAllocate(i));
    }
    assert Shrinks(t, rs[k]) by { NeedsArrayIff(t, ls[k]); }
    var j := PassStops(work, rs, 0);
    assert Alone(work, rs, 0, j).1 != 0;
  }

  lemma AllocationMatters(t: Tree, l: Link, canAllocate: bool)
    ensures CompactLink(t, l, canAllocate).1 == 0 <==> (Shrinks(t, l) ==> canAllocate)
    ensures CompactLink(t, l, canAllocate).1 == 0 ==> CompactLink(t, l, canAllocate).0 == CompactLink(t, l, true).0
    ensures CompactLink(t, l, canAllocate).1 in {0, -ENOMEM}
  {
    hide Survivors;
  }

  /**
    * After a successful population, the platform and the CPU of a link that is not passed over have the nodes at the
    * indices of their names; and of its codecs, resolved in the same way, a link with several holds the enabled ones in
    * order if there are some but not all of them, and otherwise as many codecs as before: all unchanged if all are
    * enabled, and all without a node if none is. A link with at most one codec keeps it whether it is enabled or not.
    */
  lemma {:induction false} PopulatedCodecs(t: Tree, ls: seq<Link>, canAllocate: nat -> bool, i: nat)
    requires i < |ls| && Populate(t, ls, canAllocate).1 == 0
    ensures
      var m := Populate(t, ls, canAllocate).0[i];
      var cs, ms := ByName(t, ls[i]).codecs, m.codecs;
      var live := LivePositions(t, cs);
      && m.platform == (if PassedOver(ls[i]) then ls[i].platform else PlatformByName(t, ls[i].platform))
      && m.cpu == (if PassedOver(ls[i]) then ls[i].cpu else CpuByName(t, ls[i].cpu))
      && if |cs| <= 1 || |live| == |cs| then ms == cs
         else if |live| == 0 then |ms| == |cs| && forall j :: 0 <= j < |ms| ==> ms[j] == cs[j].(node := None)
         else |ms| == |live| && forall k :: 0 <= k < |ms| ==> ms[k] == cs[live[k]].(name := None)
  {
    hide ResolveLink, Survivors, Populate, LivePositions;
    PopulateIsPointwise(t, ls, canAllocate);
    LinkIsResolved(t, ls[i]);
    var l := ByName(t, ls[i]);
    SurvivorsAreTheLive(t, l.codecs);
    SurvivorCount(t, l.codecs);
    assert Populate(t, ls, canAllocate).0[i] == CompactLink(t, l, true).0;
  }

  /** Running population again after a success changes nothing, and succeeds, exactly when no link relapses. */
  lemma {:induction false} PopulateTwice(t: Tree, ls: seq<Link>, first: nat -> bool, second: nat -> bool)
    requires Populate(t, ls, first).1 == 0
    ensures
      var ms := Populate(t, ls, first).0;
      Populate(t, ms, second) == (ms, 0) <==> forall i :: 0 <= i < |ls| ==> !Relapses(t, ls[i])
  {
    hide Populate, Resolves, Relapses, ResolveLink, Once, Survivors, Shrinks;
    var ms := Populate(t, ls, first).0;
    PopulateIsPointwise(t, ls, first);
    PopulateIsPointwise(t, ms, second);
    forall i | 0 <= i < |ls|
      ensures Resolves(t, ms[i]) && Once(t, ms[i]) == ms[i] <==> !Relapses(t, ls[i])
      ensures Resolves(t, ms[i]) && Once(t, ms[i]) == ms[i] ==> !Shrinks(t, ResolveLink(t, ms[i]).0)
    {
      LinkTwice(t, ls[i]);
      if Resolves(t, ms[i]) && Once(t, ms[i]) == ms[i] {
        SettledDoesNotShrink(t, ms[i]);
      }
    }
    var ns := Populate(t, ms, second).0;
    if forall i :: 0 <= i < |ls| ==> !Relapses(t, ls[i]) {
      assert ns == ms;
    }
  }

  /** No codec comes with both a node and a name; the boards' tables give none a node to begin with. */
  predicate NodeOrName(l: Link) {
    forall i :: 0 <= i < |l.codecs| ==> l.codecs[i].node.None? || l.codecs[i].name.None?
  }

  /** On such links population is idempotent. */
  lemma {:induction false} PopulateIsIdempotent(t: Tree, ls: seq<Link>, first: nat -> bool, second: nat -> bool)
    requires forall i :: 0 <= i < |ls| ==> NodeOrName(ls[i])
    requires Populate(t, ls, first).1 == 0
    ensures
      var ms := Populate(t, ls, first).0;
      Populate(t, ms, second) == (ms, 0)
  {
    hide Populate, ResolveLink, Survivors;
    PopulateTwice(t, ls, first, second);
    assert forall i :: 0 <= i < |ls| ==> NodeOrName(ls[i]) ==> !Relapses(t, ls[i]);
  }

  lemma SettledDoesNotShrink(t: Tree, m: Link)
    requires Resolves(t, m) && Once(t, m) == m
    ensures !Shrinks(t, ResolveLink(t, m).0)
  {
    hide ResolveCodecs, Survivors, ResolveLink;
    ResolvedParts(t, m);
  }

  /** Two disabled codecs with both a node and a known name: the second run finds the first one's name again. */
  lemma {:induction false} RelapseHappens()
    ensures
      var t := Tree(_ => 0, _ => Some(1), _ => -1, _ => None, _ => 0, _ => Some(3), n => n == 3);
      var c := Codec(Some("codec"), Some(2), "dai");
      var l := Link(Component(None, Some(1)), Component(None, None), [c, c]);
      NamesKnown(t, l) && Relapses(t, l)
  {
    var t := Tree(_ => 0, _ => Some(1), _ => -1, _ => None, _ => 0, _ => Some(3), n => n == 3);
    var c := Codec(Some("codec"), Some(2), "dai");
    var l := Link(Component(None, Some(1)), Component(None, None), [c, c]);
    assert NodeAndKnownName(t, l.codecs[0]);
  }
}
