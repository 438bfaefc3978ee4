/**
  * What the set-up of the auxiliary devices chooses, exactly when it assigns anything, and what its code says.
  */
module AuxDevicesTheorems {
  import opened Machine
  import opened AuxDevices

  // ---- What has been chosen ----

  /** The assigned devices, given the positions of the speakers among their phandles. */
  ghost predicate Selection(t: Tree, card: Card, at: seq<nat>)
    requires card.aux.Some? && card.conf.Some?
  {
    var aux, conf := card.aux.value, card.conf.value;
    var codecs := if WantsCodecs(t) then t.codecCount else 0;
    && |at| == (if WantsSpeakers(t) then Min(t.wsaMax, if t.wsaCount < 0 then 0 else t.wsaCount) else 0)
    && codecs >= 0
    && |aux| == |conf| == card.numAux == card.numConfigs == |at| + codecs
    && (forall j, k :: 0 <= j < k < |at| ==> at[j] < at[k])
    && (forall k :: 0 <= k < |at| ==> SpeakerIsAt(t, aux[k], conf[k], k, at[k]))
    && (forall i: nat, k :: 0 <= k < |at| && i < at[k] ==>
          t.wsaNode(i).Some? && (t.registered(t.wsaNode(i).value) ==> i in at))
    && (forall j :: |at| <= j < |aux| ==> CodecIsAt(t, aux[j], conf[j], j - |at|))
  }

  /** Number k of the speakers is the registered one at position i, with the prefix of that position. */
  predicate SpeakerIsAt(t: Tree, a: AuxDev, c: CodecConf, k: nat, i: nat) {
    && t.wsaNode(i) == Some(a.node) && t.registered(a.node)
    && a.kind == Speaker(k)
    && c == CodecConf(a.node, Some(t.prefix(i)))
  }

  predicate CodecIsAt(t: Tree, a: AuxDev, c: CodecConf, k: nat) {
    && t.codecNode(k) == Some(a.node) && t.registered(a.node)
    && a.kind == AuxCodec
    && c == CodecConf(a.node, None)
  }

  function Indexes(found: seq<Found>): (at: seq<nat>)
    ensures |at| == |found| && forall k :: 0 <= k < |found| ==> at[k] == found[k].index
  {
    seq(|found|, k requires 0 <= k < |found| => found[k].index)
  }

  lemma {:induction false} SpeakersAreFirst(t: Tree, m: Memory)
    requires Consistent(t) && ChooseSpeakers(t, m).Chosen?
    ensures
      var found := ChooseSpeakers(t, m).found;
      var at := Indexes(found);
      && (forall k :: 0 <= k < |found| ==> t.wsaNode(at[k]) == Some(found[k].node) && t.registered(found[k].node))
      && (forall j, k :: 0 <= j < k < |at| ==> at[j] < at[k])
      && (forall i: nat, k :: 0 <= k < |at| && i < at[k] ==>
            t.wsaNode(i).Some? && (t.registered(t.wsaNode(i).value) ==> i in at))
  {
    hide Search;
    if WantsSpeakers(t) {
      var n := ToU32(t.wsaCount);
      SearchFinds(t.wsaNode, t.registered, n, Min(t.wsaMax, n));
      var found := ChooseSpeakers(t, m).found;
      forall i: nat, k | 0 <= k < |found| && i < Indexes(found)[k] && t.registered(t.wsaNode(i).value)
        ensures i in Indexes(found)
      {
        assert Includes(found, i);
        var j :| 0 <= j < |found| && found[j].index == i;
        assert Indexes(found)[j] == i;
      }
    }
  }

  lemma {:induction false} CodecsAreAll(t: Tree, m: Memory)
    requires Consistent(t) && ChooseCodecs(t, m).Chosen?
    ensures
      var found := ChooseCodecs(t, m).found;
      forall k :: 0 <= k < |found| ==> t.codecNode(k) == Some(found[k].node) && t.registered(found[k].node)
  {
    hide Search;
    if WantsCodecs(t) {
      var n := ToU32(t.codecCount);
      SearchFinds(t.codecNode, t.registered, n, n);
      var found := ChooseCodecs(t, m).found;
      IncreasingFills(Indexes(found), n);
    }
  }

  lemma {:induction false} IncreasingFills(at: seq<nat>, n: nat)
    requires |at| == n && forall j, k :: 0 <= j < k < |at| ==> at[j] < at[k]
    requires n > 0 ==> at[n - 1] < n
    ensures forall k :: 0 <= k < n ==> at[k] == k
    decreases n
  {
    if n > 0 {
      AtLeastItsPlace(at, n - 1);
      assert at[n - 1] == n - 1;
      IncreasingFills(at[..n - 1], n - 1);
      assert forall k :: 0 <= k < n - 1 ==> at[k] == at[..n - 1][k];
    }
  }

  lemma {:induction false} AtLeastItsPlace(at: seq<nat>, k: nat)
    requires k < |at| && forall j, k :: 0 <= j < k < |at| ==> at[j] < at[k]
    ensures at[k] >= k
    decreases k
  {
    if k > 0 {
      AtLeastItsPlace(at, k - 1);
    }
  }

  /**
    * Whenever the card's devices are assigned, they are the first registered speakers in device-tree
    * order, as many as the board takes, each with the prefix of its own position, followed by every
    * auxiliary codec in order, and the count on the card is the number of them.
    */
  lemma {:induction false} AssignedSelection(t: Tree, m: Memory, card: Card)
    requires Consistent(t) && card.aux.None? && card.conf.None?
    ensures
      var after := Init(t, m, card).0;
      && after.aux.Some? == after.conf.Some?
      && (after.aux.Some? ==> exists at :: Selection(t, after, at))
  {
    hide ChooseSpeakers, ChooseCodecs, Selection, NameSpeakers, AuxDevs, CodecConfs;
    var s, c := ChooseSpeakers(t, m), ChooseCodecs(t, m);
    if Init(t, m, card).0.aux.Some? {
      SelectionHolds(t, m, Init(t, m, card).0, s.found, c.found);
      assert Selection(t, Init(t, m, card).0, Indexes(s.found));
    }
  }

  lemma SelectionHolds(t: Tree, m: Memory, after: Card, speakers: seq<Found>, codecs: seq<Found>)
    requires Consistent(t)
    requires ChooseSpeakers(t, m) == Chosen(speakers) && ChooseCodecs(t, m) == Chosen(codecs)
    requires after.numAux == after.numConfigs == ToU32(|speakers| + |codecs|)
    requires after.aux == Some(AuxDevs(speakers, codecs)) && after.conf == Some(CodecConfs(t, speakers, codecs))
    ensures Selection(t, after, Indexes(speakers))
  {
    hide ChooseSpeakers, ChooseCodecs;
    ChoicesFit(t, m);
    SpeakersAreFirst(t, m);
    CodecsAreAll(t, m);
    var at, aux, conf := Indexes(speakers), after.aux.value, after.conf.value;
    assert forall k :: 0 <= k < |at| ==> SpeakerIsAt(t, aux[k], conf[k], k, at[k]);
    assert forall j :: |at| <= j < |aux| ==> CodecIsAt(t, aux[j], conf[j], j - |at|);
  }

  // ---- When devices are assigned ----

  /** How many of the first u phandles are registered. */
  function Registered(node: nat -> Option<Node>, registered: Node -> bool, u: nat): nat {
    if u == 0 then 0
    else
      Registered(node, registered, u - 1) +
      (if node(u - 1).Some? && registered(node(u - 1).value) then 1 else 0)
  }

  predicate AllThere(node: nat -> Option<Node>, u: nat) {
    forall i: nat :: i < u ==> node(i).Some?
  }

  /** None of the first u phandles is missing, and the last of them is the registered one that makes `max`. */
  predicate Reaches(node: nat -> Option<Node>, registered: Node -> bool, u: nat, max: nat) {
    && u > 0 && AllThere(node, u) && registered(node(u - 1).value)
    && Registered(node, registered, u) == max
  }

  lemma {:induction false} RegisteredGrows(node: nat -> Option<Node>, registered: Node -> bool, u: nat, v: nat)
    requires u <= v
    ensures Registered(node, registered, u) <= Registered(node, registered, v)
    decreases v
  {
    if u < v {
      RegisteredGrows(node, registered, u, v - 1);
    }
  }

  lemma ReachesOnce(node: nat -> Option<Node>, registered: Node -> bool, u: nat, v: nat, max: nat)
    requires Reaches(node, registered, u, max) && Reaches(node, registered, v, max)
    ensures u == v
  {
    if u < v {
      RegisteredGrows(node, registered, u, v - 1);
    } else if v < u {
      RegisteredGrows(node, registered, v, u - 1);
    }
  }

  /** A scan goes on to the phandle that makes `max`, to a missing one, or to the end with fewer. */
  lemma {:induction false} ScanReaches(
      node: nat -> Option<Node>, registered: Node -> bool, n: nat, max: nat, i: nat, found: seq<Found>)
    requires i <= n && |found| < max && AllThere(node, i) && Registered(node, registered, i) == |found|
    ensures
      var s := Scan(node, registered, n, max, i, found);
      && (s.Some? && |s.value| >= max <==> exists u: nat :: u <= n && Reaches(node, registered, u, max))
      && (s.Some? && |s.value| < max ==> AllThere(node, n))
      && (s.Some? && |s.value| >= max ==>
            && |s.value| == max && s.value[max - 1].index + 1 <= n
            && Reaches(node, registered, s.value[max - 1].index + 1, max))
      && (s.None? ==> !AllThere(node, n))
    decreases n - i
  {
    if i == n {
      NotReached(node, registered, n, max, n);
    } else if node(i).None? {
      assert forall u: nat :: u > i ==> !AllThere(node, u);
      NotReached(node, registered, n, max, i);
    } else {
      assert AllThere(node, i + 1);
      if registered(node(i).value) {
        var more := found + [Found(node(i).value, i)];
        if |more| == max {
          assert Reaches(node, registered, i + 1, max);
        } else {
          ScanReaches(node, registered, n, max, i + 1, more);
        }
      } else {
        ScanReaches(node, registered, n, max, i + 1, found);
      }
    }
  }

  lemma NotReached(node: nat -> Option<Node>, registered: Node -> bool, n: nat, max: nat, i: nat)
    requires Registered(node, registered, i) < max
    requires i == n || forall u: nat :: u > i ==> !AllThere(node, u)
    ensures !exists u: nat :: u <= n && Reaches(node, registered, u, max)
  {
    if u: nat :| u <= n && Reaches(node, registered, u, max) {
      if u <= i {
        RegisteredGrows(node, registered, u, i);
      }
    }
  }

  /**
    * A search succeeds exactly if the phandle that makes the number wanted comes before any missing one; otherwise the
    * probe is deferred exactly if none is missing, since more may still be registered.
    */
  lemma SearchOutcome(node: nat -> Option<Node>, registered: Node -> bool, n: nat, max: nat)
    requires 0 < max
    ensures Search(node, registered, n, max).Chosen? <==> exists u: nat :: u <= n && Reaches(node, registered, u, max)
    ensures Search(node, registered, n, max).Refused? ==>
      Search(node, registered, n, max).code == (if AllThere(node, n) then -EPROBE_DEFER else -EINVAL)
    ensures Search(node, registered, n, max).Chosen? ==>
      var found := Search(node, registered, n, max).found;
      |found| == max && Reaches(node, registered, found[max - 1].index + 1, max)
  {
    hide Scan, Reaches, Registered;
    assert Registered(node, registered, 0) == 0 by { NoneRegistered(node, registered); }
    ScanReaches(node, registered, n, max, 0, []);
  }

  lemma NoneRegistered(node: nat -> Option<Node>, registered: Node -> bool)
    ensures Registered(node, registered, 0) == 0
  {
  }

  /** The speakers can be had: u is where the list has as many registered ones as the board takes. */
  predicate SpeakersReach(t: Tree, m: Memory, u: nat) {
    && t.wsaCount > 0 && ToU32(t.prefixCount) == t.wsaCount && m.wsaInfo && u <= t.wsaCount
    && Reaches(t.wsaNode, t.registered, u, Min(t.wsaMax, t.wsaCount))
  }

  /** Each of them gets its name, and its prefix is read. */
  predicate SpeakersNamed(t: Tree, m: Memory, u: nat) {
    && (forall k: nat :: k < Min(t.wsaMax, if t.wsaCount < 0 then 0 else t.wsaCount) ==> m.name(k))
    && (forall i: nat :: i < u && t.wsaNode(i).Some? && t.registered(t.wsaNode(i).value) ==> t.prefixRc(i) == 0)
  }

  predicate CodecsThere(t: Tree, m: Memory) {
    && t.codecCount > 0 && m.codecInfo
    && forall i: nat :: i < t.codecCount ==> t.codecNode(i).Some? && t.registered(t.codecNode(i).value)
  }

  lemma {:induction false} AllRegistered(node: nat -> Option<Node>, registered: Node -> bool, n: nat)
    ensures Registered(node, registered, n) <= n
    ensures Registered(node, registered, n) == n <==>
      forall i: nat :: i < n ==> node(i).Some? && registered(node(i).value)
  {
    if n > 0 {
      AllRegistered(node, registered, n - 1);
    }
  }

  lemma {:induction false} CodecsChosenIff(t: Tree, m: Memory)
    requires Consistent(t) && WantsCodecs(t)
    ensures ChooseCodecs(t, m).Chosen? <==> CodecsThere(t, m)
  {
    hide Search, Reaches;
    var n := ToU32(t.codecCount);
    if n > 0 {
      SearchOutcome(t.codecNode, t.registered, n, n);
      ReachesAll(t.codecNode, t.registered, n);
      if t.codecCount < 0 {
        assert t.codecNode(0).None?;
      }
    }
  }

  lemma ReachesAll(node: nat -> Option<Node>, registered: Node -> bool, n: nat)
    requires n > 0
    ensures (exists u: nat :: u <= n && Reaches(node, registered, u, n)) <==>
      forall i: nat :: i < n ==> node(i).Some? && registered(node(i).value)
  {
    AllRegistered(node, registered, n);
    if u: nat :| u <= n && Reaches(node, registered, u, n) {
      AllRegistered(node, registered, u);
    }
    if forall i: nat :: i < n ==> node(i).Some? && registered(node(i).value) {
      assert Reaches(node, registered, n, n);
    }
  }

  lemma {:induction false} SpeakersChosenIff(t: Tree, m: Memory)
    requires Consistent(t) && WantsSpeakers(t)
    ensures ChooseSpeakers(t, m).Chosen? <==> exists u :: SpeakersReach(t, m, u)
    ensures ChooseSpeakers(t, m).Chosen? ==>
      var found := ChooseSpeakers(t, m).found;
      |found| > 0 && SpeakersReach(t, m, found[|found| - 1].index + 1)
  {
    hide Search, Reaches;
    var n := ToU32(t.wsaCount);
    if n > 0 {
      var max := Min(t.wsaMax, n);
      SearchOutcome(t.wsaNode, t.registered, n, max);
      SearchFinds(t.wsaNode, t.registered, n, max);
      if t.wsaCount < 0 {
        NothingReached(t, n, max);
      } else if exists u: nat :: u <= n && Reaches(t.wsaNode, t.registered, u, max) {
        var u: nat :| u <= n && Reaches(t.wsaNode, t.registered, u, max);
        assert ToU32(t.prefixCount) == t.wsaCount && m.wsaInfo ==> SpeakersReach(t, m, u);
      }
    }
  }

  lemma NothingReached(t: Tree, n: nat, max: nat)
    requires Consistent(t) && t.wsaCount < 0
    ensures !exists u: nat :: u <= n && Reaches(t.wsaNode, t.registered, u, max)
  {
    if u: nat :| u <= n && Reaches(t.wsaNode, t.registered, u, max) {
      assert t.wsaNode(0).None?;
    }
  }

  lemma {:induction false} NamesIff(t: Tree, m: Memory, found: seq<Found>, k: nat)
    requires k <= |found|
    ensures NameSpeakers(t, m, found, k) == 0 <==>
      forall j: nat :: k <= j < |found| ==> m.name(j) && t.prefixRc(found[j].index) == 0
    decreases |found| - k
  {
    if k < |found| {
      NamesIff(t, m, found, k + 1);
    }
  }

  lemma PrefixesIff(t: Tree, found: seq<Found>, u: nat)
    requires FirstRegistered(t.wsaNode, t.registered, found, u)
    ensures (forall j: nat :: j < |found| ==> t.prefixRc(found[j].index) == 0) <==>
      forall i: nat :: i < u && t.wsaNode(i).Some? && t.registered(t.wsaNode(i).value) ==> t.prefixRc(i) == 0
  {
    if forall j: nat :: j < |found| ==> t.prefixRc(found[j].index) == 0 {
      forall i: nat | i < u && t.registered(t.wsaNode(i).value) ensures t.prefixRc(i) == 0 {
        assert Includes(found, i);
        var j :| 0 <= j < |found| && found[j].index == i;
      }
    }
  }

  lemma {:induction false} NamedIff(t: Tree, m: Memory)
    requires Consistent(t) && WantsSpeakers(t) && ChooseSpeakers(t, m).Chosen?
    ensures
      var found := ChooseSpeakers(t, m).found;
      |found| > 0 &&
      (NameSpeakers(t, m, found, 0) == 0 <==> SpeakersNamed(t, m, found[|found| - 1].index + 1))
  {
    hide Search, NameSpeakers, FirstRegistered, Consistent;
    ChoicesFit(t, m);
    var n := ToU32(t.wsaCount);
    SearchFinds(t.wsaNode, t.registered, n, Min(t.wsaMax, n));
    var found := ChooseSpeakers(t, m).found;
    NamesIff(t, m, found, 0);
    PrefixesIff(t, found, found[|found| - 1].index + 1);
  }

  /**
    * The devices are assigned exactly if both arrays can be had, and the board either takes no speakers or its list
    * reaches as many registered ones as it takes, each with a name and a prefix; and it either takes no codecs or every
    * codec of its list is registered.
    */
  lemma {:induction false} AssignedIff(t: Tree, m: Memory, card: Card)
    requires Consistent(t) && card.aux.None?
    ensures Init(t, m, card).0.aux.Some? <==>
      && m.aux && m.conf
      && (WantsSpeakers(t) ==> exists u :: SpeakersReach(t, m, u) && SpeakersNamed(t, m, u))
      && (WantsCodecs(t) ==> CodecsThere(t, m))
  {
    hide Search, Reaches, SpeakersNamed, CodecsThere, NameSpeakers, AuxDevs, CodecConfs;
    if WantsCodecs(t) {
      CodecsChosenIff(t, m);
    }
    if WantsSpeakers(t) {
      SpeakersChosenIff(t, m);
      if ChooseSpeakers(t, m).Chosen? {
        NamedIff(t, m);
        var found := ChooseSpeakers(t, m).found;
        forall u | SpeakersReach(t, m, u) ensures u == found[|found| - 1].index + 1 {
          ReachesOnce(t.wsaNode, t.registered, u, found[|found| - 1].index + 1, Min(t.wsaMax, t.wsaCount));
        }
      }
    } else {
      NamesIff(t, m, [], 0);
    }
  }

  /**
    * The code of a set-up that is given up for the speakers: an empty list or one without a prefix for each, no memory,
    * a list that does not reach; the last is deferred if no phandle is missing.
    */
  lemma SpeakersRefused(t: Tree, m: Memory, card: Card)
    requires WantsSpeakers(t) && ToU32(t.wsaCount) != ToU32(-ENOENT)
    ensures
      var n := ToU32(t.wsaCount);
      if n == 0 || ToU32(t.prefixCount) != n then Init(t, m, card) == (card, -EINVAL)
      else if !m.wsaInfo then Init(t, m, card) == (card, -ENOMEM)
      else
        (forall u: nat :: u <= n ==> !Reaches(t.wsaNode, t.registered, u, Min(t.wsaMax, n))) ==>
          Init(t, m, card) == (card, if AllThere(t.wsaNode, n) then -EPROBE_DEFER else -EINVAL)
  {
    hide Search, Reaches, AllThere;
    var n := ToU32(t.wsaCount);
    if n > 0 {
      SearchOutcome(t.wsaNode, t.registered, n, Min(t.wsaMax, n));
    }
  }

  /** The same for the codecs, once the speakers are settled. */
  lemma CodecsRefused(t: Tree, m: Memory, card: Card)
    requires ChooseSpeakers(t, m).Chosen? && WantsCodecs(t) && ToU32(t.codecCount) != ToU32(-ENOENT)
    ensures
      var n := ToU32(t.codecCount);
      if n == 0 then Init(t, m, card) == (card, -EINVAL)
      else if !m.codecInfo then Init(t, m, card) == (card, -ENOMEM)
      else
        (exists i: nat :: i < n && (t.codecNode(i).None? || !t.registered(t.codecNode(i).value))) ==>
          Init(t, m, card) == (card, if AllThere(t.codecNode, n) then -EPROBE_DEFER else -EINVAL)
  {
    hide Search, Reaches, AllThere, ChooseSpeakers;
    var n := ToU32(t.codecCount);
    if n > 0 {
      SearchOutcome(t.codecNode, t.registered, n, n);
      ReachesAll(t.codecNode, t.registered, n);
    }
  }

  /** With everything chosen, the set-up fails for want of an array, or at the first speaker without name or prefix. */
  lemma {:induction false} RegisteringFails(t: Tree, m: Memory, card: Card, k: nat)
    requires ChooseSpeakers(t, m).Chosen? && ChooseCodecs(t, m).Chosen?
    ensures !m.aux || !m.conf ==> Init(t, m, card).1 == -ENOMEM
    ensures
      var n := ToU32(|ChooseSpeakers(t, m).found| + |ChooseCodecs(t, m).found|);
      var after := Init(t, m, card).0;
      after.numAux == after.numConfigs == n &&
      (card.aux.None? && after.aux.None? ==> after.conf == card.conf)
    ensures
      var found := ChooseSpeakers(t, m).found;
      && m.aux && m.conf && k < |found|
      && (forall j: nat :: j < k ==> m.name(j) && t.prefixRc(found[j].index) == 0)
      && (!m.name(k) || t.prefixRc(found[k].index) != 0)
      ==> Init(t, m, card).1 == if m.name(k) then -EINVAL else -ENOMEM
  {
    hide ChooseSpeakers, ChooseCodecs, AuxDevs, CodecConfs;
    var found := ChooseSpeakers(t, m).found;
    if k < |found| && forall j: nat :: j < k ==> m.name(j) && t.prefixRc(found[j].index) == 0 {
      NamesUpTo(t, m, found, 0, k);
    }
  }

  lemma {:induction false} NamesUpTo(t: Tree, m: Memory, found: seq<Found>, i: nat, k: nat)
    requires i <= k < |found| && forall j: nat :: i <= j < k ==> m.name(j) && t.prefixRc(found[j].index) == 0
    ensures NameSpeakers(t, m, found, i) == NameSpeakers(t, m, found, k)
    decreases k - i
  {
    if i < k {
      NamesUpTo(t, m, found, i + 1, k);
    }
  }

  /**
    * The code returned does not say whether anything was assigned: it is zero with nothing assigned exactly
    * when the speakers have a maximum but no list, or they are chosen and the codecs have one but no list; and
    * nonzero with the arrays assigned exactly when the board has no speakers and the codec maximum cannot be read.
    */
  lemma CodeAfterAssignment(t: Tree, m: Memory, card: Card)
    requires card.aux.None?
    ensures Init(t, m, card).1 == 0 && Init(t, m, card).0.aux.None? <==>
      || (WantsSpeakers(t) && ToU32(t.wsaCount) == ToU32(-ENOENT))
      || (ChooseSpeakers(t, m).Chosen? && WantsCodecs(t) && ToU32(t.codecCount) == ToU32(-ENOENT))
    ensures Init(t, m, card).0.aux.None? && Init(t, m, card).1 == 0 ==> Init(t, m, card).0 == card
    ensures Init(t, m, card).0.aux.Some? ==> (Init(t, m, card).1 != 0 <==> !WantsSpeakers(t) && t.codecMaxRc != 0)
  {
    hide Scan, NameSpeakers, AuxDevs, CodecConfs;
  }
}
