/**
  * Choosing the auxiliary devices of a sound card: the first registered speaker amplifiers up to the
  * board's maximum, then all the auxiliary codecs. The method scans and fills arrays as the driver does
  * and is proved to compute the function.
  */
module AuxDevices {
  import opened Machine

  const ENOENT := 2

  type Node = nat

  /** What the device tree and the list of registered components answer. */
  datatype Tree = Tree(
    wsaMaxRc: int, wsaMax: uint32, wsaCount: int, wsaNode: nat -> Option<Node>,
    prefixCount: int, prefixRc: nat -> int, prefix: nat -> string,
    codecMaxRc: int, codecMax: uint32, codecCount: int, codecNode: nat -> Option<Node>,
    registered: Node -> bool)

  /** Which allocations succeed; `name` by speaker number. */
  datatype Memory = Memory(wsaInfo: bool, codecInfo: bool, aux: bool, conf: bool, name: nat -> bool)

  datatype Kind = Speaker(number: nat) | AuxCodec
  datatype AuxDev = AuxDev(node: Node, kind: Kind)
  datatype CodecConf = CodecConf(node: Node, prefix: Option<string>)

  datatype Card = Card(numAux: uint32, numConfigs: uint32, aux: Option<seq<AuxDev>>, conf: Option<seq<CodecConf>>)

  datatype Found = Found(node: Node, index: nat)

  /** A count is an int, and a list of phandles has none beyond its count. */
  ghost predicate Consistent(t: Tree) {
    && -0x8000_0000 <= t.wsaCount < 0x8000_0000
    && -0x8000_0000 <= t.codecCount < 0x8000_0000
    && (forall j: nat :: j >= t.wsaCount ==> t.wsaNode(j).None?)
    && (forall j: nat :: j >= t.codecCount ==> t.codecNode(j).None?)
  }

  /**
    * The registered phandles from position i on, stopping once `max` have been found in all; None if a
    * phandle is missing on the way.
    */
  function Scan(
      node: nat -> Option<Node>, registered: Node -> bool, n: nat, max: nat, i: nat,
      found: seq<Found>): Option<seq<Found>>
    requires i <= n
    decreases n - i
  {
    if i == n then Some(found)
    else if node(i).None? then None
    else if !registered(node(i).value) then Scan(node, registered, n, max, i + 1, found)
    else
      var more := found + [Found(node(i).value, i)];
      if |more| == max then Some(more) else Scan(node, registered, n, max, i + 1, more)
  }

  /** The outcome of one selection: the devices, or the code with which the whole set-up returns. */
  datatype Choice = Refused(code: int) | Chosen(found: seq<Found>)

  function Search(node: nat -> Option<Node>, registered: Node -> bool, n: nat, max: nat): Choice {
    var found := Scan(node, registered, n, max, 0, []);
    if found.None? then Refused(-EINVAL)
    else if |found.value| < max then Refused(-EPROBE_DEFER)
    else Chosen(found.value)
  }

  function Min(a: nat, b: nat): nat {
    if a < b then a else b
  }

  function ChooseSpeakers(t: Tree, m: Memory): Choice {
    var n := ToU32(t.wsaCount);
    if t.wsaMaxRc != 0 || t.wsaMax == 0 then Chosen([])
    else if n == ToU32(-ENOENT) then Refused(0)
    else if n == 0 || ToU32(t.prefixCount) != n then Refused(-EINVAL)
    else if !m.wsaInfo then Refused(-ENOMEM)
    else Search(t.wsaNode, t.registered, n, Min(t.wsaMax, n))
  }

  function ChooseCodecs(t: Tree, m: Memory): Choice {
    var n := ToU32(t.codecCount);
    if t.codecMaxRc != 0 || t.codecMax == 0 then Chosen([])
    else if n == ToU32(-ENOENT) then Refused(0)
    else if n == 0 then Refused(-EINVAL)
    else if !m.codecInfo then Refused(-ENOMEM)
    else Search(t.codecNode, t.registered, n, n)
  }

  /** The code with which naming and prefixing the speakers from number k on ends. */
  function NameSpeakers(t: Tree, m: Memory, found: seq<Found>, k: nat): int
    requires k <= |found|
    decreases |found| - k
  {
    if k == |found| then 0
    else if !m.name(k) then -ENOMEM
    else if t.prefixRc(found[k].index) != 0 then -EINVAL
    else NameSpeakers(t, m, found, k + 1)
  }

  function AuxDevs(speakers: seq<Found>, codecs: seq<Found>): (a: seq<AuxDev>)
    ensures |a| == |speakers| + |codecs|
  {
    seq(|speakers|, k requires 0 <= k < |speakers| => AuxDev(speakers[k].node, Speaker(k))) +
    seq(|codecs|, k requires 0 <= k < |codecs| => AuxDev(codecs[k].node, AuxCodec))
  }

  function CodecConfs(t: Tree, speakers: seq<Found>, codecs: seq<Found>): (a: seq<CodecConf>)
    ensures |a| == |speakers| + |codecs|
  {
    seq(|speakers|, k requires 0 <= k < |speakers| => CodecConf(speakers[k].node, Some(t.prefix(speakers[k].index)))) +
    seq(|codecs|, k requires 0 <= k < |codecs| => CodecConf(codecs[k].node, None))
  }

  lemma FilledArrays(t: Tree, speakers: seq<Found>, codecs: seq<Found>, devs: seq<AuxDev>, confs: seq<CodecConf>)
    requires |devs| == |confs| == |speakers| + |codecs|
    requires forall k :: 0 <= k < |speakers| ==>
      && devs[k] == AuxDev(speakers[k].node, Speaker(k))
      && confs[k] == CodecConf(speakers[k].node, Some(t.prefix(speakers[k].index)))
    requires forall k :: |speakers| <= k < |devs| ==>
      && devs[k] == AuxDev(codecs[k - |speakers|].node, AuxCodec)
      && confs[k] == CodecConf(codecs[k - |speakers|].node, None)
    ensures devs == AuxDevs(speakers, codecs) && confs == CodecConfs(t, speakers, codecs)
  {
  }

  function Register(t: Tree, m: Memory, card: Card, speakers: seq<Found>, codecs: seq<Found>): (Card, int) {
    var n := ToU32(|speakers| + |codecs|);
    var counted := card.(numAux := n, numConfigs := n);
    if !m.aux || !m.conf then (counted, -ENOMEM)
    else
      var code := NameSpeakers(t, m, speakers, 0);
      if code != 0 then (counted, code)
      else
        (counted.(aux := Some(AuxDevs(speakers, codecs)), conf := Some(CodecConfs(t, speakers, codecs))),
         if |speakers| == 0 then t.codecMaxRc else 0)
  }

  function Init(t: Tree, m: Memory, card: Card): (Card, int) {
    var speakers := ChooseSpeakers(t, m);
    if speakers.Refused? then (card, speakers.code)
    else
      var codecs := ChooseCodecs(t, m);
      if codecs.Refused? then (card, codecs.code)
      else Register(t, m, card, speakers.found, codecs.found)
  }

  /** The sum of the numbers chosen does not fit the 32-bit count that the arrays are sized by. */
  predicate Overflows(t: Tree, m: Memory) {
    var s, c := ChooseSpeakers(t, m), ChooseCodecs(t, m);
    s.Chosen? && c.Chosen? && |s.found| + |c.found| >= 0x1_0000_0000
  }

  // ---- What a search finds ----

  /** The first registered phandles: in order, each once, and no registered one passed over before the last. */
  predicate FirstRegistered(node: nat -> Option<Node>, registered: Node -> bool, found: seq<Found>, upTo: nat) {
    && (forall k :: 0 <= k < |found| ==>
          && found[k].index < upTo
          && node(found[k].index) == Some(found[k].node)
          && registered(found[k].node))
    && (forall j, k :: 0 <= j < k < |found| ==> found[j].index < found[k].index)
    && (forall i: nat :: i < upTo ==> node(i).Some? && (registered(node(i).value) ==> Includes(found, i)))
  }

  predicate Includes(found: seq<Found>, i: nat) {
    exists k :: 0 <= k < |found| && found[k].index == i
  }

  lemma IncludesMore(found: seq<Found>, x: Found, i: nat)
    ensures Includes(found + [x], i) <==> Includes(found, i) || x.index == i
  {
    var more := found + [x];
    if Includes(found, i) {
      var k :| 0 <= k < |found| && found[k].index == i;
      assert more[k].index == i;
    }
    assert more[|found|] == x;
  }

  lemma {:induction false} OneMoreScanned(
      node: nat -> Option<Node>, registered: Node -> bool, i: nat, found: seq<Found>)
    requires FirstRegistered(node, registered, found, i) && node(i).Some?
    ensures
      var more := if registered(node(i).value) then found + [Found(node(i).value, i)] else found;
      FirstRegistered(node, registered, more, i + 1)
  {
    hide Includes;
    if registered(node(i).value) {
      forall j: nat | j < i + 1 && registered(node(j).value)
        ensures Includes(found + [Found(node(i).value, i)], j)
      {
        IncludesMore(found, Found(node(i).value, i), j);
      }
    }
  }

  lemma {:induction false} ScanFinds(
      node: nat -> Option<Node>, registered: Node -> bool, n: nat, max: nat, i: nat, found: seq<Found>)
    requires i <= n && FirstRegistered(node, registered, found, i) && |found| < max
    ensures
      var s := Scan(node, registered, n, max, i, found);
      && (s.None? ==> exists j: nat :: j < n && node(j).None?)
      && (s.Some? ==>
            && |s.value| <= max
            && FirstRegistered(node, registered, s.value,
                 if |s.value| == max && max > 0 then s.value[max - 1].index + 1 else n))
    decreases n - i
  {
    hide FirstRegistered;
    if i < n && node(i).Some? {
      OneMoreScanned(node, registered, i, found);
      if registered(node(i).value) {
        var more := found + [Found(node(i).value, i)];
        if |more| < max {
          ScanFinds(node, registered, n, max, i + 1, more);
        }
      } else {
        ScanFinds(node, registered, n, max, i + 1, found);
      }
    }
  }

  lemma {:induction false} SearchLength(node: nat -> Option<Node>, registered: Node -> bool, n: nat, max: nat)
    requires max > 0
    ensures
      var s := Scan(node, registered, n, max, 0, []);
      s.Some? ==> |s.value| <= max
  {
    ScanFinds(node, registered, n, max, 0, []);
  }

  /** What a successful search has found. */
  lemma {:induction false} SearchFinds(node: nat -> Option<Node>, registered: Node -> bool, n: nat, max: nat)
    requires 0 < max <= n
    ensures
      var c := Search(node, registered, n, max);
      c.Chosen? ==>
        && |c.found| == max
        && FirstRegistered(node, registered, c.found, c.found[max - 1].index + 1)
        && c.found[max - 1].index < n
    ensures Search(node, registered, n, max).Chosen? ==> exists i: nat :: i < n && node(i).Some?
  {
    ScanFinds(node, registered, n, max, 0, []);
    var s := Scan(node, registered, n, max, 0, []);
    ScanIndexes(node, registered, n, max, 0, []);
  }

  lemma {:induction false} ScanIndexes(
      node: nat -> Option<Node>, registered: Node -> bool, n: nat, max: nat, i: nat, found: seq<Found>)
    requires i <= n && forall k :: 0 <= k < |found| ==> found[k].index < n
    ensures
      var s := Scan(node, registered, n, max, i, found);
      s.Some? ==> forall k :: 0 <= k < |s.value| ==> s.value[k].index < n
    decreases n - i
  {
    if i < n && node(i).Some? {
      if registered(node(i).value) {
        var more := found + [Found(node(i).value, i)];
        assert forall k :: 0 <= k < |more| ==> more[k].index < n;
        if |more| == max {
          assert Scan(node, registered, n, max, i, found) == Some(more);
        } else {
          ScanIndexes(node, registered, n, max, i + 1, more);
        }
      } else {
        ScanIndexes(node, registered, n, max, i + 1, found);
      }
    }
  }

  predicate WantsSpeakers(t: Tree) {
    t.wsaMaxRc == 0 && t.wsaMax > 0
  }

  predicate WantsCodecs(t: Tree) {
    t.codecMaxRc == 0 && t.codecMax > 0
  }

  /** In a consistent tree an erroneous count, large as it looks unsigned, never leads to a choice. */
  lemma {:induction false} ChoicesFit(t: Tree, m: Memory)
    requires Consistent(t)
    ensures
      var s, c := ChooseSpeakers(t, m), ChooseCodecs(t, m);
      && (s.Chosen? ==>
            if WantsSpeakers(t) then t.wsaCount > 0 && |s.found| == Min(t.wsaMax, t.wsaCount) else |s.found| == 0)
      && (c.Chosen? ==> if WantsCodecs(t) then t.codecCount > 0 && |c.found| == t.codecCount else |c.found| == 0)
      && !Overflows(t, m)
  {
    hide Search;
    var n, k := ToU32(t.wsaCount), ToU32(t.codecCount);
    if ChooseSpeakers(t, m).Chosen? && WantsSpeakers(t) {
      SearchFinds(t.wsaNode, t.registered, n, Min(t.wsaMax, n));
    }
    if ChooseCodecs(t, m).Chosen? && WantsCodecs(t) {
      SearchFinds(t.codecNode, t.registered, k, k);
    }
  }

  // ---- The set-up, in place ----

  class SoundCard {
    var numAux: uint32
    var numConfigs: uint32
    var aux: array?<AuxDev>
    var conf: array?<CodecConf>

    ghost function State(): Card
      reads this, aux, conf
    {
      Card(numAux, numConfigs,
        if aux == null then None else Some(aux[..]),
        if conf == null then None else Some(conf[..]))
    }

    constructor ()
      ensures State() == Card(0, 0, None, None)
    {
      numAux := 0;
      numConfigs := 0;
      aux := null;
      conf := null;
    }

    /** Scans the speakers' phandles, keeping the registered ones, until there are enough. */
    static method FindSpeakers(t: Tree, n: uint32, max: uint32) returns (found: nat, info: array<Found>, missing: bool)
      requires 0 < max
      ensures fresh(info)
      ensures
        var s := Scan(t.wsaNode, t.registered, n, max, 0, []);
        missing == s.None? && (!missing ==> found <= info.Length && info[..found] == s.value)
    {
      info := new Found[max](_ => Found(0, 0));
      found := 0;
      missing := false;
      var i := 0;
      assert info[..0] == [];
      while i < n
        invariant 0 <= i <= n && found < max
        invariant
          Scan(t.wsaNode, t.registered, n, max, 0, []) == Scan(t.wsaNode, t.registered, n, max, i, info[..found])
      {
        var node := t.wsaNode(i);
        if node.None? {
          missing := true;
          return;
        }
        if t.registered(node.value) {
          ghost var before := info[..found];
          info[found] := Found(node.value, i);
          found := found + 1;
          assert info[..found] == before + [Found(node.value, i)];
          if found == max {
            return;
          }
        }
        i := i + 1;
      }
    }

    /** Scans all the codecs' phandles; every one of them has to be registered in the end. */
    static method FindCodecs(t: Tree, n: uint32) returns (found: nat, info: array<Found>, missing: bool)
      requires 0 < n
      ensures fresh(info)
      ensures
        var s := Scan(t.codecNode, t.registered, n, n, 0, []);
        missing == s.None? && (!missing ==> found <= info.Length && info[..found] == s.value)
    {
      info := new Found[n](_ => Found(0, 0));
      found := 0;
      missing := false;
      var i := 0;
      assert info[..0] == [];
      while i < n
        invariant 0 <= i <= n && found <= i
        invariant
          var s := Scan(t.codecNode, t.registered, n, n, 0, []);
          s == if i == n then Some(info[..found]) else Scan(t.codecNode, t.registered, n, n, i, info[..found])
      {
        var node := t.codecNode(i);
        if node.None? {
          missing := true;
          return;
        }
        if t.registered(node.value) {
          ghost var before := info[..found];
          info[found] := Found(node.value, i);
          found := found + 1;
          assert info[..found] == before + [Found(node.value, i)];
        }
        i := i + 1;
      }
    }

    static method FillSpeakers(
        t: Tree, m: Memory, info: array<Found>, n: nat, aux: array<AuxDev>, conf: array<CodecConf>)
        returns (ret: int)
      requires n <= info.Length && n <= aux.Length && n <= conf.Length
      modifies aux, conf
      ensures ret == NameSpeakers(t, m, info[..n], 0)
      ensures ret == 0 ==> forall k :: 0 <= k < n ==>
        aux[k] == AuxDev(info[k].node, Speaker(k)) && conf[k] == CodecConf(info[k].node, Some(t.prefix(info[k].index)))
    {
      ghost var found := info[..n];
      var i := 0;
      while i < n
        invariant 0 <= i <= n
        invariant NameSpeakers(t, m, found, 0) == NameSpeakers(t, m, found, i)
        invariant forall k :: 0 <= k < i ==>
          && aux[k] == AuxDev(found[k].node, Speaker(k))
          && conf[k] == CodecConf(found[k].node, Some(t.prefix(found[k].index)))
      {
        if !m.name(i) {
          return -ENOMEM;
        }
        if t.prefixRc(info[i].index) != 0 {
          return -EINVAL;
        }
        aux[i] := AuxDev(info[i].node, Speaker(i));
        conf[i] := CodecConf(info[i].node, Some(t.prefix(info[i].index)));
        i := i + 1;
      }
      ret := 0;
    }

    static method FillCodecs(info: array<Found>, n: nat, first: nat, aux: array<AuxDev>, conf: array<CodecConf>)
      requires n <= info.Length && aux.Length == conf.Length == first + n
      modifies aux, conf
      ensures aux[..first] == old(aux[..first]) && conf[..first] == old(conf[..first])
      ensures forall k :: 0 <= k < n ==>
        aux[first + k] == AuxDev(info[k].node, AuxCodec) && conf[first + k] == CodecConf(info[k].node, None)
    {
      var i := 0;
      while i < n
        invariant 0 <= i <= n
        invariant aux[..first] == old(aux[..first]) && conf[..first] == old(conf[..first])
        invariant forall k :: 0 <= k < i ==>
          aux[first + k] == AuxDev(info[k].node, AuxCodec) && conf[first + k] == CodecConf(info[k].node, None)
      {
        aux[first + i] := AuxDev(info[i].node, AuxCodec);
        conf[first + i] := CodecConf(info[i].node, None);
        i := i + 1;
      }
    }

    method RegisterAll(
        t: Tree, m: Memory, wsa: array<Found>, speakers: nat, cdc: array<Found>, codecs: nat) returns (ret: int)
      requires speakers <= wsa.Length && codecs <= cdc.Length && speakers + codecs < 0x1_0000_0000
      modifies this
      ensures (State(), ret) == Register(t, m, old(State()), wsa[..speakers], cdc[..codecs])
    {
      hide NameSpeakers, AuxDevs, CodecConfs;
      numAux := ToU32(speakers + codecs);
      numConfigs := ToU32(speakers + codecs);
      if !m.aux {
        return -ENOMEM;
      }
      var devs := new AuxDev[numAux](_ => AuxDev(0, AuxCodec));
      if !m.conf {
        return -ENOMEM;
      }
      var confs := new CodecConf[numConfigs](_ => CodecConf(0, None));
      ret := FillSpeakers(t, m, wsa, speakers, devs, confs);
      if ret != 0 {
        return;
      }
      ghost var firstDevs, firstConfs := devs[..speakers], confs[..speakers];
      FillCodecs(cdc, codecs, speakers, devs, confs);
      assert forall k :: 0 <= k < speakers ==> devs[k] == firstDevs[k] && confs[k] == firstConfs[k];
      assert forall k :: speakers <= k < devs.Length ==>
        devs[k] == devs[speakers + (k - speakers)] && confs[k] == confs[speakers + (k - speakers)];
      FilledArrays(t, wsa[..speakers], cdc[..codecs], devs[..], confs[..]);
      conf := confs;
      aux := devs;
      ret := if speakers == 0 then t.codecMaxRc else 0;
    }

    method SelectSpeakers(t: Tree, m: Memory) returns (go: bool, ret: int, found: nat, info: array<Found>)
      ensures fresh(info) && found <= info.Length && (go ==> found < 0x1_0000_0000)
      ensures ChooseSpeakers(t, m) == if go then Chosen(info[..found]) else Refused(ret)
    {
      hide Scan;
      go, ret, found := false, 0, 0;
      info := new Found[0];
      if t.wsaMaxRc != 0 || t.wsaMax == 0 {
        go := true;
        return;
      }
      var n: uint32 := ToU32(t.wsaCount);
      var max := t.wsaMax;
      if n == ToU32(-ENOENT) {
        return;
      }
      if n <= 0 {
        ret := -EINVAL;
        return;
      }
      if n < max {
        max := n;
      }
      if ToU32(t.prefixCount) != n {
        ret := -EINVAL;
        return;
      }
      if !m.wsaInfo {
        ret := -ENOMEM;
        return;
      }
      var missing: bool;
      found, info, missing := FindSpeakers(t, n, max);
      SearchLength(t.wsaNode, t.registered, n, max);
      if missing {
        found := 0;
        ret := -EINVAL;
      } else if found < max {
        ret := -EPROBE_DEFER;
      } else {
        go := true;
      }
    }

    method SelectCodecs(t: Tree, m: Memory) returns (go: bool, ret: int, found: nat, info: array<Found>)
      ensures fresh(info) && found <= info.Length && (go ==> found < 0x1_0000_0000)
      ensures ChooseCodecs(t, m) == if go then Chosen(info[..found]) else Refused(ret)
    {
      hide Scan;
      go, ret, found := false, 0, 0;
      info := new Found[0];
      if t.codecMaxRc != 0 || t.codecMax == 0 {
        go := true;
        return;
      }
      var n: uint32 := ToU32(t.codecCount);
      if n == ToU32(-ENOENT) {
        return;
      }
      if n <= 0 {
        ret := -EINVAL;
        return;
      }
      if !m.codecInfo {
        ret := -ENOMEM;
        return;
      }
      var missing: bool;
      found, info, missing := FindCodecs(t, n);
      SearchLength(t.codecNode, t.registered, n, n);
      if missing {
        found := 0;
        ret := -EINVAL;
      } else if found < n {
        ret := -EPROBE_DEFER;
      } else {
        go := true;
      }
    }

    /** `broken` marks set-ups whose arrays are too short for what was chosen; they are not described further. */
    method InitAuxDevices(t: Tree, m: Memory) returns (ret: int, broken: bool)
      modifies this
      ensures broken <==> Overflows(t, m)
      ensures !broken ==> (State(), ret) == Init(t, m, old(State()))
    {
      hide ChooseSpeakers, ChooseCodecs, Register;
      broken := false;
      var go, speakers, wsa;
      go, ret, speakers, wsa := SelectSpeakers(t, m);
      if !go {
        return;
      }
      var codecs, cdc;
      go, ret, codecs, cdc := SelectCodecs(t, m);
      if !go {
        return;
      }
      if speakers + codecs >= 0x1_0000_0000 {
        broken := true;
        return;
      }
      ret := RegisterAll(t, m, wsa, speakers, cdc, codecs);
    }
  }
}
