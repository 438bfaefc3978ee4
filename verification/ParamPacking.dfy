/** Packing of DSP parameters, and the byte format the DSP reads back. */
module ParamPacking {
  import opened Machine

  const MAX_INBAND_PARAM_SZ := 4096
  const COMMAND_IID_PAYLOAD_SZ := 16

  datatype Header = Header(moduleId: uint32, instanceId: uint16, paramId: uint32, paramSize: uint32)

  datatype Packet = Packet(hdr: Header, data: seq<uint8>)

  /** A version 1 header has no instance field and a 16-bit size; version 3 has both in full. */
  predicate Representable(iid: bool, p: Packet) {
    && |p.data| == p.hdr.paramSize
    && (iid || (p.hdr.paramSize <= 0xFFFF && p.hdr.instanceId == 0))
  }

  function HeaderSize(iid: bool): nat {
    if iid then 16 else 12
  }

  function HeaderBytes(iid: bool, h: Header): (b: seq<uint8>)
    requires iid || h.paramSize <= 0xFFFF
    ensures |b| == HeaderSize(iid)
  {
    if iid then Le32(h.moduleId) + Le16(h.instanceId) + Le16(0) + Le32(h.paramId) + Le32(h.paramSize)
    else Le32(h.moduleId) + Le32(h.paramId) + Le16(h.paramSize) + Le16(0)
  }

  function Bytes(iid: bool, p: Packet): seq<uint8>
    requires Representable(iid, p)
  {
    HeaderBytes(iid, p.hdr) + p.data
  }

  predicate AllRepresentable(iid: bool, ps: seq<Packet>) {
    forall k :: 0 <= k < |ps| ==> Representable(iid, ps[k])
  }

  function Concat(iid: bool, ps: seq<Packet>): seq<uint8>
    requires AllRepresentable(iid, ps)
  {
    if ps == [] then [] else Bytes(iid, ps[0]) + Concat(iid, ps[1..])
  }

  lemma {:induction false} ConcatAppend(iid: bool, ps: seq<Packet>, p: Packet)
    requires AllRepresentable(iid, ps) && Representable(iid, p)
    ensures AllRepresentable(iid, ps + [p])
    ensures Concat(iid, ps + [p]) == Concat(iid, ps) + Bytes(iid, p)
  {
    if ps == [] {
      assert ps + [p] == [p];
    } else {
      ConcatAppend(iid, ps[1..], p);
      assert (ps + [p])[1..] == ps[1..] + [p];
    }
  }

  lemma ConcatNonEmpty(iid: bool, ps: seq<Packet>)
    requires AllRepresentable(iid, ps)
    ensures |Concat(iid, ps)| > 0 <==> ps != []
  {
  }

  /** Reads one header off the front of a byte stream. */
  function ReadHeader(iid: bool, b: seq<uint8>): Header
    requires |b| >= HeaderSize(iid)
  {
    if iid then Header(FromLe32(b[..4]), FromLe16(b[4..6]), FromLe32(b[8..12]), FromLe32(b[12..16]))
    else Header(FromLe32(b[..4]), 0, FromLe32(b[4..8]), FromLe16(b[8..10]))
  }

  /** The receiver's view: headers give the lengths, nothing may be left over. */
  function Parse(iid: bool, b: seq<uint8>): Option<seq<Packet>>
    decreases |b|
  {
    if b == [] then Some([])
    else if |b| < HeaderSize(iid) then None
    else
      var h := ReadHeader(iid, b);
      var end := HeaderSize(iid) + h.paramSize;
      if |b| < end then None
      else
        match Parse(iid, b[end..])
        case None => None
        case Some(rest) => Some([Packet(h, b[HeaderSize(iid)..end])] + rest)
  }

  /** The header is read back from the front of a packet, and its reserved half-word is zero. */
  lemma {:induction false} HeaderInverse(iid: bool, p: Packet, rest: seq<uint8>)
    requires Representable(iid, p)
    ensures ReadHeader(iid, Bytes(iid, p) + rest) == p.hdr
    ensures
      var padding := if iid then Bytes(iid, p)[6..8] else Bytes(iid, p)[10..12];
      padding == [0, 0]
  {
    var h := p.hdr;
    var b := Bytes(iid, p) + rest;
    Le32Inverse(h.moduleId);
    Le32Inverse(h.paramId);
    Le16Inverse(h.instanceId);
    assert b[..4] == Le32(h.moduleId);
    if iid {
      Le32Inverse(h.paramSize);
      assert b[4..6] == Le16(h.instanceId);
      assert b[8..12] == Le32(h.paramId);
      assert b[12..16] == Le32(h.paramSize);
    } else {
      Le16Inverse(h.paramSize);
      assert b[4..8] == Le32(h.paramId);
      assert b[8..10] == Le16(h.paramSize);
    }
  }

  /** Whatever list of packets was concatenated, the receiver recovers exactly that list. */
  lemma {:induction false} ParseInverse(iid: bool, ps: seq<Packet>)
    requires AllRepresentable(iid, ps)
    ensures Parse(iid, Concat(iid, ps)) == Some(ps)
  {
    if ps != [] {
      var rest := Concat(iid, ps[1..]);
      var b := Concat(iid, ps);
      ParseInverse(iid, ps[1..]);
      HeaderInverse(iid, ps[0], rest);
      var end := HeaderSize(iid) + ps[0].hdr.paramSize;
      assert b[end..] == rest;
      assert b[HeaderSize(iid)..end] == ps[0].data;
      assert ps == [ps[0]] + ps[1..];
    }
  }

  /** The bytes `src` in place of those from `at` on. */
  function Overwritten(dest: seq<uint8>, at: nat, src: seq<uint8>): (d: seq<uint8>)
    requires at + |src| <= |dest|
    ensures |d| == |dest|
  {
    dest[..at] + src + dest[at + |src|..]
  }

  lemma OverwriteAgain(dest: seq<uint8>, at: nat, a: seq<uint8>, b: seq<uint8>)
    requires |a| <= |b| && at + |b| <= |dest|
    ensures Overwritten(Overwritten(dest, at, a), at, b) == Overwritten(dest, at, b)
  {
    assert Overwritten(dest, at, a)[at + |b|..] == dest[at + |b|..];
  }

  lemma OverwriteNext(dest: seq<uint8>, at: nat, a: seq<uint8>, b: seq<uint8>)
    requires at + |a| + |b| <= |dest|
    ensures Overwritten(Overwritten(dest, at, a), at + |a|, b) == Overwritten(dest, at, a + b)
  {
    assert Overwritten(dest, at, a)[at + |a| + |b|..] == dest[at + |a| + |b|..];
    assert Overwritten(dest, at, a)[..at + |a|] == dest[..at] + a;
  }

  method Write(dest: array<uint8>, at: nat, src: seq<uint8>)
    requires at + |src| <= dest.Length
    modifies dest
    ensures dest[..] == Overwritten(old(dest[..]), at, src)
  {
    forall k | 0 <= k < |src| {
      dest[at + k] := src[k];
    }
  }

  /**
    * q6common_pack_pp_params: header in the negotiated version, then the optional payload, at `at`. A size that a
    * version 1 header cannot hold is refused only after both ids have been written; the size returned is then the
    * caller's own.
    */
  method PackPpParams(dest: array<uint8>, at: nat, iid: bool, hdr: Header, data: Option<seq<uint8>>, size: nat)
    returns (rc: int, totalSize: nat)
    requires data.Some? ==> |data.value| >= hdr.paramSize
    requires at + HeaderSize(iid) + (if data.Some? then hdr.paramSize else 0) <= dest.Length
    modifies dest
    ensures rc == if iid || hdr.paramSize <= 0xFFFF then 0 else -EINVAL
    ensures totalSize == if rc != 0 then size else HeaderSize(iid) + (if data.Some? then hdr.paramSize else 0)
    ensures dest[..] == Overwritten(old(dest[..]), at,
      if rc != 0 then Le32(hdr.moduleId) + Le32(hdr.paramId)
      else HeaderBytes(iid, hdr) + (if data.Some? then data.value[..hdr.paramSize] else []))
  {
    hide HeaderBytes, Le32, Overwritten;
    ghost var was, ids := dest[..], Le32(hdr.moduleId) + Le32(hdr.paramId);
    if !iid {
      Write(dest, at, Le32(hdr.moduleId) + Le32(hdr.paramId));
      if hdr.paramSize > 0xFFFF {
        return -EINVAL, size;
      }
    }
    var header := HeaderBytes(iid, hdr);
    OverwriteAgain(was, at, ids, header);
    Write(dest, at, header);
    totalSize := |header|;
    if data.Some? {
      var payload := data.value[..hdr.paramSize];
      OverwriteNext(was, at, header, payload);
      Write(dest, at + |header|, payload);
      totalSize := totalSize + hdr.paramSize;
    } else {
      assert header + [] == header;
    }
    rc := 0;
  }

  /** The zeroed in-band buffer of one handler call with its write position; `out` is the list of packets in it. */
  class InbandBuffer {
    const iid: bool
    const params: array<uint8>
    var length: nat
    ghost var out: seq<Packet>

    ghost predicate Valid()
      reads this, params
    {
      && length <= params.Length == MAX_INBAND_PARAM_SZ
      && AllRepresentable(iid, out)
      && params[..length] == Concat(iid, out)
    }

    constructor (iid: bool)
      ensures Valid() && fresh(params) && this.iid == iid && out == [] && length == 0
    {
      this.iid := iid;
      params := new uint8[MAX_INBAND_PARAM_SZ](_ => 0);
      length := 0;
      out := [];
    }

    /** One packing call, followed on success by the advance of the write position. */
    method Pack(hdr: Header, data: Option<seq<uint8>>) returns (rc: int)
      requires Valid() && hdr.instanceId == 0
      requires hdr.paramSize == if data.Some? then |data.value| else 0
      requires length + HeaderSize(iid) + hdr.paramSize <= params.Length
      modifies this, params
      ensures Valid()
      ensures rc == if iid || hdr.paramSize <= 0xFFFF then 0 else -EINVAL
      ensures out == if rc == 0 then old(out) + [Packet(hdr, if data.Some? then data.value else [])] else old(out)
      ensures length == if rc == 0 then old(length) + HeaderSize(iid) + hdr.paramSize else old(length)
    {
      hide HeaderBytes, Concat;
      var size;
      rc, size := PackPpParams(params, length, iid, hdr, data, 0);
      if rc == 0 {
        var packet := Packet(hdr, if data.Some? then data.value else []);
        ConcatAppend(iid, out, packet);
        assert packet.data == if data.Some? then data.value[..hdr.paramSize] else [];
        length := length + size;
        out := out + [packet];
        assert params[..length] == Concat(iid, out);
      }
    }
  }
}
