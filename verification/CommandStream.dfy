/** The bounded array of longs a mixer control hands to an effect handler, and the sticky-error reader over it. */
module CommandStream {
  import opened Machine

  const MAX_PP_PARAMS_SZ := 128
  const READ_LIMIT := MAX_PP_PARAMS_SZ - 1
  const CONFIG_SET := 1

  type Words = w: seq<int> | |w| >= READ_LIMIT witness seq(READ_LIMIT, _ => 0)

  /** The read pointer and the error variable every macro use shares. */
  datatype Reader = Reader(pos: nat, rc: int)

  /** GET_NEXT: flags the pointer leaving the array, and moves only while no error is recorded. */
  function GetNext(words: Words, r: Reader): (res: (int, Reader))
    ensures res.1.rc == 0 <==> r.rc == 0 && r.pos < READ_LIMIT
    ensures res.1.rc == 0 ==> r.pos < READ_LIMIT && res == (words[r.pos], Reader(r.pos + 1, 0))
    ensures res.1.rc != 0 ==> res.0 == -EINVAL && res.1.pos == r.pos
  {
    var rc := if r.pos + 1 > READ_LIMIT then -EINVAL else r.rc;
    if rc == 0 then (words[r.pos], Reader(r.pos + 1, 0)) else (-EINVAL, Reader(r.pos, rc))
  }

  datatype Command = Command(id: uint32, state: uint32, offset: uint32, length: uint32)

  /** The four words in front of every command. */
  function GetCommand(words: Words, r: Reader): (res: (Command, Reader))
    ensures r.rc != 0 ==> res.1.rc != 0
    ensures r.pos <= res.1.pos <= r.pos + 4
    ensures r.pos <= READ_LIMIT ==> res.1.pos <= READ_LIMIT
    ensures res.1.rc == 0 ==> res.1.pos == r.pos + 4 <= READ_LIMIT
  {
    var (id, r1) := GetNext(words, r);
    var (state, r2) := GetNext(words, r1);
    var (offset, r3) := GetNext(words, r2);
    var (length, r4) := GetNext(words, r3);
    (Command(ToU32(id), ToU32(state), ToU32(offset), ToU32(length)), r4)
  }

  /** The readable words from `pos` on begin with `part`. */
  predicate At(words: Words, pos: nat, part: seq<int>) {
    pos + |part| <= READ_LIMIT && words[pos..pos + |part|] == part
  }

  lemma AtElement(words: Words, pos: nat, part: seq<int>, j: nat)
    requires At(words, pos, part) && j < |part|
    ensures pos + |part| <= READ_LIMIT && words[pos + j] == part[j]
  {
    assert words[pos..pos + |part|][j] == part[j];
  }

  lemma AtSplit(words: Words, pos: nat, a: seq<int>, b: seq<int>)
    requires At(words, pos, a + b)
    ensures At(words, pos, a) && At(words, pos + |a|, b)
  {
    var all := words[pos..pos + |a + b|];
    assert all[..|a|] == a && all[|a|..] == b;
  }

  /** Away from the end of the array an error-free read of a command is just its four words. */
  lemma CommandAt(words: Words, pos: nat, part: seq<int>, c: Command)
    requires At(words, pos, part) && |part| >= 4 && part[..4] == [c.id, c.state, c.offset, c.length]
    ensures GetCommand(words, Reader(pos, 0)) == (c, Reader(pos + 4, 0))
  {
    assert forall j :: 0 <= j < 4 ==> part[..4][j] == part[j];
    AtElement(words, pos, part, 0);
    AtElement(words, pos, part, 1);
    AtElement(words, pos, part, 2);
    AtElement(words, pos, part, 3);
  }

  /** Of four header words that lie inside the array. */
  lemma HeaderIsRead(words: Words, pos: nat)
    requires pos + 4 <= READ_LIMIT
    ensures GetCommand(words, Reader(pos, 0))
         == (Command(ToU32(words[pos]), ToU32(words[pos + 1]), ToU32(words[pos + 2]), ToU32(words[pos + 3])),
             Reader(pos + 4, 0))
  {
  }

  lemma HeadAt(words: Words, pos: nat, part: seq<int>)
    requires At(words, pos, part) && |part| >= 4
    ensures pos + |part| <= READ_LIMIT
    ensures words[pos] == part[0] && words[pos + 1] == part[1] && words[pos + 2] == part[2] && words[pos + 3] == part[3]
  {
    hide At;
    AtElement(words, pos, part, 0);
    AtElement(words, pos, part, 1);
    AtElement(words, pos, part, 2);
    AtElement(words, pos, part, 3);
  }

  /** After a read error every header word reads as the error value, and the reader stays where it is. */
  lemma ErrorStays(words: Words, r: Reader)
    requires r.rc == -EINVAL
    ensures GetNext(words, r) == (-EINVAL, r)
    ensures
      var error := ToU32(-EINVAL);
      GetCommand(words, r) == (Command(error, error, error, error), r)
  {
  }

  /** The number of commands that the count in the second word asks for. */
  function NumCommands(words: Words): nat {
    if ToS32(words[1]) < 0 then 0 else ToS32(words[1])
  }

  /** The commands up to the announced number or to the first that cannot be read, and where reading stopped. */
  datatype Listing<C> = Listing(cs: seq<C>, end: nat, whole: bool)

  datatype Prologue = Refused(rc: int) | Accepted(numCommands: int, r: Reader)

  /** Device and command count, then the client and allocation checks common to all handlers. */
  function Open(words: Words, client: bool, memory: bool): (p: Prologue)
    ensures p.Refused? ==> p.rc != 0
    ensures p.Accepted? ==> client && p.r == Reader(2, 0)
  {
    var (devices, r1) := GetNext(words, Reader(0, 0));
    var (num, r2) := GetNext(words, r1);
    if !client || ToS32(devices) == -EINVAL || ToS32(num) == -EINVAL then Refused(-EINVAL)
    else if !memory then Refused(-ENOMEM)
    else Accepted(ToS32(num), r2)
  }

  /** The prologue as every handler runs it. */
  method ReadPrologue(words: Words, client: bool, memory: bool) returns (p: Prologue)
    ensures p == Open(words, client, memory)
  {
    var (devices, r0) := GetNext(words, Reader(0, 0));
    var (num, r) := GetNext(words, r0);
    var numCommands := ToS32(num);
    if !client || ToS32(devices) == -EINVAL || numCommands == -EINVAL {
      return Refused(-EINVAL);
    }
    if !memory {
      return Refused(-ENOMEM);
    }
    p := Accepted(numCommands, r);
  }

  /** The DSP session; `delivered` logs the parameter blocks handed to q6asm_set_pp_params. */
  class AudioClient {
    var delivered: seq<seq<uint8>>

    constructor ()
      ensures delivered == []
    {
      delivered := [];
    }

    method SetPpParams(params: array<uint8>, length: nat)
      requires length <= params.Length
      modifies this
      ensures delivered == old(delivered) + [params[..length]]
    {
      delivered := delivered + [params[..length]];
    }
  }

  /** What a handler call leaves behind besides the effect record: its return value and at most one delivery. */
  datatype Delivery = Delivery(rc: int, sent: Option<seq<uint8>>)

  function Deliveries(d: Delivery): (s: seq<seq<uint8>>)
    ensures |s| <= 1
  {
    if d.sent.Some? then [d.sent.value] else []
  }
}
