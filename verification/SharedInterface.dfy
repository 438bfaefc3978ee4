/**
  * The pins, the bit clock and the low-power audio vote that the MI2S, TDM and auxiliary PCM
  * streams of one serial interface share. The functions give each callback as one transition of the
  * board; the class below carries out the callbacks statement by statement and is proved to make
  * exactly those transitions.
  */
module SharedInterface {
  import opened Machine

  // The primary, secondary and tertiary MI2S interfaces vote; the others do not.
  const VOTING_INTERFACES := 3

  datatype Direction = Playback | Capture
  datatype Format = S16 | S24 | S24Packed | S32

  /** The rates that the rate control can set. */
  type Rate = hz: int |
    hz in {8000, 11025, 16000, 22050, 32000, 44100, 48000, 88200, 96000, 176400, 192000, 352800, 384000}
    witness 48000

  datatype StreamConfig = StreamConfig(rate: Rate, format: Format)

  /** The pins and the bit clock of one interface, and the driver's count of the users of the pins. */
  datatype Wires = Wires(hasPins: bool, pinCount: int, pinsActive: bool, clockOn: bool, clockHz: uint32)

  /** One interface: `refs` counts the open MI2S streams. */
  datatype Interface = Interface(refs: uint32, wires: Wires, playback: StreamConfig, capture: StreamConfig)

  /** What the card was built with: whether the driver votes at all, and whether the vote clock was found. */
  datatype Platform = Platform(voting: bool, voteNode: bool)

  /** The driver's counters and, in `voteDepth`, how often the vote clock itself has been enabled. */
  datatype Board = Board(interfaces: seq<Interface>, votes: int, voteDepth: int)

  /** The return codes of the calls a callback makes, fixed for the duration of one callback. */
  datatype Replies = Replies(vote: int, port: int, clockOn: int, pin: int, format: int, clockOff: int, sleep: int)

  datatype Stage =
    | BadIndex | NoVoteNode | VoteRefused | PortUnknown | ClockRefused | PinRefused | FormatRefused
    | Opened
    | OpenedUnpinned // a positive code of the pin call is neither a failure nor a count

  datatype Attempt = Attempt(stage: Stage, ret: int)

  // ---- Tables of the rate and format controls ----

  function SampleRate(item: int): Rate {
    match item
    case 0 => 8000
    case 1 => 11025
    case 2 => 16000
    case 3 => 22050
    case 4 => 32000
    case 5 => 44100
    case 6 => 48000
    case 7 => 88200
    case 8 => 96000
    case 9 => 176400
    case 10 => 192000
    case 11 => 352800
    case 12 => 384000
    case _ => 48000
  }

  predicate IsFractional(hz: int) {
    hz == 11025 || hz == 22050 || hz == 44100 || hz == 88200 || hz == 176400 || hz == 352800
  }

  function SampleFormat(item: int): Format {
    match item
    case 1 => S24
    case 2 => S24Packed
    case 3 => S32
    case _ => S16
  }

  function BitsPerSample(f: Format): (bits: nat)
    ensures bits == 16 || bits == 32
  {
    if f == S16 then 16 else 32
  }

  // ---- One interface ----

  function Config(x: Interface, d: Direction): StreamConfig {
    if d == Playback then x.playback else x.capture
  }

  function Opposite(d: Direction): Direction {
    if d == Playback then Capture else Playback
  }

  function WithConfig(x: Interface, d: Direction, c: StreamConfig): Interface {
    if d == Playback then x.(playback := c) else x.(capture := c)
  }

  /** The bit clock of a stereo stream, in the 32-bit field that holds it. */
  function BitClock(c: StreamConfig): uint32 {
    ToU32(c.rate * 2 * BitsPerSample(c.format))
  }

  function ClockCall(w: Wires, c: StreamConfig, enable: bool, r: Replies): (Wires, int) {
    if r.port < 0 then (w, r.port)
    else
      var y := if enable then w.(clockHz := BitClock(c)) else w;
      var code := if enable then r.clockOn else r.clockOff;
      (if code < 0 then y else y.(clockOn := enable), code)
  }

  /** Counting one more user of the pins, which selects their active state for the first one. */
  function TakePins(w: Wires, r: Replies): (Wires, int) {
    if !w.hasPins then (w, 0)
    else if w.pinCount == 0 && r.pin != 0 then (w, r.pin)
    else (w.(pinCount := w.pinCount + 1, pinsActive := w.pinsActive || w.pinCount == 0), 0)
  }

  function ReleasePins(w: Wires, r: Replies): Wires {
    if !w.hasPins then w
    else if w.pinCount == 1 && r.sleep == 0 then w.(pinCount := 0, pinsActive := false)
    else w.(pinCount := w.pinCount - 1)
  }

  /** What opening an MI2S stream does to the wires; only the first stream touches the clock and pins. */
  function OpenWires(w: Wires, c: StreamConfig, first: bool, r: Replies): (Wires, Attempt) {
    if first then
      var (clocked, code) := ClockCall(w, c, true, r);
      if code < 0 then (clocked, Attempt(if r.port < 0 then PortUnknown else ClockRefused, code))
      else
        var (pinned, pin) := TakePins(clocked, r);
        if pin < 0 then (ClockCall(pinned, c, false, r).0, Attempt(PinRefused, pin))
        else if pin > 0 then (pinned, Attempt(OpenedUnpinned, pin))
        else ApplyFormat(pinned, c, r)
    else ApplyFormat(w, c, r)
  }

  function ApplyFormat(w: Wires, c: StreamConfig, r: Replies): (Wires, Attempt) {
    if r.format < 0 then (ClockCall(w, c, false, r).0, Attempt(FormatRefused, r.format))
    else (w, Attempt(Opened, r.format))
  }

  function CloseWires(w: Wires, c: StreamConfig, last: bool, r: Replies): Wires {
    if last then ClockCall(ReleasePins(w, r), c, false, r).0 else w
  }

  lemma CountUpAndDown(n: uint32)
    ensures ToU32(ToU32(n + 1) - 1) == n
    ensures ToU32(n + 1) == 1 <==> n == 0
  {
  }

  // ---- The board ----

  predicate InRange(b: Board, i: int) {
    0 <= i < |b.interfaces|
  }

  function WithWires(b: Board, i: int, w: Wires): Board
    requires InRange(b, i)
  {
    b.(interfaces := b.interfaces[i := b.interfaces[i].(wires := w)])
  }

  /** The number of votes is never negative, and the vote clock is enabled exactly once while there are any. */
  predicate VoteSafe(p: Platform, b: Board) {
    && b.votes >= 0
    && b.voteDepth == (if b.votes > 0 then 1 else 0)
    && (!(p.voting && p.voteNode) ==> b.votes == 0)
  }

  predicate Votes(p: Platform, i: int, hz: int) {
    p.voting && 0 <= i < VOTING_INTERFACES && IsFractional(hz)
  }

  /** Nothing stops an open before the reference is taken: it needs no vote, or the vote can be had. */
  predicate PassesVote(p: Platform, b: Board, i: int, d: Direction, r: Replies)
    requires InRange(b, i)
  {
    Votes(p, i, Config(b.interfaces[i], d).rate) ==> p.voteNode && (b.votes == 0 ==> r.vote >= 0)
  }

  function AddVote(b: Board): Board {
    b.(votes := b.votes + 1, voteDepth := b.voteDepth + (if b.votes == 0 then 1 else 0))
  }

  function DropVote(p: Platform, b: Board, i: int, d: Direction): Board
    requires InRange(b, i)
  {
    if Votes(p, i, Config(b.interfaces[i], d).rate) && p.voteNode then
      if b.votes == 1 then b.(votes := 0, voteDepth := b.voteDepth - 1)
      else if b.votes < 1 then b.(votes := 0)
      else b.(votes := b.votes - 1)
    else b
  }

  function OpenMi2s(p: Platform, b: Board, i: int, d: Direction, r: Replies): (Board, Attempt) {
    if !InRange(b, i) then (b, Attempt(BadIndex, -EINVAL))
    else
      var votes := Votes(p, i, Config(b.interfaces[i], d).rate);
      if votes && !p.voteNode then (b, Attempt(NoVoteNode, -EINVAL))
      else if votes && b.votes == 0 && r.vote < 0 then (b, Attempt(VoteRefused, r.vote))
      else
        var x := b.interfaces[i];
        var (w, a) := OpenWires(x.wires, Config(x, d), x.refs == 0, r);
        if a.ret < 0 then (WithWires(b, i, w), a)
        else
          var after := b.(interfaces := b.interfaces[i := x.(wires := w, refs := ToU32(x.refs + 1))]);
          (if votes then AddVote(after) else after, a)
  }

  function CloseMi2s(p: Platform, b: Board, i: int, d: Direction, r: Replies): Board {
    if !InRange(b, i) then b
    else
      var x := b.interfaces[i];
      var y := x.(wires := CloseWires(x.wires, Config(x, d), x.refs == 1, r), refs := ToU32(x.refs - 1));
      DropVote(p, b.(interfaces := b.interfaces[i := y]), i, d)
  }

  function OpenPcm(b: Board, i: int, r: Replies): (Board, Attempt) {
    if !InRange(b, i) then (b, Attempt(BadIndex, -EINVAL))
    else
      var (w, code) := TakePins(b.interfaces[i].wires, r);
      var stage := if code < 0 then PinRefused else if code > 0 then OpenedUnpinned else Opened;
      (WithWires(b, i, w), Attempt(stage, code))
  }

  function ClosePcm(b: Board, i: int, r: Replies): Board {
    if !InRange(b, i) then b else WithWires(b, i, ReleasePins(b.interfaces[i].wires, r))
  }

  function PutRate(b: Board, i: int, d: Direction, item: int): Board {
    if !InRange(b, i) then b
    else
      var x := b.interfaces[i];
      b.(interfaces := b.interfaces[i := WithConfig(x, d, Config(x, d).(rate := SampleRate(item)))])
  }

  function PutFormat(b: Board, i: int, d: Direction, item: int): Board {
    if !InRange(b, i) then b
    else
      var x := b.interfaces[i];
      b.(interfaces := b.interfaces[i := WithConfig(x, d, Config(x, d).(format := SampleFormat(item)))])
  }

  /** The sound card driver's shared state, updated in place by the stream callbacks. */
  class Card {
    const platform: Platform
    var interfaces: seq<Interface>
    var votes: int
    var voteDepth: int

    ghost function State(): Board
      reads this
    {
      Board(interfaces, votes, voteDepth)
    }

    constructor (platform: Platform, interfaces: seq<Interface>)
      ensures this.platform == platform
      ensures State() == Board(interfaces, 0, 0) && VoteSafe(platform, State())
    {
      this.platform := platform;
      this.interfaces := interfaces;
      votes := 0;
      voteDepth := 0;
    }

    method SetClock(i: nat, d: Direction, enable: bool, r: Replies) returns (ret: int)
      requires i < |interfaces|
      modifies this`interfaces
      ensures
        var (w, code) := ClockCall(old(interfaces[i].wires), Config(old(interfaces[i]), d), enable, r);
        ret == code && State() == WithWires(old(State()), i, w)
    {
      var x := interfaces[i];
      if r.port < 0 {
        assert WithWires(State(), i, x.wires).interfaces == interfaces;
        return r.port;
      }
      var w := x.wires;
      if enable {
        var c := Config(x, d);
        w := w.(clockHz := ToU32(c.rate * 2 * BitsPerSample(c.format)));
      }
      ret := if enable then r.clockOn else r.clockOff;
      if ret >= 0 {
        w := w.(clockOn := enable);
      }
      interfaces := interfaces[i := x.(wires := w)];
    }

    method SelectActive(i: nat, r: Replies) returns (ret: int)
      requires i < |interfaces|
      modifies this`interfaces
      ensures
        var (w, code) := TakePins(old(interfaces[i].wires), r);
        ret == code && State() == WithWires(old(State()), i, w)
    {
      var x := interfaces[i];
      var w := x.wires;
      ret := 0;
      if w.hasPins {
        if w.pinCount == 0 {
          ret := r.pin;
          if ret != 0 {
            assert WithWires(State(), i, w).interfaces == interfaces;
            return;
          }
          w := w.(pinsActive := true);
        }
        w := w.(pinCount := w.pinCount + 1);
      }
      interfaces := interfaces[i := x.(wires := w)];
    }

    method SelectSleep(i: nat, r: Replies)
      requires i < |interfaces|
      modifies this`interfaces
      ensures State() == WithWires(old(State()), i, ReleasePins(old(interfaces[i].wires), r))
    {
      var x := interfaces[i];
      var w := x.wires;
      if w.hasPins {
        w := w.(pinCount := w.pinCount - 1);
        if w.pinCount == 0 && r.sleep == 0 {
          w := w.(pinsActive := false);
        }
      }
      interfaces := interfaces[i := x.(wires := w)];
    }

    method DisableVote(i: nat, d: Direction)
      requires i < |interfaces|
      modifies this`votes, this`voteDepth
      ensures State() == DropVote(platform, old(State()), i, d)
    {
      var rate := Config(interfaces[i], d).rate;
      if platform.voting && i < VOTING_INTERFACES && IsFractional(rate) {
        if platform.voteNode {
          votes := votes - 1;
          if votes == 0 {
            voteDepth := voteDepth - 1;
          } else if votes < 0 {
            votes := 0;
          }
        }
      }
    }

    /** The vote that a fractional stream of a voting interface has to have. */
    method EnableVote(i: nat, d: Direction, r: Replies) returns (ret: int)
      requires i < |interfaces|
      modifies this`votes, this`voteDepth
      ensures ret < 0 <==> !PassesVote(platform, old(State()), i, d, r)
      ensures ret < 0 ==> ret == (if !platform.voteNode then -EINVAL else r.vote)
      ensures State() ==
        if ret >= 0 && Votes(platform, i, Config(interfaces[i], d).rate) then AddVote(old(State())) else old(State())
    {
      ret := 0;
      var rate := Config(interfaces[i], d).rate;
      if platform.voting && i < VOTING_INTERFACES && IsFractional(rate) {
        if !platform.voteNode {
          return -EINVAL;
        }
        if votes == 0 {
          ret := r.vote;
          if ret < 0 {
            return;
          }
          voteDepth := voteDepth + 1;
        }
        votes := votes + 1;
      }
    }

    /** The part of the startup between taking the reference and giving it back after a failure. */
    method Acquire(i: nat, d: Direction, r: Replies) returns (ret: int)
      requires i < |interfaces|
      modifies this`interfaces
      ensures
        var x := old(interfaces[i]);
        var (w, a) := OpenWires(x.wires, Config(x, d), x.refs == 1, r);
        ret == a.ret && State() == WithWires(old(State()), i, w)
    {
      hide ClockCall, TakePins;
      ret := 0;
      if interfaces[i].refs == 1 {
        ret := SetClock(i, d, true, r);
        if ret < 0 {
          return;
        }
        ret := SelectActive(i, r);
      }
      if ret == 0 {
        ret := r.format;
      } else if ret > 0 {
        return;
      }
      if ret < 0 {
        var _ := SetClock(i, d, false, r);
      }
    }

    method Mi2sStartup(i: int, d: Direction, r: Replies) returns (ret: int)
      requires VoteSafe(platform, State())
      modifies this
      ensures State() == OpenMi2s(platform, old(State()), i, d, r).0
      ensures ret == OpenMi2s(platform, old(State()), i, d, r).1.ret
    {
      hide OpenWires, IsFractional, ToU32;
      if i < 0 || i >= |interfaces| {
        return -EINVAL;
      }
      CountUpAndDown(interfaces[i].refs);
      ret := EnableVote(i, d, r);
      if ret < 0 {
        return;
      }
      interfaces := interfaces[i := interfaces[i].(refs := ToU32(interfaces[i].refs + 1))];
      ret := Acquire(i, d, r);
      if ret < 0 {
        interfaces := interfaces[i := interfaces[i].(refs := ToU32(interfaces[i].refs - 1))];
        DisableVote(i, d);
      }
    }

    method Mi2sShutdown(i: int, d: Direction, r: Replies)
      modifies this
      ensures State() == CloseMi2s(platform, old(State()), i, d, r)
    {
      hide BitClock, IsFractional;
      if i < 0 || i >= |interfaces| {
        return;
      }
      interfaces := interfaces[i := interfaces[i].(refs := ToU32(interfaces[i].refs - 1))];
      if interfaces[i].refs == 0 {
        SelectSleep(i, r);
        var _ := SetClock(i, d, false, r);
      }
      DisableVote(i, d);
    }

    /** The startup of a TDM or auxiliary PCM stream, whose only shared resource is the pins. */
    method PcmStartup(i: int, r: Replies) returns (ret: int)
      modifies this`interfaces
      ensures State() == OpenPcm(old(State()), i, r).0
      ensures ret == OpenPcm(old(State()), i, r).1.ret
    {
      if i < 0 || i >= |interfaces| {
        return -EINVAL;
      }
      ret := SelectActive(i, r);
    }

    method PcmShutdown(i: int, r: Replies)
      modifies this`interfaces
      ensures State() == ClosePcm(old(State()), i, r)
    {
      if i < 0 || i >= |interfaces| {
        return;
      }
      SelectSleep(i, r);
    }

    method RatePut(i: int, d: Direction, item: int)
      modifies this`interfaces
      ensures State() == PutRate(old(State()), i, d, item)
      ensures |interfaces| == |old(interfaces)|
      ensures forall j :: 0 <= j < |interfaces| && j != i ==> interfaces[j] == old(interfaces)[j]
      ensures 0 <= i < |interfaces| ==>
        var x, was := interfaces[i], old(interfaces)[i];
        && Config(x, d).rate == SampleRate(item) && Config(x, d).format == Config(was, d).format
        && Config(x, Opposite(d)) == Config(was, Opposite(d))
        && x.refs == was.refs && x.wires == was.wires
    {
      if 0 <= i < |interfaces| {
        var x := interfaces[i];
        interfaces := interfaces[i := WithConfig(x, d, Config(x, d).(rate := SampleRate(item)))];
      }
    }

    method FormatPut(i: int, d: Direction, item: int)
      modifies this`interfaces
      ensures State() == PutFormat(old(State()), i, d, item)
      ensures |interfaces| == |old(interfaces)|
      ensures forall j :: 0 <= j < |interfaces| && j != i ==> interfaces[j] == old(interfaces)[j]
      ensures 0 <= i < |interfaces| ==>
        var x, was := interfaces[i], old(interfaces)[i];
        && Config(x, d).format == SampleFormat(item) && Config(x, d).rate == Config(was, d).rate
        && Config(x, Opposite(d)) == Config(was, Opposite(d))
        && x.refs == was.refs && x.wires == was.wires
    {
      if 0 <= i < |interfaces| {
        var x := interfaces[i];
        interfaces := interfaces[i := WithConfig(x, d, Config(x, d).(format := SampleFormat(item)))];
      }
    }
  }
}
