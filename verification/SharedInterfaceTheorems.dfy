/**
  * What every run of the stream callbacks keeps, whatever the calls they make return: the pin and
  * reference counters account for the open streams, the vote clock is enabled exactly while there are
  * votes, and the bit clock and the vote count are exact up to two faults that are pinned down exactly.
  */
module SharedInterfaceTheorems {
  import opened Machine
  import opened SharedInterface

  /** The rates of the 44.1 kHz family, whose streams need the vote clock. */
  predicate CdRate(hz: int) {
    hz % 11025 == 0
  }

  /** They are the rates the driver votes for, whatever the item of the rate control. */
  lemma RatesThatVote()
    ensures forall hz: Rate :: IsFractional(hz) <==> CdRate(hz)
  {
    forall hz: Rate ensures IsFractional(hz) <==> CdRate(hz) {
    }
  }

  /** The texts of the rate and format controls, in order; an item without a text is 48 kHz, and 16 bits. */
  const RATE_TEXTS: seq<Rate> :=
    [8000, 11025, 16000, 22050, 32000, 44100, 48000, 88200, 96000, 176400, 192000, 352800, 384000]

  const FORMAT_TEXTS := [S16, S24, S24Packed, S32]

  function RateNamed(item: int): Rate {
    if 0 <= item < |RATE_TEXTS| then RATE_TEXTS[item] else 48000
  }

  function FormatNamed(item: int): Format {
    if 0 <= item < |FORMAT_TEXTS| then FORMAT_TEXTS[item] else S16
  }

  /** The controls set what their texts name. */
  lemma ControlsSetWhatTheyName(item: int)
    ensures SampleRate(item) == RateNamed(item) && SampleFormat(item) == FormatNamed(item)
  {
  }

  /** The bits of one stereo frame: every format but the shortest takes 32 bits a sample. */
  function FrameBits(f: Format): nat {
    if f == S16 then 32 else 64
  }

  /** Nothing stops an open before the reference is taken: the stream needs no vote, or it can be had. */
  predicate VoteHad(p: Platform, b: Board, i: int, d: Direction, r: Replies)
    requires InRange(b, i)
  {
    p.voting && i < VOTING_INTERFACES && CdRate(Config(b.interfaces[i], d).rate) ==>
      p.voteNode && (b.votes == 0 ==> r.vote >= 0)
  }

  datatype PcmKind = Tdm | Aux

  datatype Event =
    | Mi2sOpen(i: int, d: Direction)
    | Mi2sClose(i: int, d: Direction)
    | PcmOpen(kind: PcmKind, i: int)
    | PcmClose(kind: PcmKind, i: int)
    | RateControl(i: int, d: Direction, item: int)
    | FormatControl(i: int, d: Direction, item: int)

  /**
    * What the callers hold of one interface. `leaked` counts the first MI2S opens whose format was
    * refused, `unpinned` the opens for which the pin call returned a positive code, and `openerHz` is
    * the bit clock of the stream that took `refs` from zero to one.
    */
  datatype Book = Book(playback: nat, capture: nat, tdm: nat, aux: nat, leaked: nat, unpinned: nat, openerHz: int)

  datatype World = World(board: Board, books: seq<Book>)

  predicate Shaped(w: World) {
    |w.books| == |w.board.interfaces| >= VOTING_INTERFACES
  }

  function Streams(k: Book, d: Direction): nat {
    if d == Playback then k.playback else k.capture
  }

  function Pcms(k: Book, kind: PcmKind): nat {
    if kind == Tdm then k.tdm else k.aux
  }

  function WithStreams(k: Book, d: Direction, n: nat): Book {
    if d == Playback then k.(playback := n) else k.(capture := n)
  }

  function WithPcms(k: Book, kind: PcmKind, n: nat): Book {
    if kind == Tdm then k.(tdm := n) else k.(aux := n)
  }

  /** A stream is shut down only after its startup succeeded, and no interface ever has 2^32 streams open. */
  predicate Enabled(w: World, e: Event)
    requires Shaped(w)
  {
    match e
    case Mi2sOpen(i, d) => InRange(w.board, i) ==> w.books[i].playback + w.books[i].capture < 0xFFFF_FFFF
    case Mi2sClose(i, d) => InRange(w.board, i) ==> Streams(w.books[i], d) > 0
    case PcmClose(kind, i) => InRange(w.board, i) ==> Pcms(w.books[i], kind) > 0
    case _ => true
  }

  /** The pins of a first user are not selected and the call is no failure: the user goes uncounted. */
  predicate PinUncounted(w: Wires, r: Replies) {
    w.hasPins && w.pinCount == 0 && r.pin > 0
  }

  /** The pins are counted for an open whose format is then refused: the count stays. */
  predicate PinLeaks(w: Wires, r: Replies) {
    w.hasPins && (w.pinCount == 0 ==> r.pin == 0) && r.format < 0
  }

  /** A first MI2S stream that has its vote gets as far as the pins. */
  predicate ReachesPins(x: Interface, r: Replies) {
    x.refs == 0 && r.port >= 0 && r.clockOn >= 0
  }

  /** What an open that had its vote and returned `ret` adds to the book. */
  function RecordMi2s(k: Book, x: Interface, d: Direction, ret: int, r: Replies): Book {
    var c := Config(x, d);
    var more := if ret < 0 then k else WithStreams(k, d, Streams(k, d) + 1);
    more.(
      openerHz := if ret >= 0 && x.refs == 0 then c.rate * FrameBits(c.format) else k.openerHz,
      leaked := k.leaked + (if ReachesPins(x, r) && PinLeaks(x.wires, r) then 1 else 0),
      unpinned := k.unpinned + (if ReachesPins(x, r) && PinUncounted(x.wires, r) then 1 else 0))
  }

  function RecordPcm(k: Book, x: Interface, kind: PcmKind, ret: int, r: Replies): Book {
    (if ret < 0 then k else WithPcms(k, kind, Pcms(k, kind) + 1)).(
      unpinned := k.unpinned + (if PinUncounted(x.wires, r) then 1 else 0))
  }

  predicate BookAccounts(x: Interface, k: Book) {
    var w := x.wires;
    && x.refs == k.playback + k.capture
    && (w.hasPins ==> w.pinCount == k.tdm + k.aux + (if x.refs > 0 then 1 else 0) + k.leaked - k.unpinned)
    && (!w.hasPins ==> w.pinCount == 0)
    && (w.pinCount > 0 ==> w.pinsActive)
    && (x.refs > 0 ==> w.clockHz == k.openerHz)
  }

  ghost predicate Accounts(w: World) {
    && Shaped(w)
    && forall i :: 0 <= i < |w.books| ==> BookAccounts(w.board.interfaces[i], w.books[i])
  }

  function Step(p: Platform, w: World, e: Event, r: Replies): World
    requires Accounts(w) && Enabled(w, e)
  {
    var b := w.board;
    match e
    case Mi2sOpen(i, d) =>
      var (after, a) := OpenMi2s(p, b, i, d, r);
      World(after,
        if InRange(b, i) && VoteHad(p, b, i, d, r)
        then w.books[i := RecordMi2s(w.books[i], b.interfaces[i], d, a.ret, r)]
        else w.books)
    case Mi2sClose(i, d) =>
      World(CloseMi2s(p, b, i, d, r),
        if InRange(b, i) then w.books[i := WithStreams(w.books[i], d, Streams(w.books[i], d) - 1)] else w.books)
    case PcmOpen(kind, i) =>
      var (after, a) := OpenPcm(b, i, r);
      World(after,
        if InRange(b, i) then w.books[i := RecordPcm(w.books[i], b.interfaces[i], kind, a.ret, r)] else w.books)
    case PcmClose(kind, i) =>
      World(ClosePcm(b, i, r),
        if InRange(b, i) then w.books[i := WithPcms(w.books[i], kind, Pcms(w.books[i], kind) - 1)] else w.books)
    case RateControl(i, d, item) => World(PutRate(b, i, d, item), w.books)
    case FormatControl(i, d, item) => World(PutFormat(b, i, d, item), w.books)
  }

  // ---- One interface at a time ----

  lemma BitClockIsExact(c: StreamConfig)
    ensures BitClock(c) == c.rate * FrameBits(c.format)
  {
    assert c.rate * 2 * 16 < 0x1_0000_0000 && c.rate * 2 * 32 < 0x1_0000_0000;
  }

  /** How an open moves the counters, and what it leaves of the clock at each stage it can end in. */
  lemma {:induction false} WiresAfterOpen(w: Wires, c: StreamConfig, first: bool, r: Replies)
    ensures
      var (v, a) := OpenWires(w, c, first, r);
      && v.hasPins == w.hasPins
      && (v.pinsActive == w.pinsActive || (v.pinsActive && w.pinCount == 0))
      && (var counted := first && w.hasPins && (a.stage == Opened || a.stage == FormatRefused);
          v.pinCount == w.pinCount + (if counted then 1 else 0))
      && (v.pinCount != w.pinCount && w.pinCount == 0 ==> v.pinsActive)
      && (a.ret >= 0 <==> a.stage == Opened || a.stage == OpenedUnpinned)
      && (a.stage == OpenedUnpinned ==> first && w.hasPins)
      && (a.ret >= 0 ==> v.clockOn == (first || w.clockOn) && v.clockHz == (if first then BitClock(c) else w.clockHz))
      && (!first ==> v.clockHz == w.clockHz && (a.stage == Opened || a.stage == FormatRefused))
      && (a.stage == PortUnknown || a.stage == ClockRefused ==> v.clockOn == w.clockOn)
      && (a.stage == PortUnknown ==> v == w)
      && (first && a.stage != PortUnknown ==> v.clockHz == c.rate * FrameBits(c.format))
      && (a.stage == FormatRefused && (r.port < 0 || r.clockOff < 0) ==> v.clockOn == (first || w.clockOn))
      && (a.stage == PinRefused && r.clockOff < 0 ==> v.clockOn)
      && (a.stage == FormatRefused || a.stage == PinRefused ==> r.port >= 0 && r.clockOff >= 0 ==> !v.clockOn)
      && (a.stage == PinRefused || (first && a.stage == FormatRefused) ==> r.port >= 0)
      && a.stage !in {BadIndex, NoVoteNode, VoteRefused}
  {
    hide BitClock;
    BitClockIsExact(c);
  }

  /**
    * A callback or control for an interface that the card does not have changes nothing, and an open of it is
    * refused.
    */
  lemma BadIndexDoesNothing(p: Platform, b: Board, i: int, d: Direction, item: int, r: Replies)
    requires !InRange(b, i)
    ensures OpenMi2s(p, b, i, d, r) == (b, Attempt(BadIndex, -EINVAL)) == OpenPcm(b, i, r)
    ensures CloseMi2s(p, b, i, d, r) == ClosePcm(b, i, r) == PutRate(b, i, d, item) == PutFormat(b, i, d, item) == b
  {
  }

  /** The replies for which an open gets as far as the format and has it refused, or opens without counting the pins. */
  lemma StagesByReplies(w: Wires, c: StreamConfig, first: bool, r: Replies)
    ensures OpenWires(w, c, first, r).1.stage == FormatRefused <==>
      && r.format < 0
      && (first ==> r.port >= 0 && r.clockOn >= 0 && (w.hasPins && w.pinCount == 0 ==> r.pin == 0))
    ensures OpenWires(w, c, first, r).1.stage == OpenedUnpinned <==>
      first && r.port >= 0 && r.clockOn >= 0 && PinUncounted(w, r)
  {
    hide BitClock;
  }

  lemma {:induction false} OpenBalances(x: Interface, k: Book, d: Direction, r: Replies)
    requires BookAccounts(x, k) && k.playback + k.capture < 0xFFFF_FFFF
    ensures
      var (v, a) := OpenWires(x.wires, Config(x, d), x.refs == 0, r);
      BookAccounts(
        x.(wires := v, refs := if a.ret < 0 then x.refs else ToU32(x.refs + 1)), RecordMi2s(k, x, d, a.ret, r))
  {
    hide OpenWires, BitClock;
    WiresAfterOpen(x.wires, Config(x, d), x.refs == 0, r);
    StagesByReplies(x.wires, Config(x, d), x.refs == 0, r);
    BitClockIsExact(Config(x, d));
  }

  lemma {:induction false} CloseBalances(x: Interface, k: Book, d: Direction, r: Replies)
    requires BookAccounts(x, k) && Streams(k, d) > 0
    ensures
      var v := CloseWires(x.wires, Config(x, d), x.refs == 1, r);
      BookAccounts(x.(wires := v, refs := x.refs - 1), WithStreams(k, d, Streams(k, d) - 1))
  {
  }

  lemma {:induction false} PcmBalances(x: Interface, k: Book, kind: PcmKind, r: Replies)
    requires BookAccounts(x, k)
    ensures
      var (v, code) := TakePins(x.wires, r);
      BookAccounts(x.(wires := v), RecordPcm(k, x, kind, code, r))
    ensures Pcms(k, kind) > 0 ==>
      BookAccounts(x.(wires := ReleasePins(x.wires, r)), WithPcms(k, kind, Pcms(k, kind) - 1))
  {
  }

  // ---- Accounting over whole runs ----

  lemma StepAccounts(p: Platform, w: World, e: Event, r: Replies)
    requires Accounts(w) && Enabled(w, e) && VoteSafe(p, w.board)
    ensures Accounts(Step(p, w, e, r)) && VoteSafe(p, Step(p, w, e, r).board)
  {
    hide OpenWires, CloseWires, TakePins, ReleasePins, RecordMi2s, RecordPcm, IsFractional, BookAccounts, SampleRate;
    RatesThatVote();
    if InRange(w.board, e.i) {
      var x, k := w.board.interfaces[e.i], w.books[e.i];
      match e
      case Mi2sOpen(i, d) => OpenBalances(x, k, d, r);
      case Mi2sClose(i, d) => CloseBalances(x, k, d, r);
      case PcmOpen(kind, i) => PcmBalances(x, k, kind, r);
      case PcmClose(kind, i) => PcmBalances(x, k, kind, r);
      case RateControl(i, d, item) => ControlBalances(x, k, d, item);
      case FormatControl(i, d, item) => ControlBalances(x, k, d, item);
    }
  }

  lemma ControlBalances(x: Interface, k: Book, d: Direction, item: int)
    requires BookAccounts(x, k)
    ensures BookAccounts(WithConfig(x, d, Config(x, d).(rate := SampleRate(item))), k)
    ensures BookAccounts(WithConfig(x, d, Config(x, d).(format := SampleFormat(item))), k)
  {
  }

  /** Shutdowns only after startups, all along the run. */
  ghost predicate Permitted(p: Platform, w: World, script: seq<(Event, Replies)>)
    requires Accounts(w) && VoteSafe(p, w.board)
    decreases |script|
  {
    script == [] ||
    (Enabled(w, script[0].0) &&
     (StepAccounts(p, w, script[0].0, script[0].1);
      Permitted(p, Step(p, w, script[0].0, script[0].1), script[1..])))
  }

  /** The world at the end of a run; its counters account for the open streams, and its votes are safe. */
  ghost function After(p: Platform, w: World, script: seq<(Event, Replies)>): (v: World)
    requires Accounts(w) && VoteSafe(p, w.board) && Permitted(p, w, script)
    ensures Accounts(v) && VoteSafe(p, v.board)
    decreases |script|
  {
    if script == [] then w
    else
      StepAccounts(p, w, script[0].0, script[0].1);
      After(p, Step(p, w, script[0].0, script[0].1), script[1..])
  }

  /** The state the card is built in: nothing open, every rate 48 kHz. */
  function Built(pins: seq<bool>): (w: World)
    ensures |w.books| == |w.board.interfaces| == |pins|
    ensures forall i :: 0 <= i < |pins| ==> BookAccounts(w.board.interfaces[i], w.books[i])
    ensures forall i :: 0 <= i < |pins| ==>
      w.board.interfaces[i] == Idle(pins[i]) && w.books[i] == Book(0, 0, 0, 0, 0, 0, 0)
  {
    World(Board(seq(|pins|, i requires 0 <= i < |pins| => Idle(pins[i])), 0, 0),
      seq(|pins|, _ => Book(0, 0, 0, 0, 0, 0, 0)))
  }

  function Idle(hasPins: bool): Interface {
    var c := StreamConfig(48000, S16);
    Interface(0, Wires(hasPins, 0, false, false, 0), c, c)
  }

  /**
    * Every run of a card, whatever its calls return: references are the open MI2S streams; the users
    * of the pins are the open streams and the leaked opens; a used set of pins is active, so unless the
    * pin call ever returned a positive code no count is negative and every open stream has its pins;
    * the bit clock is the one computed for the stream that opened the interface; and the vote clock is
    * enabled once while there are votes and not otherwise.
    */
  lemma {:induction false} RunAccounts(p: Platform, pins: seq<bool>, script: seq<(Event, Replies)>, i: nat)
    requires VOTING_INTERFACES <= |pins| && i < |pins|
    requires Permitted(p, Built(pins), script)
    ensures
      var v := After(p, Built(pins), script);
      && |v.board.interfaces| == |v.books| == |pins|
      && var x, k := v.board.interfaces[i], v.books[i];
      && x.refs == k.playback + k.capture
      && x.wires.hasPins == pins[i]
      && (pins[i] ==> x.wires.pinCount == k.tdm + k.aux + (if x.refs > 0 then 1 else 0) + k.leaked - k.unpinned)
      && (k.unpinned == 0 ==> x.wires.pinCount >= 0)
      && (pins[i] && k.unpinned == 0 && x.refs + k.tdm + k.aux > 0 ==> x.wires.pinsActive)
      && (x.refs > 0 ==> x.wires.clockHz == k.openerHz)
      && v.board.votes >= 0
      && v.board.voteDepth == (if v.board.votes > 0 then 1 else 0)
  {
    hide After, Built, Permitted, Accounts, BookAccounts;
    var w := Built(pins);
    BuiltAccounts(p, pins);
    FixedParts(p, w, script);
    BookOf(After(p, w, script), i);
    assert w.board.interfaces[i].wires.hasPins == pins[i];
  }

  lemma BuiltAccounts(p: Platform, pins: seq<bool>)
    requires VOTING_INTERFACES <= |pins|
    ensures Accounts(Built(pins)) && VoteSafe(p, Built(pins).board)
  {
    hide Built, BookAccounts;
    BuiltHasNoVotes(pins);
  }

  lemma BookOf(w: World, i: nat)
    requires Accounts(w) && i < |w.board.interfaces|
    ensures |w.books| == |w.board.interfaces|
    ensures
      var x, k := w.board.interfaces[i], w.books[i];
      && x.refs == k.playback + k.capture
      && (x.wires.hasPins ==> x.wires.pinCount == k.tdm + k.aux + (if x.refs > 0 then 1 else 0) + k.leaked - k.unpinned)
      && (x.wires.pinCount > 0 ==> x.wires.pinsActive)
      && (!x.wires.hasPins ==> x.wires.pinCount == 0)
      && (x.refs > 0 ==> x.wires.clockHz == k.openerHz)
  {
    assert BookAccounts(w.board.interfaces[i], w.books[i]);
  }

  lemma BuiltHasNoVotes(pins: seq<bool>)
    ensures Built(pins).board.votes == Built(pins).board.voteDepth == 0
    ensures |pins| >= VOTING_INTERFACES ==> VotesDue(Built(pins)) == 0
  {
  }

  lemma BuiltIsExact(pins: seq<bool>)
    ensures ClockExact(Built(pins)) && PinsExact(Built(pins))
    ensures |pins| >= VOTING_INTERFACES ==> PinsCounted(Built(pins))
  {
    hide Built;
    assert forall i :: 0 <= i < |pins| ==>
      Built(pins).board.interfaces[i] == Idle(pins[i]) && Built(pins).books[i] == Book(0, 0, 0, 0, 0, 0, 0);
  }

  lemma RefsAreStreams(x: Interface, k: Book)
    requires BookAccounts(x, k)
    ensures x.refs == k.playback + k.capture
  {
  }

  /** No callback adds an interface or gives it pins. */
  lemma {:induction false} FixedParts(p: Platform, w: World, script: seq<(Event, Replies)>)
    requires Accounts(w) && VoteSafe(p, w.board) && Permitted(p, w, script)
    ensures
      var v := After(p, w, script);
      && |v.board.interfaces| == |w.board.interfaces|
      && forall i :: 0 <= i < |w.board.interfaces| ==>
           v.board.interfaces[i].wires.hasPins == w.board.interfaces[i].wires.hasPins
    decreases |script|
  {
    hide Step, BookAccounts;
    if script != [] {
      var (e, r) := script[0];
      StepAccounts(p, w, e, r);
      StepFixes(p, w, e, r);
      FixedParts(p, Step(p, w, e, r), script[1..]);
    }
  }

  lemma {:induction false} StepFixes(p: Platform, w: World, e: Event, r: Replies)
    requires Accounts(w) && Enabled(w, e)
    ensures
      var v := Step(p, w, e, r);
      && |v.board.interfaces| == |w.board.interfaces|
      && forall i :: 0 <= i < |w.board.interfaces| ==>
           v.board.interfaces[i].wires.hasPins == w.board.interfaces[i].wires.hasPins
  {
    hide OpenWires, BookAccounts, SampleRate, IsFractional, BitClock;
    if e.Mi2sOpen? && InRange(w.board, e.i) {
      var x := w.board.interfaces[e.i];
      WiresAfterOpen(x.wires, Config(x, e.d), x.refs == 0, r);
    }
  }

  // ---- The vote count ----

  function OpenFractional(x: Interface, k: Book): nat {
    (if CdRate(x.playback.rate) then k.playback else 0) + (if CdRate(x.capture.rate) then k.capture else 0)
  }

  /** The open streams whose present rate is fractional, on the interfaces that vote. */
  function VotesDue(w: World): nat
    requires Shaped(w)
  {
    OpenFractional(w.board.interfaces[0], w.books[0]) +
    OpenFractional(w.board.interfaces[1], w.books[1]) +
    OpenFractional(w.board.interfaces[2], w.books[2])
  }

  /** A rate control that moves an open stream of a voting interface into or out of the fractional rates. */
  predicate MovesAVoter(w: World, e: Event)
    requires Shaped(w)
  {
    && e.RateControl?
    && 0 <= e.i < VOTING_INTERFACES
    && Streams(w.books[e.i], e.d) > 0
    && CdRate(RateNamed(e.item)) != CdRate(Config(w.board.interfaces[e.i], e.d).rate)
  }

  /** How one event moves the number of votes due, interface by interface. */
  lemma DueChanges(w: World, v: World, i: nat)
    requires Shaped(w) && Shaped(v) && |v.books| == |w.books|
    requires i < |w.books|
    requires forall j :: 0 <= j < |w.books| && j != i ==>
      v.books[j] == w.books[j] && v.board.interfaces[j] == w.board.interfaces[j]
    ensures VotesDue(v) - VotesDue(w) ==
      if i < VOTING_INTERFACES
      then OpenFractional(v.board.interfaces[i], v.books[i]) - OpenFractional(w.board.interfaces[i], w.books[i])
      else 0
  {
    hide OpenFractional;
  }

  /**
    * The vote count equals the open fractional streams, after any callback and whatever it returned,
    * exactly until a rate control moves an open stream across the fractional boundary.
    */
  lemma StepVotes(p: Platform, w: World, e: Event, r: Replies)
    requires p.voting && Accounts(w) && VoteSafe(p, w.board) && Enabled(w, e)
    requires w.board.votes == VotesDue(w)
    ensures Shaped(Step(p, w, e, r))
    ensures Step(p, w, e, r).board.votes == VotesDue(Step(p, w, e, r)) <==> !MovesAVoter(w, e)
  {
    hide Step, OpenFractional, BookAccounts, SampleRate, VotesDue;
    StepAccounts(p, w, e, r);
    match e
    case Mi2sOpen(i, d) => OpenVotes(p, w, i, d, r);
    case Mi2sClose(i, d) => CloseVotes(p, w, i, d, r);
    case _ => OtherVotes(p, w, e, r);
  }

  lemma {:induction false} OpenVotes(p: Platform, w: World, i: int, d: Direction, r: Replies)
    requires p.voting && Accounts(w) && VoteSafe(p, w.board) && Enabled(w, Mi2sOpen(i, d))
    requires w.board.votes == VotesDue(w)
    ensures
      var v := Step(p, w, Mi2sOpen(i, d), r);
      Shaped(v) && v.board.votes == VotesDue(v)
  {
    hide OpenWires, IsFractional, BookAccounts, VotesDue;
    RatesThatVote();
    var v := Step(p, w, Mi2sOpen(i, d), r);
    if InRange(w.board, i) {
      var x := w.board.interfaces[i];
      WiresAfterOpen(x.wires, Config(x, d), x.refs == 0, r);
      DueChanges(w, v, i);
    } else {
      assert v == w;
    }
  }

  lemma {:induction false} CloseVotes(p: Platform, w: World, i: int, d: Direction, r: Replies)
    requires p.voting && Accounts(w) && VoteSafe(p, w.board) && Enabled(w, Mi2sClose(i, d))
    requires w.board.votes == VotesDue(w)
    ensures
      var v := Step(p, w, Mi2sClose(i, d), r);
      Shaped(v) && v.board.votes == VotesDue(v)
  {
    hide CloseWires, IsFractional, BookAccounts, VotesDue;
    RatesThatVote();
    var v := Step(p, w, Mi2sClose(i, d), r);
    if InRange(w.board, i) {
      assert BookAccounts(w.board.interfaces[i], w.books[i]);
      DueChanges(w, v, i);
      if i < VOTING_INTERFACES {
        OneVoterIsDue(w, i);
      }
    } else {
      assert v == w;
    }
  }

  lemma {:induction false} OtherVotes(p: Platform, w: World, e: Event, r: Replies)
    requires Accounts(w) && Enabled(w, e) && !e.Mi2sOpen? && !e.Mi2sClose?
    requires w.board.votes == VotesDue(w)
    ensures
      var v := Step(p, w, e, r);
      Shaped(v) && (v.board.votes == VotesDue(v) <==> !MovesAVoter(w, e))
  {
    hide TakePins, ReleasePins, IsFractional, BookAccounts, VotesDue, SampleRate, RateNamed;
    if e.RateControl? {
      ControlsSetWhatTheyName(e.item);
    }
    var v := Step(p, w, e, r);
    if InRange(w.board, e.i) {
      DueChanges(w, v, e.i);
    } else {
      assert v == w;
    }
  }

  lemma OneVoterIsDue(w: World, i: nat)
    requires Shaped(w) && i < VOTING_INTERFACES
    ensures VotesDue(w) >= OpenFractional(w.board.interfaces[i], w.books[i])
  {
    hide OpenFractional;
  }

  ghost predicate VotesExactThroughout(p: Platform, w: World, script: seq<(Event, Replies)>)
    requires Accounts(w) && VoteSafe(p, w.board) && Permitted(p, w, script)
    decreases |script|
  {
    && w.board.votes == VotesDue(w)
    && (script == [] ||
        (StepAccounts(p, w, script[0].0, script[0].1);
         VotesExactThroughout(p, Step(p, w, script[0].0, script[0].1), script[1..])))
  }

  ghost predicate NoVoterMoves(p: Platform, w: World, script: seq<(Event, Replies)>)
    requires Accounts(w) && VoteSafe(p, w.board) && Permitted(p, w, script)
    decreases |script|
  {
    script == [] ||
    (&& !MovesAVoter(w, script[0].0)
     && (StepAccounts(p, w, script[0].0, script[0].1);
         NoVoterMoves(p, Step(p, w, script[0].0, script[0].1), script[1..])))
  }

  /**
    * Along a whole run, failed opens included, the vote count is exact exactly when no rate control moves an open
    * voter.
    */
  lemma {:induction false} RunVotes(p: Platform, w: World, script: seq<(Event, Replies)>)
    requires p.voting && Accounts(w) && VoteSafe(p, w.board) && Permitted(p, w, script)
    requires w.board.votes == VotesDue(w)
    ensures VotesExactThroughout(p, w, script) <==> NoVoterMoves(p, w, script)
    decreases |script|
  {
    hide Step, VotesDue, MovesAVoter, BookAccounts;
    if script != [] {
      var (e, r) := script[0];
      StepVotes(p, w, e, r);
      StepAccounts(p, w, e, r);
      var v := Step(p, w, e, r);
      if v.board.votes == VotesDue(v) {
        RunVotes(p, v, script[1..]);
      }
    }
  }

  // ---- The bit clock ----

  /** The bit clock of every interface runs exactly while it has open MI2S streams. */
  ghost predicate ClockExact(w: World) {
    forall i :: 0 <= i < |w.board.interfaces| ==>
      (w.board.interfaces[i].wires.clockOn <==> w.board.interfaces[i].refs > 0)
  }

  /**
    * The two faults of the clock: a format refused on an interface that is already open turns off the
    * clock of the streams that are using it, and a refused disable leaves on the clock of a closed one.
    */
  predicate ClockFault(p: Platform, w: World, e: Event, r: Replies) {
    var b := w.board;
    InRange(b, e.i) &&
    var x := b.interfaces[e.i];
    match e
    case Mi2sOpen(i, d) => VoteHad(p, b, i, d, r) && OpenFault(x.wires, x.refs == 0, r)
    case Mi2sClose(_, _) => x.refs == 1 && (r.port < 0 || r.clockOff < 0)
    case _ => false
  }

  /**
    * The replies for which an open leaves wrong a clock that was right: a further stream's format is refused and the
    * disable works; or a first stream's pins or format are refused and the disable does not.
    */
  predicate OpenFault(w: Wires, first: bool, r: Replies) {
    if !first then r.format < 0 && r.port >= 0 && r.clockOff >= 0
    else
      && r.port >= 0 && r.clockOn >= 0 && r.clockOff < 0
      && (if w.hasPins && w.pinCount == 0 && r.pin != 0 then r.pin < 0 else r.format < 0)
  }

  lemma {:induction false} ClockAfterOpen(w: Wires, c: StreamConfig, first: bool, r: Replies)
    requires w.clockOn == !first
    ensures
      var (v, a) := OpenWires(w, c, first, r);
      v.clockOn == (!first || a.ret >= 0) <==> !OpenFault(w, first, r)
  {
    hide BitClock;
  }

  lemma StepClock(p: Platform, w: World, e: Event, r: Replies)
    requires Accounts(w) && VoteSafe(p, w.board) && Enabled(w, e) && ClockExact(w)
    ensures ClockExact(Step(p, w, e, r)) <==> !ClockFault(p, w, e, r)
  {
    hide OpenWires, BitClock, IsFractional, BookAccounts, SampleRate;
    RatesThatVote();
    var b, v := w.board, Step(p, w, e, r).board;
    if InRange(b, e.i) {
      var x := b.interfaces[e.i];
      RefsAreStreams(x, w.books[e.i]);
      if e.Mi2sOpen? {
        ClockAfterOpen(x.wires, Config(x, e.d), x.refs == 0, r);
      }
      StepFixes(p, w, e, r);
      assert forall j :: 0 <= j < |b.interfaces| && j != e.i ==> v.interfaces[j] == b.interfaces[j];
      assert v.interfaces[e.i].wires.clockOn == (v.interfaces[e.i].refs > 0) <==> !ClockFault(p, w, e, r);
    }
  }

  ghost predicate ClockExactThroughout(p: Platform, w: World, script: seq<(Event, Replies)>)
    requires Accounts(w) && VoteSafe(p, w.board) && Permitted(p, w, script)
    decreases |script|
  {
    && ClockExact(w)
    && (script == [] ||
        (StepAccounts(p, w, script[0].0, script[0].1);
         ClockExactThroughout(p, Step(p, w, script[0].0, script[0].1), script[1..])))
  }

  ghost predicate NoClockFault(p: Platform, w: World, script: seq<(Event, Replies)>)
    requires Accounts(w) && VoteSafe(p, w.board) && Permitted(p, w, script)
    decreases |script|
  {
    script == [] ||
    (&& !ClockFault(p, w, script[0].0, script[0].1)
     && (StepAccounts(p, w, script[0].0, script[0].1);
         NoClockFault(p, Step(p, w, script[0].0, script[0].1), script[1..])))
  }

  /** Every call that disables a clock succeeds and the format is never refused; anything else may fail at any step. */
  predicate FormatAndDisableSucceed(script: seq<(Event, Replies)>) {
    forall k :: 0 <= k < |script| ==> script[k].1.port >= 0 && script[k].1.clockOff >= 0 && script[k].1.format >= 0
  }

  lemma {:induction false} RunClock(p: Platform, w: World, script: seq<(Event, Replies)>)
    requires Accounts(w) && VoteSafe(p, w.board) && Permitted(p, w, script) && ClockExact(w)
    ensures ClockExactThroughout(p, w, script) <==> NoClockFault(p, w, script)
    ensures FormatAndDisableSucceed(script) ==> NoClockFault(p, w, script)
    decreases |script|
  {
    hide Step, BookAccounts, ClockExact;
    if script != [] {
      var (e, r) := script[0];
      StepClock(p, w, e, r);
      StepAccounts(p, w, e, r);
      var v := Step(p, w, e, r);
      if FormatAndDisableSucceed(script) {
        assert script[0].1.format >= 0 && r.port >= 0 && r.clockOff >= 0;
        NoFaultWithoutRefusal(p, w, e, r);
      }
      if ClockExact(v) {
        RunClock(p, v, script[1..]);
      }
    }
  }

  lemma NoFaultWithoutRefusal(p: Platform, w: World, e: Event, r: Replies)
    requires r.port >= 0 && r.clockOff >= 0 && r.format >= 0
    ensures !ClockFault(p, w, e, r)
  {
    hide BitClock, IsFractional;
  }

  // ---- The pins ----

  /** The pins of every interface are in their active state exactly while they are counted. */
  ghost predicate PinsExact(w: World) {
    forall i :: 0 <= i < |w.board.interfaces| ==> WiresPinned(w.board.interfaces[i].wires)
  }

  predicate WiresPinned(w: Wires) {
    w.hasPins ==> (w.pinsActive <==> w.pinCount > 0)
  }

  /** The last count is given back and the pins refuse to sleep. */
  predicate PinFault(w: World, e: Event, r: Replies) {
    InRange(w.board, e.i) &&
    var x := w.board.interfaces[e.i];
    && (e.PcmClose? || (e.Mi2sClose? && x.refs == 1))
    && x.wires.hasPins && x.wires.pinCount == 1 && r.sleep != 0
  }

  lemma WiresStayPinned(w: Wires, c: StreamConfig, first: bool, r: Replies)
    requires WiresPinned(w)
    ensures WiresPinned(OpenWires(w, c, first, r).0) && WiresPinned(TakePins(w, r).0)
    ensures WiresPinned(ReleasePins(w, r)) <==> !(w.hasPins && w.pinCount == 1 && r.sleep != 0)
    ensures WiresPinned(CloseWires(w, c, first, r)) <==> !(first && w.hasPins && w.pinCount == 1 && r.sleep != 0)
  {
    hide BitClock;
  }

  /**
    * With the pins active exactly while counted, they are so after any callback exactly unless it gives back the
    * last count and the pins refuse to sleep.
    */
  lemma StepPins(p: Platform, w: World, e: Event, r: Replies)
    requires Accounts(w) && VoteSafe(p, w.board) && Enabled(w, e) && PinsExact(w)
    ensures PinsExact(Step(p, w, e, r)) <==> !PinFault(w, e, r)
  {
    hide OpenWires, CloseWires, TakePins, ReleasePins, IsFractional, BookAccounts, SampleRate, WiresPinned;
    var b, v := w.board, Step(p, w, e, r).board;
    if InRange(b, e.i) {
      var x := b.interfaces[e.i];
      var d := if e.Mi2sOpen? || e.Mi2sClose? then e.d else Playback;
      WiresStayPinned(x.wires, Config(x, d), if e.Mi2sClose? then x.refs == 1 else x.refs == 0, r);
      StepFixes(p, w, e, r);
      assert forall j :: 0 <= j < |b.interfaces| && j != e.i ==> v.interfaces[j] == b.interfaces[j];
      assert WiresPinned(v.interfaces[e.i].wires) <==> !PinFault(w, e, r);
    }
  }

  ghost predicate PinsExactThroughout(p: Platform, w: World, script: seq<(Event, Replies)>)
    requires Accounts(w) && VoteSafe(p, w.board) && Permitted(p, w, script)
    decreases |script|
  {
    && PinsExact(w)
    && (script == [] ||
        (StepAccounts(p, w, script[0].0, script[0].1);
         PinsExactThroughout(p, Step(p, w, script[0].0, script[0].1), script[1..])))
  }

  ghost predicate NoPinFault(p: Platform, w: World, script: seq<(Event, Replies)>)
    requires Accounts(w) && VoteSafe(p, w.board) && Permitted(p, w, script)
    decreases |script|
  {
    script == [] ||
    (&& !PinFault(w, script[0].0, script[0].1)
     && (StepAccounts(p, w, script[0].0, script[0].1);
         NoPinFault(p, Step(p, w, script[0].0, script[0].1), script[1..])))
  }

  lemma {:induction false} RunPins(p: Platform, w: World, script: seq<(Event, Replies)>)
    requires Accounts(w) && VoteSafe(p, w.board) && Permitted(p, w, script) && PinsExact(w)
    ensures PinsExactThroughout(p, w, script) <==> NoPinFault(p, w, script)
    decreases |script|
  {
    hide Step, BookAccounts, PinsExact, PinFault;
    if script != [] {
      var (e, r) := script[0];
      StepPins(p, w, e, r);
      StepAccounts(p, w, e, r);
      var v := Step(p, w, e, r);
      if PinsExact(v) {
        RunPins(p, v, script[1..]);
      }
    }
  }

  // ---- The count of the pins' users ----

  /** The pins of every interface are counted once for each open PCM stream and once for all its MI2S streams. */
  ghost predicate PinsCounted(w: World) {
    && Shaped(w)
    && forall i :: 0 <= i < |w.books| ==> UsersCounted(w.board.interfaces[i], w.books[i])
  }

  predicate UsersCounted(x: Interface, k: Book) {
    x.wires.hasPins ==> x.wires.pinCount == k.tdm + k.aux + (if x.refs > 0 then 1 else 0)
  }

  /**
    * The two faults of the count: a first MI2S open reaches the pins and either counts them although its format is
    * refused or does not count them although it succeeds; or a PCM open succeeds without counting them.
    */
  predicate CountFault(p: Platform, w: World, e: Event, r: Replies) {
    var b := w.board;
    InRange(b, e.i) &&
    var x := b.interfaces[e.i];
    match e
    case Mi2sOpen(i, d) =>
      VoteHad(p, b, i, d, r) && ReachesPins(x, r) && (PinLeaks(x.wires, r) || PinUncounted(x.wires, r))
    case PcmOpen(_, _) => PinUncounted(x.wires, r)
    case _ => false
  }

  lemma StepCounted(p: Platform, w: World, e: Event, r: Replies)
    requires Accounts(w) && VoteSafe(p, w.board) && Enabled(w, e) && PinsCounted(w)
    ensures PinsCounted(Step(p, w, e, r)) <==> !CountFault(p, w, e, r)
  {
    hide OpenWires, CloseWires, TakePins, ReleasePins, IsFractional, SampleRate, BitClock;
    RatesThatVote();
    StepAccounts(p, w, e, r);
    StepFixes(p, w, e, r);
    var v := Step(p, w, e, r);
    if InRange(w.board, e.i) {
      var i := e.i;
      assert BookAccounts(w.board.interfaces[i], w.books[i]) && BookAccounts(v.board.interfaces[i], v.books[i]);
      assert forall j :: 0 <= j < |w.books| && j != i ==>
        v.board.interfaces[j] == w.board.interfaces[j] && v.books[j] == w.books[j];
      assert UsersCounted(v.board.interfaces[i], v.books[i]) <==> !CountFault(p, w, e, r);
    }
  }

  ghost predicate CountedThroughout(p: Platform, w: World, script: seq<(Event, Replies)>)
    requires Accounts(w) && VoteSafe(p, w.board) && Permitted(p, w, script)
    decreases |script|
  {
    && PinsCounted(w)
    && (script == [] ||
        (StepAccounts(p, w, script[0].0, script[0].1);
         CountedThroughout(p, Step(p, w, script[0].0, script[0].1), script[1..])))
  }

  ghost predicate NoCountFault(p: Platform, w: World, script: seq<(Event, Replies)>)
    requires Accounts(w) && VoteSafe(p, w.board) && Permitted(p, w, script)
    decreases |script|
  {
    script == [] ||
    (&& !CountFault(p, w, script[0].0, script[0].1)
     && (StepAccounts(p, w, script[0].0, script[0].1);
         NoCountFault(p, Step(p, w, script[0].0, script[0].1), script[1..])))
  }

  lemma {:induction false} RunCounted(p: Platform, w: World, script: seq<(Event, Replies)>)
    requires Accounts(w) && VoteSafe(p, w.board) && Permitted(p, w, script) && PinsCounted(w)
    ensures CountedThroughout(p, w, script) <==> NoCountFault(p, w, script)
    decreases |script|
  {
    hide Step, BookAccounts, PinsCounted, CountFault;
    if script != [] {
      var (e, r) := script[0];
      StepCounted(p, w, e, r);
      StepAccounts(p, w, e, r);
      var v := Step(p, w, e, r);
      if PinsCounted(v) {
        RunCounted(p, v, script[1..]);
      }
    }
  }

  /**
    * Of every run of a card as it is built: clocks, pins, the count of their users and the votes are exact after each
    * callback exactly as far as no fault of theirs occurs.
    */
  lemma {:induction false} BuiltRuns(p: Platform, pins: seq<bool>, script: seq<(Event, Replies)>)
    requires VOTING_INTERFACES <= |pins| && Permitted(p, Built(pins), script)
    ensures ClockExactThroughout(p, Built(pins), script) <==> NoClockFault(p, Built(pins), script)
    ensures PinsExactThroughout(p, Built(pins), script) <==> NoPinFault(p, Built(pins), script)
    ensures CountedThroughout(p, Built(pins), script) <==> NoCountFault(p, Built(pins), script)
    ensures p.voting ==> (VotesExactThroughout(p, Built(pins), script) <==> NoVoterMoves(p, Built(pins), script))
  {
    hide Permitted, Built, ClockExactThroughout, PinsExactThroughout, CountedThroughout, VotesExactThroughout;
    hide NoClockFault, NoPinFault, NoCountFault, NoVoterMoves;
    BuiltHasNoVotes(pins);
    BuiltIsExact(pins);
    RunClock(p, Built(pins), script);
    RunPins(p, Built(pins), script);
    RunCounted(p, Built(pins), script);
    if p.voting {
      RunVotes(p, Built(pins), script);
    }
  }

  // ---- What one call undoes ----

  /**
    * A refused open gives back its reference and its vote; it keeps a pin count exactly if it is a first open
    * refused at the format.
    */
  lemma {:induction false} RefusedOpenIsUndone(p: Platform, b: Board, i: int, d: Direction, r: Replies)
    requires VoteSafe(p, b)
    ensures
      var (v, a) := OpenMi2s(p, b, i, d, r);
      a.ret < 0 ==>
      && v.votes == b.votes && v.voteDepth == b.voteDepth && |v.interfaces| == |b.interfaces|
      && (forall j :: 0 <= j < |b.interfaces| && j != i ==> v.interfaces[j] == b.interfaces[j])
      && (InRange(b, i) ==>
          var x, y := b.interfaces[i], v.interfaces[i];
          && y.refs == x.refs
          && var kept := VoteHad(p, b, i, d, r) && ReachesPins(x, r) && PinLeaks(x.wires, r);
          y.wires.pinCount == x.wires.pinCount + (if kept then 1 else 0))
  {
    hide OpenWires, IsFractional;
    RatesThatVote();
    if InRange(b, i) {
      var x := b.interfaces[i];
      WiresAfterOpen(x.wires, Config(x, d), x.refs == 0, r);
      StagesByReplies(x.wires, Config(x, d), x.refs == 0, r);
    }
  }

  /**
    * An open returns the code of the first call that refuses it: the vote where one is needed and not yet held,
    * then for the first stream the port, the clock and, where they are not yet counted, the pins, and last the
    * format; a positive code of the pins ends it too.
    */
  lemma OpenReturns(p: Platform, b: Board, i: int, d: Direction, r: Replies)
    requires InRange(b, i)
    ensures
      var x := b.interfaces[i];
      var voter := p.voting && i < VOTING_INTERFACES && CdRate(Config(x, d).rate);
      OpenMi2s(p, b, i, d, r).1.ret ==
        if voter && !p.voteNode then -EINVAL
        else if voter && b.votes == 0 && r.vote < 0 then r.vote
        else if x.refs == 0 && r.port < 0 then r.port
        else if x.refs == 0 && r.clockOn < 0 then r.clockOn
        else if x.refs == 0 && x.wires.hasPins && x.wires.pinCount == 0 && r.pin != 0 then r.pin
        else r.format
  {
    hide BitClock, IsFractional;
    RatesThatVote();
  }

  /**
    * Opening a stream and shutting it down again leaves the counters of the whole board, and the votes, as they
    * were.
    */
  lemma {:induction false} CloseUndoesOpen(p: Platform, b: Board, i: int, d: Direction, r: Replies, q: Replies)
    requires VoteSafe(p, b) && InRange(b, i) && OpenMi2s(p, b, i, d, r).1.stage == Opened
    ensures
      var v := OpenMi2s(p, b, i, d, r).0;
      var u := CloseMi2s(p, v, i, d, q);
      && u.votes == b.votes && u.voteDepth == b.voteDepth && |u.interfaces| == |b.interfaces|
      && (forall j :: 0 <= j < |b.interfaces| && j != i ==> u.interfaces[j] == b.interfaces[j])
      && u.interfaces[i].refs == b.interfaces[i].refs
      && u.interfaces[i].wires.pinCount == b.interfaces[i].wires.pinCount
  {
    hide OpenWires, IsFractional, BitClock;
    var x := b.interfaces[i];
    WiresAfterOpen(x.wires, Config(x, d), x.refs == 0, r);
  }

  // ---- The controls ----

  /**
    * Writing the rate and format controls moves nothing of the streams that are open; the next open of the interface in
    * that direction runs at exactly the clock they ask for, unless another stream already holds the clock.
    */
  lemma {:induction false} ControlsReachTheNextOpen(
      p: Platform, b: Board, i: int, d: Direction, rate: int, format: int, r: Replies)
    requires InRange(b, i)
    ensures
      var c := PutFormat(PutRate(b, i, d, rate), i, d, format);
      && c.votes == b.votes && c.voteDepth == b.voteDepth && |c.interfaces| == |b.interfaces|
      && (forall j :: 0 <= j < |b.interfaces| ==>
            c.interfaces[j].refs == b.interfaces[j].refs && c.interfaces[j].wires == b.interfaces[j].wires)
      && var (v, a) := OpenMi2s(p, c, i, d, r);
      (a.stage == Opened ==>
        && InRange(v, i)
        && v.interfaces[i].wires.clockHz ==
           if b.interfaces[i].refs == 0 then RateNamed(rate) * FrameBits(FormatNamed(format))
           else b.interfaces[i].wires.clockHz)
  {
    hide OpenWires, IsFractional, SampleRate, SampleFormat, BitClock;
    var c := PutFormat(PutRate(b, i, d, rate), i, d, format);
    var x := c.interfaces[i];
    assert Config(x, d) == StreamConfig(SampleRate(rate), SampleFormat(format));
    ControlsSetWhatTheyName(rate);
    ControlsSetWhatTheyName(format);
    WiresAfterOpen(x.wires, Config(x, d), x.refs == 0, r);
    BitClockIsExact(Config(x, d));
  }

  // ---- The faults happen ----

  const ALL_WELL := Replies(0, 0, 0, 0, 0, 0, 0)
  const NO_FORMAT := Replies(0, 0, 0, 0, -EINVAL, 0, 0)

  /** A capture open whose format is refused stops the clock of the playback stream on the same interface. */
  lemma {:induction false} ClockCanStop(p: Platform)
    ensures
      var b0 := Built([true, true, true, true]).board;
      var b1 := OpenMi2s(p, b0, 0, Playback, ALL_WELL).0;
      var b2 := OpenMi2s(p, b1, 0, Capture, NO_FORMAT).0;
      && InRange(b1, 0) && b1.interfaces[0].wires.clockOn
      && InRange(b2, 0) && b2.interfaces[0].refs == 1 && !b2.interfaces[0].wires.clockOn
  {
    hide SampleRate;
    assert Built([true, true, true, true]).board.interfaces[0] == Idle(true);
  }

  /** A first open whose format is refused leaves the pins active with nothing open. */
  lemma {:induction false} PinsCanLeak(p: Platform)
    ensures
      var b := OpenMi2s(p, Built([true, true, true, true]).board, 0, Playback, NO_FORMAT).0;
      && InRange(b, 0) && b.interfaces[0].refs == 0
      && b.interfaces[0].wires.pinCount == 1 && b.interfaces[0].wires.pinsActive
  {
    assert Built([true, true, true, true]).board.interfaces[0] == Idle(true);
  }

  /** Leaving the fractional rates while open keeps the vote clock enabled after the last stream has gone. */
  lemma {:induction false} VoteCanStick(p: Platform)
    requires p.voting && p.voteNode
    ensures
      var b0 := PutRate(Built([true, true, true, true]).board, 0, Playback, 5);
      var b1 := OpenMi2s(p, b0, 0, Playback, ALL_WELL).0;
      var b2 := PutRate(b1, 0, Playback, 6);
      && InRange(b2, 0) && b2.interfaces[0].refs == 1
      && var b3 := CloseMi2s(p, b2, 0, Playback, ALL_WELL);
      && InRange(b3, 0) && b3.interfaces[0].refs == 0 && b3.votes == 1 && b3.voteDepth == 1
  {
    assert Built([true, true, true, true]).board.interfaces[0] == Idle(true);
    BuiltHasNoVotes([true, true, true, true]);
  }

  /** Entering them while open takes away the vote of another stream, whose clock is then disabled under it. */
  lemma {:induction false} VoteCanBeLost(p: Platform)
    requires p.voting && p.voteNode
    ensures
      var b0 := PutRate(Built([true, true, true, true]).board, 0, Playback, 5);
      var b1 := OpenMi2s(p, OpenMi2s(p, b0, 0, Playback, ALL_WELL).0, 1, Playback, ALL_WELL).0;
      var b2 := PutRate(b1, 1, Playback, 5);
      && InRange(b2, 1) && b2.interfaces[1].refs == 1
      && var b3 := CloseMi2s(p, b2, 1, Playback, ALL_WELL);
      && InRange(b3, 0) && b3.interfaces[0].refs == 1 && CdRate(b3.interfaces[0].playback.rate)
      && b3.votes == 0 && b3.voteDepth == 0
  {
    assert Built([true, true, true, true]).board.interfaces[0] == Idle(true);
    assert Built([true, true, true, true]).board.interfaces[1] == Idle(true);
    BuiltHasNoVotes([true, true, true, true]);
  }

  const NO_SLEEP := Replies(0, 0, 0, 0, 0, 0, -EINVAL)
  const NO_DISABLE := Replies(0, 0, 0, 0, 0, -EINVAL, 0)

  /** A TDM stream opened and shut down, the pins refusing to sleep: they stay active with nothing counted. */
  lemma {:induction false} PinsCanStayActive()
    ensures
      var b := ClosePcm(OpenPcm(Built([true, true, true, true]).board, 0, ALL_WELL).0, 0, NO_SLEEP);
      InRange(b, 0) && b.interfaces[0].wires.pinCount == 0 && b.interfaces[0].wires.pinsActive
  {
    assert Built([true, true, true, true]).board.interfaces[0] == Idle(true);
  }

  /** An MI2S stream opened and shut down, the clock refusing to be disabled: it stays on with nothing open. */
  lemma {:induction false} ClockCanStayOn(p: Platform)
    ensures
      var b0 := OpenMi2s(p, Built([true, true, true, true]).board, 0, Playback, ALL_WELL).0;
      var b := CloseMi2s(p, b0, 0, Playback, NO_DISABLE);
      InRange(b, 0) && b.interfaces[0].refs == 0 && b.interfaces[0].wires.clockOn
  {
    hide SampleRate;
    assert Built([true, true, true, true]).board.interfaces[0] == Idle(true);
  }
}
