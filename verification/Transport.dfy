/** `transport/service.go`: the relay words cached per board address, and the frames that reach the bus. */
module Transport {
  import opened Core
  import opened Bits
  import opened Frames

  datatype Mapping = Mapping(address: Byte, cardIndex: Byte, port: int)

  type Repository = map<string, Mapping>

  datatype Intent = Intent(roomId: string, target: SemanticState)

  /** What becomes of one write: on the wire, not on the wire, or on the wire although the call
      reports an error (the context ends during the delay that follows the write). */
  datatype Write = Sent | Lost | SentLate {
    predicate OnWire() {
      !Lost?
    }
  }

  datatype Attempt = Attempt(intent: Intent, slave: Write, display: Write)

  datatype Link = Link(cache: map<Byte, bv16>, sent: seq<Frame>)

  const IDLE := Link(map[], [])

  function Word(link: Link, address: Byte): bv16 {
    if address in link.cache then link.cache[address] else 0
  }

  /** The status and display mode of an intent that gets as far as the cache; None is an earlier error. */
  function Accept(repo: Repository, intent: Intent): Option<(Mapping, int, Byte)> {
    if intent.roomId !in repo then None
    else
      var m := repo[intent.roomId];
      match SemanticToLegacy(intent.target)
      case None => None
      case Some((status, mode)) =>
        if Patch(0, m.port, status).None? then None else Some((m, status, mode))
  }

  /** Caching the word and writing the two frames, the second only when the first write succeeds;
      the boolean is the absence of an error. */
  function Send(link: Link, address: Byte, word: bv16, slaveFrame: Frame, displayFrame: Frame, slave: Write,
                display: Write): (Link, bool) {
    var cache := link.cache[address := word];
    var first := if slave.OnWire() then link.sent + [slaveFrame] else link.sent;
    if !slave.Sent? then (Link(cache, first), false)
    else (Link(cache, if display.OnWire() then first + [displayFrame] else first), display.Sent?)
  }

  function NextWord(link: Link, m: Mapping, status: int): bv16 {
    Patch(Word(link, m.address), m.port, status).GetOr(0)
  }

  /** ApplyIntent, as a function of the link. */
  function Apply(repo: Repository, link: Link, a: Attempt): (Link, bool) {
    match Accept(repo, a.intent)
    case None => (link, false)
    case Some((m, status, mode)) =>
      var word := NextWord(link, m, status);
      Send(link, m.address, word, SlaveFrame(m.address, word), DisplayFrame(m.cardIndex, m.port, mode), a.slave,
        a.display)
  }

  class Service {
    const repo: Repository
    var cache: map<Byte, bv16>
    var sent: seq<Frame>

    ghost function State(): Link
      reads this
    {
      Link(cache, sent)
    }

    constructor (repo: Repository)
      ensures this.repo == repo && State() == IDLE
    {
      this.repo := repo;
      cache, sent := map[], [];
    }

    method WriteFrame(frame: Frame, outcome: Write) returns (ok: bool)
      modifies this`sent
      ensures ok == outcome.Sent?
      ensures sent == if outcome.OnWire() then old(sent) + [frame] else old(sent)
    {
      if outcome.Lost? { return false; }
      sent := sent + [frame];
      return outcome.Sent?;
    }

    method WriteFrames(address: Byte, word: bv16, slaveFrame: Frame, displayFrame: Frame, slave: Write, display: Write)
      returns (ok: bool)
      modifies this
      ensures (State(), ok) == Send(old(State()), address, word, slaveFrame, displayFrame, slave, display)
    {
      cache := cache[address := word];
      ok := WriteFrame(slaveFrame, slave);
      if !ok { return; }
      ok := WriteFrame(displayFrame, display);
    }

    method PatchedWord(m: Mapping, status: int) returns (word: Option<bv16>)
      ensures word == Patch(Word(State(), m.address), m.port, status)
    {
      var payload := new SlavePayload(if m.address in cache then cache[m.address] else 0);
      var ok := payload.SetPortStatus(m.port, status);
      word := if ok then Some(payload.bitmask) else None;
    }

    method ApplyIntent(a: Attempt) returns (ok: bool)
      modifies this
      ensures (State(), ok) == Apply(repo, old(State()), a)
    {
      if a.intent.roomId !in repo { return false; }
      var m := repo[a.intent.roomId];
      var legacy := SemanticToLegacy(a.intent.target);
      if legacy.None? { return false; }
      var (status, mode) := legacy.value;
      var word := PatchedWord(m, status);
      SameRefusal(Word(State(), m.address), m.port, status);
      if word.None? { return false; }
      var slaveFrame := BuildSlaveFrame(m.address, word.value);
      ok := WriteFrames(m.address, word.value, slaveFrame, DisplayFrame(m.cardIndex, m.port, mode), a.slave, a.display);
    }
  }

  lemma SameRefusal(word: bv16, port: int, status: int)
    ensures Patch(word, port, status).None? == Patch(0, port, status).None?
  {
    PatchBits(word, port, status, 0);
    PatchBits(0, port, status, 0);
  }

  // ----- whole runs -----

  function Run(repo: Repository, history: seq<Attempt>): Link {
    if history == [] then IDLE
    else
      Apply(repo, Run(repo, history[..|history| - 1]), history[|history| - 1]).0
  }

  /** The relay an accepted intent asks for at (address, port). */
  function Asks(repo: Repository, intent: Intent, address: Byte, port: int): Option<bool> {
    match Accept(repo, intent)
    case None => None
    case Some((m, status, _)) =>
      if m.address == address && m.port == port then Some(intent.target != Vacant) else None
  }

  /** What the operators have asked of (address, port): the latest accepted intent decides, whatever
      became of its write; a relay nobody asked for is off. */
  function Wanted(repo: Repository, history: seq<Attempt>, address: Byte, port: int): bool {
    if history == [] then false
    else
      var last := history[|history| - 1];
      Asks(repo, last.intent, address, port).GetOr(Wanted(repo, history[..|history| - 1], address, port))
  }

  /** The word a board at `address` holds after hearing the frames; relays are off at power-on. */
  function Board(sent: seq<Frame>, address: Byte): bv16 {
    if sent == [] then 0
    else Latch(sent[|sent| - 1], address).GetOr(Board(sent[..|sent| - 1], address))
  }

  predicate Reaches(repo: Repository, a: Attempt, address: Byte) {
    var accepted := Accept(repo, a.intent);
    accepted.Some? && accepted.value.0.address == address && a.slave.OnWire()
  }

  /** Length of the history up to and including the last slave write that got onto the wire for `address`. */
  function LastHeard(repo: Repository, history: seq<Attempt>, address: Byte): (n: nat)
    ensures n <= |history|
  {
    if history == [] then 0
    else if Reaches(repo, history[|history| - 1], address) then |history|
    else LastHeard(repo, history[..|history| - 1], address)
  }

  lemma AcceptedWord(repo: Repository, link: Link, intent: Intent, q: int)
    requires Accept(repo, intent).Some? && 0 <= q < 16
    ensures var (m, status, _) := Accept(repo, intent).value;
      Bit(NextWord(link, m, status), q) ==
        if q == m.port then intent.target != Vacant else Bit(Word(link, m.address), q)
  {
    var (m, status, _) := Accept(repo, intent).value;
    PatchBits(0, m.port, status, q);
    PatchBits(Word(link, m.address), m.port, status, q);
  }

  lemma ApplyWord(repo: Repository, link: Link, a: Attempt, address: Byte)
    ensures Word(Apply(repo, link, a).0, address) ==
      match Accept(repo, a.intent)
      case None => Word(link, address)
      case Some((m, status, mode)) => if address == m.address then NextWord(link, m, status) else Word(link, address)
  {
  }

  lemma ApplyBit(repo: Repository, link: Link, a: Attempt, address: Byte, port: int)
    requires 0 <= port < 16
    ensures Bit(Word(Apply(repo, link, a).0, address), port)
         == Asks(repo, a.intent, address, port).GetOr(Bit(Word(link, address), port))
  {
    ApplyWord(repo, link, a, address);
    if Accept(repo, a.intent).Some? {
      AcceptedWord(repo, link, a.intent, port);
    }
  }

  lemma EmptyWord(port: int)
    requires 0 <= port < 16
    ensures !Bit(0, port)
  {
  }

  /** The cache is the fold of all accepted intents, failed writes included. */
  lemma {:induction false} CacheIsFold(repo: Repository, history: seq<Attempt>, address: Byte, port: int)
    requires 0 <= port < 16
    ensures Bit(Word(Run(repo, history), address), port) == Wanted(repo, history, address, port)
  {
    if history == [] {
      EmptyWord(port);
    } else {
      var n := |history| - 1;
      CacheIsFold(repo, history[..n], address, port);
      ApplyBit(repo, Run(repo, history[..n]), history[n], address, port);
    }
  }

  lemma BoardHears(sent: seq<Frame>, frame: Frame, address: Byte)
    ensures Board(sent + [frame], address) == Latch(frame, address).GetOr(Board(sent, address))
  {
    assert (sent + [frame])[..|sent|] == sent;
  }

  lemma SendBoard(link: Link, to: Byte, word: bv16, slaveFrame: Frame, displayFrame: Frame, slave: Write,
                  display: Write, address: Byte)
    requires Latch(slaveFrame, address) == if address == to then Some(word) else None
    requires Latch(displayFrame, address) == None
    ensures Board(Send(link, to, word, slaveFrame, displayFrame, slave, display).0.sent, address)
         == if address == to && slave.OnWire() then word else Board(link.sent, address)
  {
    BoardHears(link.sent, slaveFrame, address);
    BoardHears(link.sent + [slaveFrame], displayFrame, address);
  }

  lemma ApplyBoard(repo: Repository, link: Link, a: Attempt, address: Byte)
    ensures var after := Apply(repo, link, a).0;
      Board(after.sent, address) ==
        if Reaches(repo, a, address) then Word(after, address) else Board(link.sent, address)
  {
    match Accept(repo, a.intent)
    case None =>
    case Some((m, status, mode)) =>
      var word := NextWord(link, m, status);
      ApplyWord(repo, link, a, address);
      SlaveFrameRoundTrip(m.address, word, address);
      DisplayFrameIsIgnored(m.cardIndex, m.port, mode, address);
      SendBoard(link, m.address, word, SlaveFrame(m.address, word), DisplayFrame(m.cardIndex, m.port, mode), a.slave,
        a.display, address);
  }

  lemma {:induction false} BoardIsLastWord(repo: Repository, history: seq<Attempt>, address: Byte)
    ensures Board(Run(repo, history).sent, address) ==
      Word(Run(repo, history[..LastHeard(repo, history, address)]), address)
  {
    if history != [] {
      var n := |history| - 1;
      ApplyBoard(repo, Run(repo, history[..n]), history[n], address);
      if Reaches(repo, history[n], address) {
        assert history[..|history|] == history;
      } else {
        BoardIsLastWord(repo, history[..n], address);
        var k := LastHeard(repo, history[..n], address);
        assert history[..n][..k] == history[..k];
      }
    }
  }

  /** Every board holds exactly what had been asked of its ports when it was last written to,
      for every run of intents and every pattern of failures. */
  lemma BoardReplaysIntents(repo: Repository, history: seq<Attempt>, address: Byte, port: int)
    requires 0 <= port < 16
    ensures Bit(Board(Run(repo, history).sent, address), port)
         == Wanted(repo, history[..LastHeard(repo, history, address)], address, port)
  {
    BoardIsLastWord(repo, history, address);
    CacheIsFold(repo, history[..LastHeard(repo, history, address)], address, port);
  }

  /** In particular a successful write repairs whatever earlier failures lost. */
  lemma SuccessfulWriteCatchesUp(repo: Repository, history: seq<Attempt>, address: Byte, port: int)
    requires 0 <= port < 16
    requires history != [] && Reaches(repo, history[|history| - 1], address)
    ensures Bit(Board(Run(repo, history).sent, address), port) == Wanted(repo, history, address, port)
  {
    BoardReplaysIntents(repo, history, address, port);
    assert history[..|history|] == history;
  }

  // ----- the display -----

  /** The mode the display shows at a card and port after hearing the frames, if it has been told any. */
  function Lamp(sent: seq<Frame>, card: int, port: int): Option<Byte> {
    if sent == [] then None
    else
      var last := Shown(sent[|sent| - 1], card, port);
      if last.Some? then last else Lamp(sent[..|sent| - 1], card, port)
  }

  /** The attempt tells the display something about this card and port: its room is wired there, its state is one the
      bus knows, the slave write succeeded and the display frame got onto the wire. */
  predicate Tells(repo: Repository, a: Attempt, card: int, port: int) {
    && a.intent.roomId in repo && !a.intent.target.Other? && a.slave.Sent? && a.display.OnWire()
    && var m := repo[a.intent.roomId]; 0 <= m.port < 16 && m.port == port && m.cardIndex % 16 == card
  }

  /** Mode 0 when the latest intent the display was told wanted the room vacant, mode 3 otherwise. */
  function LampWanted(repo: Repository, history: seq<Attempt>, card: int, port: int): Option<Byte> {
    if history == [] then None
    else
      var last := history[|history| - 1];
      if Tells(repo, last, card, port) then Some(if last.intent.target == Vacant then 0 else 3)
      else LampWanted(repo, history[..|history| - 1], card, port)
  }

  lemma AcceptExactlyWhen(repo: Repository, intent: Intent)
    ensures Accept(repo, intent).Some? <==>
      intent.roomId in repo && !intent.target.Other? && 0 <= repo[intent.roomId].port < 16
    ensures Accept(repo, intent).Some? ==>
      Accept(repo, intent).value.0 == repo[intent.roomId] &&
      Accept(repo, intent).value.2 == (if intent.target == Vacant then 0 else 3)
  {
    LegacyExactlyWhen(intent.target);
    if intent.roomId in repo && !intent.target.Other? {
      PatchBits(0, repo[intent.roomId].port, SemanticToLegacy(intent.target).value.0, 0);
    }
  }

  lemma LampHears(sent: seq<Frame>, frame: Frame, card: int, port: int)
    ensures Lamp(sent + [frame], card, port) ==
      if Shown(frame, card, port).Some? then Shown(frame, card, port) else Lamp(sent, card, port)
  {
    assert (sent + [frame])[..|sent|] == sent;
  }

  lemma SendLamp(link: Link, to: Byte, word: bv16, slaveFrame: Frame, displayFrame: Frame, slave: Write,
                 display: Write, card: int, port: int)
    requires Shown(slaveFrame, card, port) == None
    ensures Lamp(Send(link, to, word, slaveFrame, displayFrame, slave, display).0.sent, card, port) ==
      if slave.Sent? && display.OnWire() && Shown(displayFrame, card, port).Some?
      then Shown(displayFrame, card, port)
      else Lamp(link.sent, card, port)
  {
    LampHears(link.sent, slaveFrame, card, port);
    LampHears(link.sent + [slaveFrame], displayFrame, card, port);
  }

  lemma ApplyLamp(repo: Repository, link: Link, a: Attempt, card: int, port: int)
    ensures Lamp(Apply(repo, link, a).0.sent, card, port) ==
      if Tells(repo, a, card, port) then Some(if a.intent.target == Vacant then 0 else 3)
      else Lamp(link.sent, card, port)
  {
    AcceptExactlyWhen(repo, a.intent);
    match Accept(repo, a.intent)
    case None =>
    case Some((m, status, mode)) =>
      var word := NextWord(link, m, status);
      SlaveFrameShowsNothing(m.address, word, card, port);
      DisplayFrameShows(m.cardIndex, m.port, mode, card, port);
      SendLamp(link, m.address, word, SlaveFrame(m.address, word), DisplayFrame(m.cardIndex, m.port, mode), a.slave,
        a.display, card, port);
  }

  /** For every run of intents and every pattern of failures, the display shows at each card and port the mode of the
      latest intent it was told of it. */
  lemma {:induction false} LampShowsIntents(repo: Repository, history: seq<Attempt>, card: int, port: int)
    ensures Lamp(Run(repo, history).sent, card, port) == LampWanted(repo, history, card, port)
  {
    if history != [] {
      var n := |history| - 1;
      LampShowsIntents(repo, history[..n], card, port);
      ApplyLamp(repo, Run(repo, history[..n]), history[n], card, port);
    }
  }

  /** The room is wired to a card below 16 and a port of the bus, and no other room answers there. */
  predicate OwnsLamp(repo: Repository, roomId: string) {
    && roomId in repo && repo[roomId].cardIndex < 16 && 0 <= repo[roomId].port < 16
    && forall other :: other in repo && other != roomId ==>
       repo[other].port != repo[roomId].port || repo[other].cardIndex % 16 != repo[roomId].cardIndex
  }

  /** The state the room was last wanted in by an intent the display was told of. */
  function LastTold(history: seq<Attempt>, roomId: string): Option<SemanticState> {
    if history == [] then None
    else
      var a := history[|history| - 1];
      if a.intent.roomId == roomId && !a.intent.target.Other? && a.slave.Sent? && a.display.OnWire()
      then Some(a.intent.target)
      else LastTold(history[..|history| - 1], roomId)
  }

  lemma TellsOwner(repo: Repository, a: Attempt, roomId: string)
    requires OwnsLamp(repo, roomId)
    ensures Tells(repo, a, repo[roomId].cardIndex, repo[roomId].port) <==>
      a.intent.roomId == roomId && !a.intent.target.Other? && a.slave.Sent? && a.display.OnWire()
  {
  }

  lemma {:induction false} WantedIsTold(repo: Repository, history: seq<Attempt>, roomId: string)
    requires OwnsLamp(repo, roomId)
    ensures LampWanted(repo, history, repo[roomId].cardIndex, repo[roomId].port) ==
      match LastTold(history, roomId)
      case None => None
      case Some(target) => Some(if target == Vacant then 0 else 3)
  {
    if history != [] {
      var n := |history| - 1;
      TellsOwner(repo, history[n], roomId);
      WantedIsTold(repo, history[..n], roomId);
    }
  }

  /** The lamp of a room with one of its own is dark exactly when the room was last told vacant, and lit when it was
      last told anything else. */
  lemma LampOfRoom(repo: Repository, history: seq<Attempt>, roomId: string)
    requires OwnsLamp(repo, roomId)
    ensures Lamp(Run(repo, history).sent, repo[roomId].cardIndex, repo[roomId].port) ==
      match LastTold(history, roomId)
      case None => None
      case Some(target) => Some(if target == Vacant then 0 else 3)
  {
    LampShowsIntents(repo, history, repo[roomId].cardIndex, repo[roomId].port);
    WantedIsTold(repo, history, roomId);
  }
}
