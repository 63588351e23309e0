/** The event stream as text: what `writeSSE` and the heartbeat print, and what the client's line-based parser
    makes of it (`httpapi/events.go`, `services/sse_client.dart`). */
module Sse {
  /** An event by its name and the text of its payload. */
  datatype Message = Message(name: string, data: string)

  datatype Item = Event(message: Message) | KeepAlive

  // ----- printing -----

  /** The lines writeSSE and the heartbeat write. */
  function PrintedLines(item: Item): seq<string> {
    match item
    case Event(m) => ["event: " + m.name, "data: " + m.data, ""]
    case KeepAlive => [": keep-alive", ""]
  }

  /** Each line with its line feed. */
  function Terminated(lines: seq<string>): string {
    if lines == [] then "" else lines[0] + "\n" + Terminated(lines[1..])
  }

  function Print(item: Item): string {
    Terminated(PrintedLines(item))
  }

  function PrintAll(items: seq<Item>): string {
    if items == [] then "" else Print(items[0]) + PrintAll(items[1..])
  }

  // ----- parsing -----

  predicate IsBreak(c: char) {
    c == '\n' || c == '\r'
  }

  /** Position of the first line break. */
  function BreakFrom(text: string, i: nat): (n: nat)
    requires i <= |text|
    ensures i <= n <= |text|
    ensures n < |text| ==> IsBreak(text[n])
    ensures forall k :: i <= k < n ==> !IsBreak(text[k])
    decreases |text| - i
  {
    if i == |text| || IsBreak(text[i]) then i else BreakFrom(text, i + 1)
  }

  /** LineSplitter: LF, CR and CRLF end a line; a last line needs no end. */
  function Lines(text: string): seq<string>
    decreases |text|
  {
    if text == "" then []
    else
      var n := BreakFrom(text, 0);
      if n == |text| then [text]
      else if text[n] == '\r' && n + 1 < |text| && text[n + 1] == '\n' then [text[..n]] + Lines(text[n + 2..])
      else [text[..n]] + Lines(text[n + 1..])
  }

  /** White space, as Dart's `trim` takes it. */
  predicate IsSpace(c: char) {
    '\t' <= c <= '\r' || c == ' ' || c == '\U{0085}' || c == '\U{00A0}' || c == '\U{1680}' ||
    '\U{2000}' <= c <= '\U{200A}' ||
    c == '\U{2028}' || c == '\U{2029}' || c == '\U{202F}' || c == '\U{205F}' || c == '\U{3000}' || c == '\U{FEFF}'
  }

  function TrimLeft(s: string): string {
    if s != "" && IsSpace(s[0]) then TrimLeft(s[1..]) else s
  }

  function TrimRight(s: string): string {
    if s != "" && IsSpace(s[|s| - 1]) then TrimRight(s[..|s| - 1]) else s
  }

  function Trim(s: string): string {
    TrimRight(TrimLeft(s))
  }

  const EVENT_FIELD := "event:"
  const DATA_FIELD := "data:"

  /** `failed` is an exception of jsonDecode, which ends the stream. */
  datatype Parser = Parser(currentEvent: string, yielded: seq<Message>, failed: bool)

  const IDLE := Parser("message", [], false)

  /** Whether jsonDecode makes a JSON object of a text. */
  type Decoder = string -> bool

  function Feed(decodes: Decoder, p: Parser, line: string): Parser {
    if p.failed then p
    else if EVENT_FIELD <= line then p.(currentEvent := Trim(line[6..]))
    else if DATA_FIELD <= line then
      var data := Trim(line[5..]);
      if data == "" then p
      else if !decodes(data) then p.(failed := true)
      else p.(yielded := p.yielded + [Message(p.currentEvent, data)])
    else p
  }

  function FeedAll(decodes: Decoder, p: Parser, lines: seq<string>): Parser {
    if lines == [] then p else Feed(decodes, FeedAll(decodes, p, lines[..|lines| - 1]), lines[|lines| - 1])
  }

  function Parse(decodes: Decoder, text: string): Parser {
    FeedAll(decodes, IDLE, Lines(text))
  }

  lemma {:induction false} FailedForGood(decodes: Decoder, p: Parser, lines: seq<string>)
    requires p.failed
    ensures FeedAll(decodes, p, lines) == p
  {
    if lines != [] {
      FailedForGood(decodes, p, lines[..|lines| - 1]);
    }
  }

  /** The client's loop, left by an exception when a payload does not decode. */
  method Connect(decodes: Decoder, lines: seq<string>) returns (yielded: seq<Message>, failed: bool)
    ensures yielded == FeedAll(decodes, IDLE, lines).yielded && failed == FeedAll(decodes, IDLE, lines).failed
  {
    var currentEvent := "message";
    yielded, failed := [], false;
    for i := 0 to |lines|
      invariant Parser(currentEvent, yielded, false) == FeedAll(decodes, IDLE, lines[..i]) && !failed
    {
      assert lines[..i + 1][..i] == lines[..i];
      var line := lines[i];
      if EVENT_FIELD <= line {
        currentEvent := Trim(line[6..]);
      } else if DATA_FIELD <= line {
        var data := Trim(line[5..]);
        if data == "" { continue; }
        if !decodes(data) {
          assert lines == lines[..i + 1] + lines[i + 1..];
          FeedConcat(decodes, IDLE, lines[..i + 1], lines[i + 1..]);
          FailedForGood(decodes, Parser(currentEvent, yielded, true), lines[i + 1..]);
          return yielded, true;
        }
        yielded := yielded + [Message(currentEvent, data)];
      }
    }
    assert lines[..|lines|] == lines;
  }

  // ----- which messages survive -----

  /** The stream has yielded these and not failed. */
  predicate Succeeds(p: Parser, messages: seq<Message>) {
    !p.failed && p.yielded == messages
  }

  predicate OneLine(s: string) {
    forall c :: c in s ==> !IsBreak(c)
  }

  predicate Tidy(s: string) {
    OneLine(s) && Trim(s) == s
  }

  /** One line, no white space around it, and some data that decodes: every JSON object the server marshals, under a
      name without white space, is one. */
  predicate Carried(decodes: Decoder, m: Message) {
    Tidy(m.name) && Tidy(m.data) && m.data != "" && decodes(m.data)
  }

  function Messages(items: seq<Item>): seq<Message> {
    if items == [] then []
    else (match items[0] case Event(m) => [m] case KeepAlive => []) + Messages(items[1..])
  }

  lemma {:induction false} BreakAfter(line: string, rest: string, i: nat)
    requires OneLine(line) && i <= |line|
    ensures BreakFrom(line + "\n" + rest, i) == |line|
    decreases |line| - i
  {
    var text := line + "\n" + rest;
    if i < |line| {
      assert text[i] == line[i] && line[i] in line;
      BreakAfter(line, rest, i + 1);
    } else {
      assert text[i] == '\n';
    }
  }

  lemma LinesOfLine(line: string, rest: string)
    requires OneLine(line)
    ensures Lines(line + "\n" + rest) == [line] + Lines(rest)
  {
    var text := line + "\n" + rest;
    BreakAfter(line, rest, 0);
    assert text[..|line|] == line && text[|line| + 1..] == rest && text[|line|] == '\n';
  }

  /** A line ends at a line feed, at a carriage return, or at the two together. */
  lemma LinesOfEnded(line: string, end: string, rest: string)
    requires OneLine(line) && end in {"\n", "\r", "\r\n"}
    requires end == "\r" ==> rest == "" || rest[0] != '\n'
    ensures Lines(line + end + rest) == [line] + Lines(rest)
  {
    var text := line + end + rest;
    BreakAt(line, end + rest, 0);
    assert line + (end + rest) == text;
    assert text[..|line|] == line && text[|line|] == end[0] && text[|line| + |end|..] == rest;
    assert |end| == 1 && rest != "" ==> text[|line| + 1] == rest[0];
  }

  lemma {:induction false} BreakAt(line: string, rest: string, i: nat)
    requires OneLine(line) && i <= |line| && rest != "" && IsBreak(rest[0])
    ensures BreakFrom(line + rest, i) == |line|
    decreases |line| - i
  {
    var text := line + rest;
    if i < |line| {
      assert text[i] == line[i] && line[i] in line;
      BreakAt(line, rest, i + 1);
    } else {
      assert text[i] == rest[0];
    }
  }

  lemma OneLineConcat(a: string, b: string)
    requires OneLine(a) && OneLine(b)
    ensures OneLine(a + b)
  {
  }

  lemma Regroup(line: string, more: string, rest: string)
    ensures (line + "\n" + more) + rest == line + "\n" + (more + rest)
  {
  }

  lemma LinesOfFirst(line: string, more: string, rest: string)
    requires OneLine(line)
    ensures Lines((line + "\n" + more) + rest) == [line] + Lines(more + rest)
  {
    Regroup(line, more, rest);
    LinesOfLine(line, more + rest);
  }

  lemma Reassociate(first: string, rest: seq<string>, more: seq<string>)
    ensures [first] + (rest + more) == ([first] + rest) + more
  {
  }

  lemma {:induction false} LinesOfTerminated(lines: seq<string>, rest: string)
    requires forall line :: line in lines ==> OneLine(line)
    ensures Lines(Terminated(lines) + rest) == lines + Lines(rest)
    decreases lines
  {
    if lines == [] {
      assert Terminated(lines) + rest == rest;
    } else {
      assert lines[0] in lines;
      LinesOfFirst(lines[0], Terminated(lines[1..]), rest);
      LinesOfTerminated(lines[1..], rest);
      Reassociate(lines[0], lines[1..], Lines(rest));
      assert lines == [lines[0]] + lines[1..];
    }
  }

  lemma PrintedAreLines(decodes: Decoder, item: Item)
    requires item.Event? ==> Carried(decodes, item.message)
    ensures forall line :: line in PrintedLines(item) ==> OneLine(line)
  {
    match item
    case Event(m) =>
      OneLineConcat("event: ", m.name);
      OneLineConcat("data: ", m.data);
    case KeepAlive =>
  }

  lemma FeedOne(decodes: Decoder, p: Parser, line: string)
    ensures FeedAll(decodes, p, [line]) == Feed(decodes, p, line)
  {
    assert [line][..0] == [];
  }

  lemma {:induction false} FeedConcat(decodes: Decoder, p: Parser, a: seq<string>, b: seq<string>)
    ensures FeedAll(decodes, p, a + b) == FeedAll(decodes, FeedAll(decodes, p, a), b)
  {
    if b == [] {
      assert a + b == a;
    } else {
      var n := |b| - 1;
      FeedConcat(decodes, p, a, b[..n]);
      assert (a + b)[..|a + b| - 1] == a + b[..n];
    }
  }

  lemma TrimSpaced(s: string)
    ensures Trim(" " + s) == Trim(s)
  {
    assert (" " + s)[1..] == s;
  }

  lemma FieldLines(name: string, data: string)
    ensures EVENT_FIELD <= "event: " + name && ("event: " + name)[6..] == " " + name
    ensures DATA_FIELD <= "data: " + data && !(EVENT_FIELD <= "data: " + data) && ("data: " + data)[5..] == " " + data
  {
    assert ("data: " + data)[0] == 'd';
  }

  lemma FeedEvent(decodes: Decoder, p: Parser, m: Message)
    requires Carried(decodes, m) && !p.failed
    ensures FeedAll(decodes, p, PrintedLines(Event(m))) == Parser(m.name, p.yielded + [m], false)
  {
    var a, b := "event: " + m.name, "data: " + m.data;
    FieldLines(m.name, m.data);
    TrimSpaced(m.name);
    TrimSpaced(m.data);
    assert PrintedLines(Event(m)) == [a] + ([b] + [""]);
    FeedConcat(decodes, p, [a], [b] + [""]);
    FeedConcat(decodes, FeedAll(decodes, p, [a]), [b], [""]);
    FeedOne(decodes, p, a);
    FeedOne(decodes, Feed(decodes, p, a), b);
    FeedOne(decodes, Feed(decodes, Feed(decodes, p, a), b), "");
  }

  lemma FeedKeepAlive(decodes: Decoder, p: Parser)
    ensures FeedAll(decodes, p, PrintedLines(KeepAlive)) == p
  {
    assert PrintedLines(KeepAlive) == [": keep-alive"] + [""];
    FeedConcat(decodes, p, [": keep-alive"], [""]);
    assert ": keep-alive"[0] == ':';
    FeedOne(decodes, p, ": keep-alive");
    FeedOne(decodes, p, "");
  }

  lemma FeedItem(decodes: Decoder, p: Parser, item: Item)
    requires (item.Event? ==> Carried(decodes, item.message)) && !p.failed
    ensures Succeeds(FeedAll(decodes, p, PrintedLines(item)), p.yielded + Messages([item]))
  {
    match item
    case Event(m) => FeedEvent(decodes, p, m);
    case KeepAlive => FeedKeepAlive(decodes, p);
  }

  lemma MessagesFirst(items: seq<Item>)
    requires items != []
    ensures Messages(items) == Messages([items[0]]) + Messages(items[1..])
  {
    assert [items[0]][1..] == [];
  }

  lemma FeedFirst(decodes: Decoder, p: Parser, items: seq<Item>) returns (q: Parser)
    requires items != [] && (items[0].Event? ==> Carried(decodes, items[0].message)) && !p.failed
    ensures !q.failed && q.yielded == p.yielded + Messages([items[0]])
    ensures FeedAll(decodes, p, Lines(PrintAll(items))) == FeedAll(decodes, q, Lines(PrintAll(items[1..])))
  {
    var rest := PrintAll(items[1..]);
    q := FeedAll(decodes, p, PrintedLines(items[0]));
    PrintedAreLines(decodes, items[0]);
    LinesOfTerminated(PrintedLines(items[0]), rest);
    FeedConcat(decodes, p, PrintedLines(items[0]), Lines(rest));
    FeedItem(decodes, p, items[0]);
  }

  predicate AllCarried(decodes: Decoder, messages: seq<Message>) {
    forall m :: m in messages ==> Carried(decodes, m)
  }

  lemma CarriedParts(decodes: Decoder, items: seq<Item>)
    requires items != [] && AllCarried(decodes, Messages(items))
    ensures items[0].Event? ==> Carried(decodes, items[0].message)
    ensures AllCarried(decodes, Messages(items[1..]))
  {
    MessagesFirst(items);
    var first, rest := Messages([items[0]]), Messages(items[1..]);
    assert forall m :: m in first || m in rest ==> m in first + rest;
    assert items[0].Event? ==> items[0].message in first;
  }

  lemma FeedNothing(decodes: Decoder, p: Parser)
    ensures FeedAll(decodes, p, Lines(PrintAll([]))) == p && Messages([]) == []
  {
  }

  lemma Collect(a: seq<Message>, b: seq<Message>, c: seq<Message>)
    ensures (a + b) + c == a + (b + c)
  {
  }

  lemma {:induction false} FeedPrinted(decodes: Decoder, p: Parser, items: seq<Item>)
    requires AllCarried(decodes, Messages(items)) && !p.failed
    ensures Succeeds(FeedAll(decodes, p, Lines(PrintAll(items))), p.yielded + Messages(items))
    decreases items
  {
    if items == [] {
      FeedNothing(decodes, p);
      assert p.yielded + [] == p.yielded;
    } else {
      CarriedParts(decodes, items);
      MessagesFirst(items);
      var q := FeedFirst(decodes, p, items);
      FeedPrinted(decodes, q, items[1..]);
      Collect(p.yielded, Messages([items[0]]), Messages(items[1..]));
    }
  }

  // ----- what can never come out of the parser -----

  lemma {:induction false} TrimLeftKeeps(s: string)
    requires OneLine(s)
    ensures OneLine(TrimLeft(s)) && (TrimLeft(s) == "" || !IsSpace(TrimLeft(s)[0]))
  {
    if s != "" && IsSpace(s[0]) {
      TrimLeftKeeps(s[1..]);
    }
  }

  lemma {:induction false} TrimRightKeeps(s: string)
    requires OneLine(s)
    ensures OneLine(TrimRight(s)) && (TrimRight(s) == "" || !IsSpace(TrimRight(s)[|TrimRight(s)| - 1]))
    ensures TrimRight(s) == "" || TrimRight(s)[0] == s[0]
  {
    if s != "" && IsSpace(s[|s| - 1]) {
      TrimRightKeeps(s[..|s| - 1]);
    }
  }

  lemma TrimIsTidy(s: string)
    requires OneLine(s)
    ensures Tidy(Trim(s))
  {
    TrimLeftKeeps(s);
    TrimRightKeeps(TrimLeft(s));
  }

  lemma {:induction false} LinesAreLines(text: string)
    ensures forall line :: line in Lines(text) ==> OneLine(line)
    decreases |text|
  {
    if text != "" {
      var n := BreakFrom(text, 0);
      assert OneLine(text[..n]);
      if n == |text| {
        assert text[..n] == text;
      } else if text[n] == '\r' && n + 1 < |text| && text[n + 1] == '\n' {
        LinesAreLines(text[n + 2..]);
      } else {
        LinesAreLines(text[n + 1..]);
      }
    }
  }

  lemma {:induction false} YieldedAreCarried(decodes: Decoder, p: Parser, lines: seq<string>)
    requires Tidy(p.currentEvent) && forall m :: m in p.yielded ==> Carried(decodes, m)
    requires forall line :: line in lines ==> OneLine(line)
    ensures Tidy(FeedAll(decodes, p, lines).currentEvent) && forall m :: m in FeedAll(decodes, p, lines).yielded ==>
      Carried(decodes, m)
  {
    if lines != [] {
      var n := |lines| - 1;
      YieldedAreCarried(decodes, p, lines[..n]);
      assert lines[n] in lines;
      if EVENT_FIELD <= lines[n] {
        TrimIsTidy(lines[n][6..]);
      } else if DATA_FIELD <= lines[n] {
        TrimIsTidy(lines[n][5..]);
      }
    }
  }

  lemma MessageIsTidy()
    ensures Tidy(IDLE.currentEvent)
  {
    assert IDLE.currentEvent[0] == 'm' && IDLE.currentEvent[6] == 'e';
  }

  /** For any events, with keep-alive comments anywhere between them, the client gets exactly the printed messages
      in order, without an exception, if and only if every one of them can be carried. */
  lemma RoundTrip(decodes: Decoder, items: seq<Item>)
    ensures Succeeds(Parse(decodes, PrintAll(items)), Messages(items)) <==> AllCarried(decodes, Messages(items))
  {
    if AllCarried(decodes, Messages(items)) {
      FeedPrinted(decodes, IDLE, items);
    } else {
      MessageIsTidy();
      LinesAreLines(PrintAll(items));
      YieldedAreCarried(decodes, IDLE, Lines(PrintAll(items)));
    }
  }
}
