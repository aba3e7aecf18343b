/**
 * Reading server-sent events from a stream that arrives in arbitrary pieces, and what the server
 * on the other end writes into it.
 *
 * A blank line ends an event block, as in section 9.2.6 of the WHATWG HTML standard restricted to
 * LF line ends.
 */
module Sse {

  // ---- cutting text at blank lines ----

  predicate SeparatorAt(s: string, i: int) { 0 <= i && i + 1 < |s| && s[i] == '\n' && s[i + 1] == '\n' }

  // The first blank line, or -1.
  function IndexOf(s: string): (i: int)
    ensures i == -1 || SeparatorAt(s, i)
  {
    if |s| < 2 then -1
    else if s[0] == '\n' && s[1] == '\n' then 0
    else
      var rest := IndexOf(s[1..]);
      if rest == -1 then -1 else rest + 1
  }

  lemma {:induction false} NoneBeforeIndex(s: string, j: int)
    requires SeparatorAt(s, j)
    ensures 0 <= IndexOf(s) <= j
  {
    if !(s[0] == '\n' && s[1] == '\n') {
      NoneBeforeIndex(s[1..], j - 1);
    }
  }

  function Blocks(s: string): seq<string>
    decreases |s|
  {
    var i := IndexOf(s);
    if i == -1 then [] else [s[..i]] + Blocks(s[i + 2..])
  }

  function Remainder(s: string): string
    decreases |s|
  {
    var i := IndexOf(s);
    if i == -1 then s else Remainder(s[i + 2..])
  }

  lemma IndexOfExtended(a: string, b: string)
    ensures IndexOf(a) != -1 ==> IndexOf(a + b) == IndexOf(a)
  {
    var i := IndexOf(a);
    if i != -1 {
      NoneBeforeIndex(a + b, i);
      NoneBeforeIndex(a, IndexOf(a + b));
    }
  }

  lemma CutOnce(a: string, b: string)
    requires IndexOf(a) != -1
    ensures var rest := a[IndexOf(a) + 2..];
            && Blocks(a + b) == [a[..IndexOf(a)]] + Blocks(rest + b)
            && Remainder(a + b) == Remainder(rest + b)
  {
    var i := IndexOf(a);
    IndexOfExtended(a, b);
    assert (a + b)[..i] == a[..i];
    assert (a + b)[i + 2..] == a[i + 2..] + b;
  }

  // Cutting what came first and then the rest of it with what follows is cutting the whole: no
  // blank line is missed across the seam and none is seen that the whole does not have.
  lemma {:induction false} CutIsIncremental(a: string, b: string)
    ensures Blocks(a + b) == Blocks(a) + Blocks(Remainder(a) + b)
    ensures Remainder(a + b) == Remainder(Remainder(a) + b)
    decreases |a|
  {
    var i := IndexOf(a);
    if i == -1 {
      assert Blocks(a) == [];
    } else {
      var block, rest := a[..i], a[i + 2..];
      FirstCut(a);
      CutOnce(a, b);
      CutIsIncremental(rest, b);
      var first, last := Blocks(rest), Blocks(Remainder(rest) + b);
      Associative([block], first, last);
      assert Blocks(a + b) == [block] + (first + last);
    }
  }

  lemma FirstCut(s: string)
    requires IndexOf(s) != -1
    ensures var rest := s[IndexOf(s) + 2..];
            Blocks(s) == [s[..IndexOf(s)]] + Blocks(rest) && Remainder(s) == Remainder(rest)
  {
  }

  lemma Associative<T>(a: seq<T>, b: seq<T>, c: seq<T>)
    ensures a + (b + c) == a + b + c
  {
  }

  // ---- what one block means ----

  predicate IsSpace(c: char) {
    c in {' ', '\t', '\n', '\r', '\U{000B}', '\U{000C}', '\U{00A0}', '\U{FEFF}', '\U{1680}', '\U{2028}', '\U{2029}',
          '\U{202F}', '\U{205F}', '\U{3000}'} || '\U{2000}' <= c <= '\U{200A}'
  }

  function TrimStart(s: string): string { if |s| > 0 && IsSpace(s[0]) then TrimStart(s[1..]) else s }

  function TrimEnd(s: string): string {
    if |s| > 0 && IsSpace(s[|s| - 1]) then TrimEnd(s[..|s| - 1]) else s
  }

  function Trim(s: string): string { TrimEnd(TrimStart(s)) }

  // Split at each newline; there is always one line more than newlines.
  function Lines(s: string): (lines: seq<string>)
    ensures |lines| > 0
  {
    if |s| == 0 then [""]
    else
      var rest := Lines(s[1..]);
      if s[0] == '\n' then [""] + rest else [[s[0]] + rest[0]] + rest[1..]
  }

  function Joined(lines: seq<string>): string {
    if |lines| == 0 then "" else if |lines| == 1 then lines[0] else lines[0] + "\n" + Joined(lines[1..])
  }

  // The last event line names the event; a comment line never does, though it may look like one.
  function NextName(line: string, name: string): string { if "event:" <= line then Trim(line[6..]) else name }

  function DataOf(line: string): seq<string> { if "data:" <= line then [Trim(line[5..])] else [] }

  function EventName(lines: seq<string>, name: string): string
    decreases |lines|
  {
    if |lines| == 0 then name else EventName(lines[1..], NextName(lines[0], name))
  }

  function DataLines(lines: seq<string>): seq<string> {
    if |lines| == 0 then [] else DataOf(lines[0]) + DataLines(lines[1..])
  }

  // What the handlers are told. Reading the data as JSON is up to the caller's parser.
  datatype Call = Frame(event: string, data: string) | Closed

  function CallsFor(name: string, data: seq<string>, parses: string -> bool): seq<Call> {
    var raw := Joined(data);
    if raw == "" || !parses(raw) then []
    else if name == "stream.closed" then [Closed]
    else [Frame(name, raw)]
  }

  function Dispatched(block: string, parses: string -> bool): seq<Call> {
    CallsFor(EventName(Lines(block), "message"), DataLines(Lines(block)), parses)
  }

  function AllDispatched(blocks: seq<string>, parses: string -> bool): seq<Call> {
    if |blocks| == 0 then [] else Dispatched(blocks[0], parses) + AllDispatched(blocks[1..], parses)
  }

  lemma DispatchedFirst(block: string, blocks: seq<string>, parses: string -> bool)
    ensures AllDispatched([block] + blocks, parses) == Dispatched(block, parses) + AllDispatched(blocks, parses)
  {
    assert ([block] + blocks)[1..] == blocks;
  }

  lemma {:induction false} AllDispatchedConcat(a: seq<string>, b: seq<string>, parses: string -> bool)
    ensures AllDispatched(a + b, parses) == AllDispatched(a, parses) + AllDispatched(b, parses)
  {
    if |a| == 0 {
      assert a + b == b;
    } else {
      var block, rest := a[0], a[1..];
      assert a == [block] + rest && a + b == [block] + (rest + b);
      AllDispatchedConcat(rest, b, parses);
      DispatchedFirst(block, rest, parses);
      DispatchedFirst(block, rest + b, parses);
      Associative(Dispatched(block, parses), AllDispatched(rest, parses), AllDispatched(b, parses));
    }
  }

  // Reading the lines from i on with this name and these data gives the name and data of them all.
  ghost predicate Parsing(lines: seq<string>, i: nat, name: string, data: seq<string>,
                          finalName: string, finalData: seq<string>)
  {
    i <= |lines| && EventName(lines[i..], name) == finalName && data + DataLines(lines[i..]) == finalData
  }

  lemma NextLine(lines: seq<string>, i: nat, name: string, data: seq<string>, finalName: string, finalData: seq<string>)
    requires i < |lines| && Parsing(lines, i, name, data, finalName, finalData)
    ensures Parsing(lines, i + 1, NextName(lines[i], name), data + DataOf(lines[i]), finalName, finalData)
  {
    assert lines[i..][1..] == lines[i + 1..];
    Associative(data, DataOf(lines[i]), DataLines(lines[i + 1..]));
  }

  lemma LineKinds(line: string, name: string)
    ensures ":" <= line ==> NextName(line, name) == name && DataOf(line) == []
    ensures "event:" <= line ==> DataOf(line) == []
  {
    assert ":" <= line ==> line[0] == ':';
    assert "event:" <= line ==> line[0] == 'e';
    assert "data:" <= line ==> line[0] == 'd';
  }

  lemma ParseLine(lines: seq<string>, i: nat, name: string, data: seq<string>,
                  finalName: string, finalData: seq<string>)
    requires i < |lines| && Parsing(lines, i, name, data, finalName, finalData)
    ensures var line := lines[i];
            if ":" <= line then Parsing(lines, i + 1, name, data, finalName, finalData)
            else if "event:" <= line then Parsing(lines, i + 1, Trim(line[6..]), data, finalName, finalData)
            else if "data:" <= line then Parsing(lines, i + 1, name, data + [Trim(line[5..])], finalName, finalData)
            else Parsing(lines, i + 1, name, data, finalName, finalData)
  {
    NextLine(lines, i, name, data, finalName, finalData);
    LineKinds(lines[i], name);
    assert data + [] == data;
  }

  lemma ParsedAll(lines: seq<string>, name: string, data: seq<string>, finalName: string, finalData: seq<string>)
    requires Parsing(lines, |lines|, name, data, finalName, finalData)
    ensures name == finalName && data == finalData
  {
    assert data + [] == data;
  }

  lemma ParsingStarts(lines: seq<string>, name: string)
    ensures Parsing(lines, 0, name, [], EventName(lines, name), DataLines(lines))
  {
    assert lines[0..] == lines;
  }

  lemma ReadOn(a: string, b: string, parses: string -> bool)
    ensures AllDispatched(Blocks(a + b), parses)
         == AllDispatched(Blocks(a), parses) + AllDispatched(Blocks(Remainder(a) + b), parses)
    ensures Remainder(a + b) == Remainder(Remainder(a) + b)
  {
    CutIsIncremental(a, b);
    AllDispatchedConcat(Blocks(a), Blocks(Remainder(a) + b), parses);
  }

  // Dispatching these blocks after these calls gives all the calls there are to make.
  ghost predicate Draining(calls: seq<Call>, blocks: seq<string>, all: seq<Call>, parses: string -> bool) {
    calls + AllDispatched(blocks, parses) == all
  }

  lemma DrainOne(calls: seq<Call>, block: string, blocks: seq<string>, all: seq<Call>, parses: string -> bool)
    requires Draining(calls, [block] + blocks, all, parses)
    ensures Draining(calls + Dispatched(block, parses), blocks, all, parses)
  {
    DispatchedFirst(block, blocks, parses);
    Associative(calls, Dispatched(block, parses), AllDispatched(blocks, parses));
  }

  lemma Drained(calls: seq<Call>, all: seq<Call>, parses: string -> bool)
    requires Draining(calls, [], all, parses)
    ensures calls == all
  {
    assert calls + [] == calls;
  }

  // What the reader makes of a whole response.
  function Reading(text: string, parses: string -> bool): seq<Call> {
    AllDispatched(Blocks(text), parses)
    + (if Trim(Remainder(text)) == "" then [] else Dispatched(Remainder(text), parses))
    + [Closed]
  }

  // ---- the reader ----

  class Reader {
    var buffer: string
    var calls: seq<Call>
    ghost var received: string
    const parses: string -> bool

    ghost predicate Valid()
      reads this
    {
      buffer == Remainder(received) && calls == AllDispatched(Blocks(received), parses)
    }

    constructor (parses: string -> bool)
      ensures Valid() && received == "" && this.parses == parses
    {
      buffer, calls, received := "", [], "";
      this.parses := parses;
    }

    static method ParseBlock(block: string) returns (eventName: string, dataLines: seq<string>)
      ensures eventName == EventName(Lines(block), "message") && dataLines == DataLines(Lines(block))
    {
      var lines := Lines(block);
      eventName, dataLines := "message", [];
      ghost var name, data := EventName(lines, eventName), DataLines(lines);
      var i := 0;
      ParsingStarts(lines, eventName);
      while i < |lines|
        invariant i <= |lines| && Parsing(lines, i, eventName, dataLines, name, data)
      {
        var line := lines[i];
        ParseLine(lines, i, eventName, dataLines, name, data);
        i := i + 1;
        if ":" <= line {
          continue;
        }
        if "event:" <= line {
          eventName := Trim(line[6..]);
        } else if "data:" <= line {
          dataLines := dataLines + [Trim(line[5..])];
        }
      }
      ParsedAll(lines, eventName, dataLines, name, data);
    }

    method Dispatch(block: string)
      modifies this`calls
      ensures calls == old(calls) + Dispatched(block, parses)
    {
      var eventName, dataLines := ParseBlock(block);
      var raw := Joined(dataLines);
      if |dataLines| == 0 || raw == "" || !parses(raw) {
        assert Dispatched(block, parses) == [];
        return;
      }
      calls := calls + if eventName == "stream.closed" then [Closed] else [Frame(eventName, raw)];
    }

    // One read of the response body.
    method Feed(chunk: string)
      requires Valid()
      modifies this
      ensures Valid() && received == old(received) + chunk
    {
      buffer := buffer + chunk;
      ReadOn(received, chunk, parses);
      received := received + chunk;
      ghost var all, rest := AllDispatched(Blocks(received), parses), Remainder(received);
      var separator := IndexOf(buffer);
      while separator != -1
        invariant separator == IndexOf(buffer)
        invariant received == old(received) + chunk
        invariant Draining(calls, Blocks(buffer), all, parses) && Remainder(buffer) == rest
        decreases |buffer|
      {
        FirstCut(buffer);
        DrainOne(calls, buffer[..separator], Blocks(buffer[separator + 2..]), all, parses);
        Dispatch(buffer[..separator]);
        buffer := buffer[separator + 2..];
        separator := IndexOf(buffer);
      }
      Drained(calls, all, parses);
    }

    // The end of the response body.
    method Finish()
      requires Valid()
      modifies this`calls
      ensures calls == Reading(received, parses)
    {
      if Trim(buffer) != "" {
        Dispatch(buffer);
      }
      calls := calls + [Closed];
    }
  }

  function Whole(chunks: seq<string>): string {
    if |chunks| == 0 then "" else Whole(chunks[..|chunks| - 1]) + chunks[|chunks| - 1]
  }

  // However the text is cut into chunks, the handlers are told what the whole text says.
  method ReadAll(chunks: seq<string>, parses: string -> bool) returns (calls: seq<Call>)
    ensures calls == Reading(Whole(chunks), parses)
  {
    var reader := new Reader(parses);
    assert chunks[..0] == [];
    for i := 0 to |chunks|
      invariant reader.Valid() && fresh(reader) && reader.parses == parses
      invariant reader.received == Whole(chunks[..i])
    {
      assert chunks[..i + 1][..i] == chunks[..i];
      reader.Feed(chunks[i]);
    }
    assert chunks[..|chunks|] == chunks;
    reader.Finish();
    calls := reader.calls;
  }

  // ---- what the server writes ----

  datatype ServerFrame = Event(seqText: string, event: string, payload: string) | KeepAlive | StreamClosed

  predicate OneLine(s: string) { forall i :: 0 <= i < |s| ==> s[i] != '\n' }

  // Sequence numbers, event names and JSON without indentation are single lines, and neither a
  // name nor a JSON object begins or ends with space.
  predicate Writable(f: ServerFrame) {
    f.Event? ==> OneLine(f.seqText) && OneLine(f.event) && OneLine(f.payload)
                 && Trim(f.event) == f.event && Trim(f.payload) == f.payload
  }

  function Block(f: ServerFrame): string {
    match f
    case Event(seqText, event, payload) => "id: " + seqText + "\n" + ("event: " + event + "\n" + ("data: " + payload))
    case KeepAlive => ": keep-alive"
    case StreamClosed => "event: " + "stream.closed" + "\n" + ("data: " + "{}")
  }

  function Sent(frames: seq<ServerFrame>): string {
    if |frames| == 0 then "" else Block(frames[0]) + "\n\n" + Sent(frames[1..])
  }

  function Meant(f: ServerFrame, parses: string -> bool): seq<Call> {
    match f
    case Event(_, event, payload) =>
      if payload == "" || !parses(payload) then []
      else if event == "stream.closed" then [Closed]
      else [Frame(event, payload)]
    case KeepAlive => []
    case StreamClosed => if parses("{}") then [Closed] else []
  }

  function AllMeant(frames: seq<ServerFrame>, parses: string -> bool): seq<Call> {
    if |frames| == 0 then [] else Meant(frames[0], parses) + AllMeant(frames[1..], parses)
  }

  // No newline is last or followed by another.
  ghost predicate Tight(s: string) {
    forall i :: 0 <= i < |s| && s[i] == '\n' ==> i + 1 < |s| && s[i + 1] != '\n'
  }

  lemma TightJoin(a: string, b: string)
    requires OneLine(a) && Tight(b) && |b| > 0 && b[0] != '\n'
    ensures Tight(a + "\n" + b)
  {
    var s := a + "\n" + b;
    assert forall i :: 0 <= i < |a| ==> s[i] == a[i];
    assert forall i :: |a| < i < |s| ==> s[i] == b[i - |a| - 1];
  }

  lemma BlockIsFirstCut(block: string, rest: string)
    requires Tight(block)
    ensures IndexOf(block + "\n\n" + rest) == |block|
  {
    var s := block + "\n\n" + rest;
    NoneBeforeIndex(s, |block|);
    assert forall i :: 0 <= i < |block| ==> s[i] == block[i];
  }

  lemma {:induction false} OneLineAlone(a: string)
    requires OneLine(a)
    ensures Lines(a) == [a]
  {
    if |a| > 0 {
      OneLineAlone(a[1..]);
      assert [a[0]] + a[1..] == a;
    }
  }

  lemma {:induction false} OneLineFirst(a: string, b: string)
    requires OneLine(a)
    ensures Lines(a + "\n" + b) == [a] + Lines(b)
  {
    var s := a + "\n" + b;
    if |a| == 0 {
      assert s[1..] == b;
    } else {
      assert s[1..] == a[1..] + "\n" + b;
      OneLineFirst(a[1..], b);
      assert [a[0]] + a[1..] == a;
    }
  }

  lemma TrimAfterSpace(data: string)
    requires Trim(data) == data
    ensures Trim([' '] + data) == data
  {
    assert ([' '] + data)[1..] == data;
  }

  lemma EventLine(data: string, name: string)
    requires Trim(data) == data
    ensures NextName("event: " + data, name) == data && DataOf("event: " + data) == []
  {
    var line := "event: " + data;
    assert line[6..] == [' '] + data;
    TrimAfterSpace(data);
    LineKinds(line, name);
  }

  lemma DataLine(data: string, name: string)
    requires Trim(data) == data
    ensures NextName("data: " + data, name) == name && DataOf("data: " + data) == [data]
  {
    var line := "data: " + data;
    assert line[5..] == [' '] + data;
    TrimAfterSpace(data);
    LineKinds(line, name);
  }

  lemma IdLine(data: string, name: string)
    ensures NextName("id: " + data, name) == name && DataOf("id: " + data) == []
  {
    assert ("id: " + data)[0] == 'i';
  }

  lemma FirstLineRead(line: string, rest: seq<string>, name: string)
    ensures EventName([line] + rest, name) == EventName(rest, NextName(line, name))
    ensures DataLines([line] + rest) == DataOf(line) + DataLines(rest)
  {
    assert ([line] + rest)[1..] == rest;
  }

  lemma LastLineRead(line: string, name: string)
    ensures EventName([line], name) == NextName(line, name) && DataLines([line]) == DataOf(line)
  {
    FirstLineRead(line, [], name);
    assert [line] + [] == [line];
  }

  lemma OneLineIsTight(s: string)
    requires OneLine(s)
    ensures Tight(s)
  {
  }

  // An event line and a data line, as every frame ends with.
  lemma NamedData(event: string, payload: string, name: string)
    requires OneLine(event) && OneLine(payload) && Trim(event) == event && Trim(payload) == payload
    ensures var block := "event: " + event + "\n" + ("data: " + payload);
            && Tight(block) && |block| > 0 && block[0] != '\n'
            && EventName(Lines(block), name) == event && DataLines(Lines(block)) == [payload]
  {
    var first, last := "event: " + event, "data: " + payload;
    OneLineIsTight(last);
    TightJoin(first, last);
    OneLineFirst(first, last);
    OneLineAlone(last);
    FirstLineRead(first, [last], name);
    LastLineRead(last, event);
    EventLine(event, name);
    DataLine(payload, event);
  }

  lemma EventBlock(f: ServerFrame, parses: string -> bool)
    requires Writable(f) && f.Event?
    ensures Tight(Block(f)) && Dispatched(Block(f), parses) == Meant(f, parses)
  {
    var first, others := "id: " + f.seqText, "event: " + f.event + "\n" + ("data: " + f.payload);
    NamedData(f.event, f.payload, "message");
    TightJoin(first, others);
    OneLineFirst(first, others);
    FirstLineRead(first, Lines(others), "message");
    IdLine(f.seqText, "message");
  }

  lemma ClosedBlock(parses: string -> bool)
    ensures Tight(Block(StreamClosed)) && Dispatched(Block(StreamClosed), parses) == Meant(StreamClosed, parses)
  {
    NamedData("stream.closed", "{}", "message");
  }

  lemma CommentBlock(line: string, parses: string -> bool)
    requires OneLine(line) && ":" <= line
    ensures Tight(line) && Dispatched(line, parses) == []
  {
    OneLineIsTight(line);
    OneLineAlone(line);
    LastLineRead(line, "message");
    LineKinds(line, "message");
  }

  lemma KeepAliveBlock(parses: string -> bool)
    ensures Tight(Block(KeepAlive)) && Dispatched(Block(KeepAlive), parses) == Meant(KeepAlive, parses)
  {
    CommentBlock(": keep-alive", parses);
  }

  lemma BlockMeans(f: ServerFrame, parses: string -> bool)
    requires Writable(f)
    ensures Tight(Block(f)) && Dispatched(Block(f), parses) == Meant(f, parses)
  {
    match f
    case Event(_, _, _) => EventBlock(f, parses);
    case KeepAlive => KeepAliveBlock(parses);
    case StreamClosed => ClosedBlock(parses);
  }

  lemma {:induction false} SentIsRead(frames: seq<ServerFrame>, parses: string -> bool)
    requires forall f :: f in frames ==> Writable(f)
    ensures AllDispatched(Blocks(Sent(frames)), parses) == AllMeant(frames, parses) && Remainder(Sent(frames)) == ""
  {
    if |frames| == 0 {
      assert Blocks("") == [];
    } else {
      var block, rest := Block(frames[0]), Sent(frames[1..]);
      BlockMeans(frames[0], parses);
      BlockIsFirstCut(block, rest);
      FirstCut(Sent(frames));
      assert Sent(frames)[..|block|] == block && Sent(frames)[|block| + 2..] == rest;
      DispatchedFirst(block, Blocks(rest), parses);
      SentIsRead(frames[1..], parses);
    }
  }

  // Whatever frames the server writes and however the network cuts them up, the handlers are told
  // of each frame once, in order, and of nothing else; the end of the stream is told last.
  method Deliver(frames: seq<ServerFrame>, chunks: seq<string>, parses: string -> bool) returns (calls: seq<Call>)
    requires forall f :: f in frames ==> Writable(f)
    requires Whole(chunks) == Sent(frames)
    ensures calls == AllMeant(frames, parses) + [Closed]
  {
    SentIsRead(frames, parses);
    calls := ReadAll(chunks, parses);
  }

  lemma {:induction false} AllMeantConcat(a: seq<ServerFrame>, b: seq<ServerFrame>, parses: string -> bool)
    ensures AllMeant(a + b, parses) == AllMeant(a, parses) + AllMeant(b, parses)
  {
    if |a| == 0 {
      assert a + b == b;
    } else {
      assert (a + b)[1..] == a[1..] + b;
      AllMeantConcat(a[1..], b, parses);
      Associative(Meant(a[0], parses), AllMeant(a[1..], parses), AllMeant(b, parses));
    }
  }

  lemma ClosingMeans(parses: string -> bool)
    requires parses("{}")
    ensures AllMeant([StreamClosed], parses) == [Closed]
  {
    assert [StreamClosed][1..] == [];
    assert Joined(["{}"]) == "{}";
  }

  lemma ReadingOfSent(frames: seq<ServerFrame>, parses: string -> bool)
    requires forall f :: f in frames ==> Writable(f)
    ensures Reading(Sent(frames), parses) == AllMeant(frames, parses) + [Closed]
  {
    SentIsRead(frames, parses);
    NothingRemains(Sent(frames), parses);
  }

  lemma NothingRemains(text: string, parses: string -> bool)
    requires Remainder(text) == ""
    ensures Reading(text, parses) == AllDispatched(Blocks(text), parses) + [Closed]
  {
    assert Trim("") == "";
  }

  // The server always ends with a closing frame and the reader reports the end of the body too, so
  // the handler is told of every complete stream's close twice.
  lemma CloseIsToldTwice(frames: seq<ServerFrame>, parses: string -> bool)
    requires (forall f :: f in frames ==> Writable(f)) && parses("{}")
    ensures Reading(Sent(frames + [StreamClosed]), parses) == AllMeant(frames, parses) + [Closed, Closed]
  {
    ReadingOfSent(frames + [StreamClosed], parses);
    AllMeantConcat(frames, [StreamClosed], parses);
    ClosingMeans(parses);
    Associative(AllMeant(frames, parses), [Closed], [Closed]);
  }

  // ---- a stream that breaks off ----

  lemma TightIsOneBlock(block: string)
    requires Tight(block)
    ensures Blocks(block) == [] && Remainder(block) == block
  {
    var i := IndexOf(block);
    assert i == -1;
  }

  lemma {:induction false} EndHasNoSpace(s: string, i: nat)
    requires i < |s| && !IsSpace(s[i])
    ensures TrimEnd(s) != "" && |TrimEnd(s)| > i && TrimEnd(s)[i] == s[i]
  {
    if IsSpace(s[|s| - 1]) {
      EndHasNoSpace(s[..|s| - 1], i);
    }
  }

  lemma NotBlank(s: string)
    requires |s| > 0 && !IsSpace(s[0])
    ensures Trim(s) != ""
  {
    EndHasNoSpace(s, 0);
  }

  // A last frame whose blank line never arrived is still read, and the close told after it.
  lemma UnfinishedFrameIsRead(frames: seq<ServerFrame>, last: ServerFrame, parses: string -> bool)
    requires (forall f :: f in frames ==> Writable(f)) && Writable(last)
    ensures Reading(Sent(frames) + Block(last), parses) == AllMeant(frames, parses) + Meant(last, parses) + [Closed]
  {
    SentIsRead(frames, parses);
    ReadOn(Sent(frames), Block(last), parses);
    BlockMeans(last, parses);
    TightIsOneBlock(Block(last));
    assert "" + Block(last) == Block(last);
    NotBlank(Block(last));
    assert AllMeant(frames, parses) + [] == AllMeant(frames, parses);
  }

  // White space after the last frame is nothing.
  lemma TrailingSpaceIsNothing(frames: seq<ServerFrame>, space: string, parses: string -> bool)
    requires (forall f :: f in frames ==> Writable(f)) && Tight(space) && Trim(space) == ""
    ensures Reading(Sent(frames) + space, parses) == AllMeant(frames, parses) + [Closed]
  {
    SentIsRead(frames, parses);
    ReadOn(Sent(frames), space, parses);
    TightIsOneBlock(space);
    assert "" + space == space;
    assert AllMeant(frames, parses) + [] == AllMeant(frames, parses);
  }

  // ---- what cutting, splitting and trimming mean ----

  // The blocks, each with the blank line that ends it.
  function Uncut(blocks: seq<string>): string {
    if |blocks| == 0 then "" else blocks[0] + "\n\n" + Uncut(blocks[1..])
  }

  lemma UncutFirst(block: string, blocks: seq<string>, rest: string)
    ensures Uncut([block] + blocks) + rest == block + "\n\n" + (Uncut(blocks) + rest)
  {
    assert ([block] + blocks)[1..] == blocks;
  }

  // Blocks and remainder are the text.
  lemma {:induction false} CutKeepsText(s: string)
    ensures Uncut(Blocks(s)) + Remainder(s) == s
    decreases |s|
  {
    var i := IndexOf(s);
    if i != -1 {
      FirstCut(s);
      CutKeepsText(s[i + 2..]);
      UncutFirst(s[..i], Blocks(s[i + 2..]), Remainder(s[i + 2..]));
      AroundSeparator(s, i);
    }
  }

  lemma AroundSeparator(s: string, i: nat)
    requires SeparatorAt(s, i)
    ensures s == s[..i] + "\n\n" + s[i + 2..]
  {
  }

  ghost predicate Unbroken(s: string) { forall i :: !SeparatorAt(s, i) }

  lemma FirstIsUnbroken(s: string)
    ensures IndexOf(s) == -1 ==> Unbroken(s)
    ensures IndexOf(s) != -1 ==> Unbroken(s[..IndexOf(s)])
  {
    var i := IndexOf(s);
    forall j | SeparatorAt(s, j) ensures 0 <= i <= j { NoneBeforeIndex(s, j); }
    if i != -1 {
      forall j ensures !SeparatorAt(s[..i], j) {
        assert SeparatorAt(s[..i], j) ==> SeparatorAt(s, j);
      }
    }
  }

  // And no blank line is left in any of them.
  lemma {:induction false} CutsAreUnbroken(s: string)
    ensures (forall b :: b in Blocks(s) ==> Unbroken(b)) && Unbroken(Remainder(s))
    decreases |s|
  {
    FirstIsUnbroken(s);
    if IndexOf(s) != -1 {
      FirstCut(s);
      CutsAreUnbroken(s[IndexOf(s) + 2..]);
    }
  }

  // Lines joined by newlines are the text, and no line has one.
  lemma {:induction false} LinesKeepText(s: string)
    ensures Joined(Lines(s)) == s
    ensures forall l :: l in Lines(s) ==> '\n' !in l
  {
    if |s| != 0 {
      var rest := Lines(s[1..]);
      LinesKeepText(s[1..]);
      assert s == [s[0]] + s[1..];
      assert rest == [rest[0]] + rest[1..];
      if s[0] == '\n' {
        assert ([""] + rest)[1..] == rest;
      } else {
        assert ([[s[0]] + rest[0]] + rest[1..])[1..] == rest[1..];
      }
    }
  }

  lemma {:induction false} TrimmedStart(s: string) returns (space: string)
    ensures s == space + TrimStart(s) && forall c :: c in space ==> IsSpace(c)
    ensures |TrimStart(s)| > 0 ==> !IsSpace(TrimStart(s)[0])
  {
    space := "";
    if |s| > 0 && IsSpace(s[0]) {
      var more := TrimmedStart(s[1..]);
      space := [s[0]] + more;
    }
  }

  lemma {:induction false} TrimmedEnd(s: string) returns (space: string)
    ensures s == TrimEnd(s) + space && forall c :: c in space ==> IsSpace(c)
    ensures |TrimEnd(s)| > 0 ==> !IsSpace(TrimEnd(s)[|TrimEnd(s)| - 1])
  {
    space := "";
    if |s| > 0 && IsSpace(s[|s| - 1]) {
      var more := TrimmedEnd(s[..|s| - 1]);
      space := more + [s[|s| - 1]];
    }
  }

  // Trimming takes white space off both ends until neither end has any.
  lemma TrimTakesSpaceOff(s: string) returns (before: string, after: string)
    ensures s == before + Trim(s) + after && forall c :: c in before + after ==> IsSpace(c)
    ensures Trim(s) != "" ==> !IsSpace(Trim(s)[0]) && !IsSpace(Trim(s)[|Trim(s)| - 1])
  {
    before := TrimmedStart(s);
    after := TrimmedEnd(TrimStart(s));
    assert TrimStart(s) == Trim(s) + after;
  }

  // ---- frames of several data lines ----

  function DataBlock(data: seq<string>): string {
    if |data| == 0 then "" else if |data| == 1 then "data: " + data[0] else "data: " + data[0] + "\n" + DataBlock(data[1..])
  }

  lemma {:induction false} DataBlockRead(data: seq<string>, name: string)
    requires |data| > 0 && forall d :: d in data ==> OneLine(d) && Trim(d) == d
    ensures EventName(Lines(DataBlock(data)), name) == name && DataLines(Lines(DataBlock(data))) == data
  {
    DataLine(data[0], name);
    DataLineIsOneLine(data[0]);
    if |data| == 1 {
      OneLineAlone("data: " + data[0]);
      LastLineRead("data: " + data[0], name);
      assert data == [data[0]];
    } else {
      DataBlockRead(data[1..], name);
      LineThenBlock("data: " + data[0], DataBlock(data[1..]), name);
      assert data == [data[0]] + data[1..];
    }
  }

  lemma DataLineIsOneLine(data: string)
    requires OneLine(data)
    ensures OneLine("data: " + data)
  {
  }

  // The data lines of a block are one text, joined by newlines; without any, or where it is no
  // JSON, nothing is told.
  lemma ManyDataLines(event: string, data: seq<string>, parses: string -> bool)
    requires OneLine(event) && Trim(event) == event && |data| > 0
    requires forall d :: d in data ==> OneLine(d) && Trim(d) == d
    ensures Dispatched("event: " + event + "\n" + DataBlock(data), parses) ==
      if Joined(data) == "" || !parses(Joined(data)) then []
      else if event == "stream.closed" then [Closed] else [Frame(event, Joined(data))]
    ensures Lines(Joined(data)) == data
  {
    EventAndData(event, data);
    NamedBlockRead("event: " + event + "\n" + DataBlock(data), event, data, parses);
    JoinedLines(data);
  }

  lemma LineThenBlock(line: string, block: string, name: string)
    requires OneLine(line)
    ensures EventName(Lines(line + "\n" + block), name) == EventName(Lines(block), NextName(line, name))
    ensures DataLines(Lines(line + "\n" + block)) == DataOf(line) + DataLines(Lines(block))
  {
    OneLineFirst(line, block);
    FirstLineRead(line, Lines(block), name);
  }

  lemma EventLineIsOneLine(event: string)
    requires OneLine(event)
    ensures OneLine("event: " + event)
  {
  }

  lemma EventAndData(event: string, data: seq<string>)
    requires OneLine(event) && Trim(event) == event && |data| > 0
    requires forall d :: d in data ==> OneLine(d) && Trim(d) == d
    ensures var block := "event: " + event + "\n" + DataBlock(data);
      EventName(Lines(block), "message") == event && DataLines(Lines(block)) == [] + data
  {
    EventLine(event, "message");
    DataBlockRead(data, event);
    EventLineIsOneLine(event);
    LineThenBlock("event: " + event, DataBlock(data), "message");
  }

  lemma NamedBlockRead(block: string, event: string, data: seq<string>, parses: string -> bool)
    requires EventName(Lines(block), "message") == event && DataLines(Lines(block)) == [] + data
    ensures Dispatched(block, parses) ==
      if Joined(data) == "" || !parses(Joined(data)) then []
      else if event == "stream.closed" then [Closed] else [Frame(event, Joined(data))]
  {
    assert [] + data == data;
  }

  lemma {:induction false} JoinedLines(data: seq<string>)
    requires |data| > 0 && forall d :: d in data ==> OneLine(d)
    ensures Lines(Joined(data)) == data
  {
    OneLineAlone(data[0]);
    if |data| > 1 {
      JoinedLines(data[1..]);
      OneLineFirst(data[0], Joined(data[1..]));
      assert data == [data[0]] + data[1..];
    } else {
      assert data == [data[0]];
    }
  }

  // The last event line of a block names its event.
  lemma {:induction false} LastEventLineNames(lines: seq<string>, i: nat, name: string)
    requires i < |lines| && "event:" <= lines[i]
    requires forall j :: i < j < |lines| ==> !("event:" <= lines[j])
    ensures EventName(lines, name) == Trim(lines[i][6..])
    decreases |lines|
  {
    if i == 0 {
      NoEventLine(lines[1..], Trim(lines[0][6..]));
    } else {
      LastEventLineNames(lines[1..], i - 1, NextName(lines[0], name));
    }
  }

  lemma {:induction false} NoEventLine(lines: seq<string>, name: string)
    requires forall j :: 0 <= j < |lines| ==> !("event:" <= lines[j])
    ensures EventName(lines, name) == name
    decreases |lines|
  {
    if |lines| > 0 {
      NoEventLine(lines[1..], NextName(lines[0], name));
    }
  }
}
