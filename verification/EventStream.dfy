/** Server-Sent Events between the server's `_event` (app/api/v1/recommend.py) and the browser's
    `parseEvents` and read loop (dashboard/lib/hooks/ask.ts): a subset of the WHATWG HTML standard,
    section 9.2.6 "Interpreting an event stream". JSON encoding is a parameter. */
module EventStream {
  import opened Dicts
  import opened Sequences

  // ---- Splitting ----

  /** Everything before the first blank line, and everything after it. */
  function Cut(s: string): (r: Option<(string, string)>)
    ensures r.Some? ==> s == r.value.0 + "\n\n" + r.value.1
  {
    if |s| < 2 then None
    else if s[0] == '\n' && s[1] == '\n' then Some(("", s[2..]))
    else
      match Cut(s[1..])
      case None => None
      case Some((block, after)) => Some(([s[0]] + block, after))
  }

  /** `buffer.split("\n\n")`, the last part apart. */
  function Blocks(s: string): (r: (seq<string>, string))
    decreases |s|
  {
    match Cut(s)
    case None => ([], s)
    case Some((block, after)) =>
      var (blocks, rest) := Blocks(after);
      ([block] + blocks, rest)
  }

  /** `block.split("\n")` */
  function Lines(s: string): (r: seq<string>)
    ensures r != []
  {
    if s == "" then [""]
    else
      var lines := Lines(s[1..]);
      if s[0] == '\n' then [""] + lines else [[s[0]] + lines[0]] + lines[1..]
  }

  // ---- parseEvents ----

  datatype Event = Event(name: string, data: string)

  /** `(name, data)` after one more line. */
  function ReadLine(name: string, data: seq<string>, line: string): (string, seq<string>) {
    if "event: " <= line then (line[7..], data)
    else if "data: " <= line then (name, data + [line[6..]])
    else (name, data)
  }

  function ReadLines(name: string, data: seq<string>, lines: seq<string>): (string, seq<string>)
    decreases |lines|
  {
    if lines == [] then (name, data)
    else
      var (name', data') := ReadLine(name, data, lines[0]);
      ReadLines(name', data', lines[1..])
  }

  function JoinLines(data: seq<string>): string {
    if data == [] then "" else if |data| == 1 then data[0] else data[0] + "\n" + JoinLines(data[1..])
  }

  function ParseBlock(block: string): Option<Event> {
    var (name, data) := ReadLines("message", [], Lines(block));
    if data == [] then None else Some(Event(name, JoinLines(data)))
  }

  function EventsOf(blocks: seq<string>): seq<Event> {
    if blocks == [] then []
    else
      (match ParseBlock(blocks[0]) case Some(e) => [e] case None => [])
      + EventsOf(blocks[1..])
  }

  /** Complete events and the unfinished rest. */
  function Parse(buffer: string): (seq<Event>, string) {
    var (blocks, rest) := Blocks(buffer);
    (EventsOf(blocks), rest)
  }

  method ParseEvents(buffer: string) returns (events: seq<Event>, rest: string)
    ensures (events, rest) == Parse(buffer)
  {
    var (blocks, unfinished) := Blocks(buffer);
    rest := unfinished;
    events := [];
    for i := 0 to |blocks|
      invariant events + EventsOf(blocks[i..]) == EventsOf(blocks)
    {
      var lines := Lines(blocks[i]);
      var name: string := "message";
      var data: seq<string> := [];
      for j := 0 to |lines|
        invariant ReadLines(name, data, lines[j..]) == ReadLines("message", [], lines)
      {
        var line := lines[j];
        assert lines[j..][1..] == lines[j + 1..];
        if "event: " <= line {
          name := line[7..];
        } else if "data: " <= line {
          data := data + [line[6..]];
        }
      }
      assert (name, data) == ReadLines("message", [], lines);
      if |data| > 0 {
        events := events + [Event(name, JoinLines(data))];
      }
    }
    assert events == EventsOf(blocks);
  }

  // ---- What one block says ----

  /** The payloads of the data lines, in order. */
  ghost function Payloads(lines: seq<string>): seq<string> {
    if lines == [] then []
    else (if "data: " <= lines[0] then [lines[0][6..]] else []) + Payloads(lines[1..])
  }

  predicate Names(line: string) {
    "event: " <= line
  }

  ghost predicate LastNamed(lines: seq<string>, i: nat) {
    i < |lines| && Names(lines[i]) && forall j :: i < j < |lines| ==> !Names(lines[j])
  }

  lemma {:induction false} ReadLinesData(name: string, data: seq<string>, lines: seq<string>)
    ensures ReadLines(name, data, lines).1 == data + Payloads(lines)
    decreases |lines|
  {
    if lines != [] {
      var (name', data') := ReadLine(name, data, lines[0]);
      ReadLinesData(name', data', lines[1..]);
      assert Names(lines[0]) ==> lines[0][0] == 'e';
      assert "data: " <= lines[0] ==> lines[0][0] == 'd';
      var first := if "data: " <= lines[0] then [lines[0][6..]] else [];
      assert data' == data + first;
      Regroup(data, first, Payloads(lines[1..]));
    }
  }

  lemma {:induction false} ReadLinesName(name: string, data: seq<string>, lines: seq<string>)
    ensures (forall i :: 0 <= i < |lines| ==> !Names(lines[i])) ==> ReadLines(name, data, lines).0 == name
    ensures forall i: nat :: LastNamed(lines, i) ==> ReadLines(name, data, lines).0 == lines[i][7..]
    decreases |lines|
  {
    if lines != [] {
      var (name', data') := ReadLine(name, data, lines[0]);
      var rest := lines[1..];
      ReadLinesName(name', data', rest);
      assert forall j :: 0 <= j < |rest| ==> rest[j] == lines[j + 1];
      assert name' == if Names(lines[0]) then lines[0][7..] else name;
      forall i: nat | LastNamed(lines, i) ensures ReadLines(name', data', rest).0 == lines[i][7..] {
        if i > 0 { assert LastNamed(rest, i - 1); }
      }
    }
  }

  /** A block is an event when it has a data line: the lines of its data are the payloads of all of these, and its
      name is that of its last event line, else "message". */
  lemma {:induction false} ParseBlockIs(block: string)
    ensures ParseBlock(block).Some? <==> Payloads(Lines(block)) != []
    ensures ParseBlock(block).Some? ==> Lines(ParseBlock(block).value.data) == Payloads(Lines(block))
    ensures ParseBlock(block).Some? ==>
              && (forall i: nat :: LastNamed(Lines(block), i) ==> ParseBlock(block).value.name == Lines(block)[i][7..])
              && ((forall i :: 0 <= i < |Lines(block)| ==> !Names(Lines(block)[i])) ==>
                    ParseBlock(block).value.name == "message")
  {
    var payloads := Payloads(Lines(block));
    ReadLinesData("message", [], Lines(block));
    ReadLinesName("message", [], Lines(block));
    assert [] + payloads == payloads;
    LinesAreWhole(block);
    PayloadsAreWhole(Lines(block));
    if payloads != [] { LinesOfJoined(payloads); }
  }

  lemma {:induction false} LinesAreWhole(s: string)
    ensures forall i :: 0 <= i < |Lines(s)| ==> OneLine(Lines(s)[i])
  {
    if s != "" { LinesAreWhole(s[1..]); }
  }

  lemma {:induction false} PayloadsAreWhole(lines: seq<string>)
    requires forall i :: 0 <= i < |lines| ==> OneLine(lines[i])
    ensures forall i :: 0 <= i < |Payloads(lines)| ==> OneLine(Payloads(lines)[i])
  {
    if lines != [] { PayloadsAreWhole(lines[1..]); }
  }

  lemma {:induction false} LinesOfJoined(data: seq<string>)
    requires data != [] && forall i :: 0 <= i < |data| ==> OneLine(data[i])
    ensures Lines(JoinLines(data)) == data
  {
    if |data| == 1 {
      LinesOfOne(data[0]);
    } else {
      LinesOfJoined(data[1..]);
      LinesOfTwo(data[0], JoinLines(data[1..]));
    }
  }

  // ---- Chunking is invisible ----

  lemma {:induction false} CutAppend(x: string, y: string)
    requires Cut(x).Some?
    ensures Cut(x + y) == Some((Cut(x).value.0, Cut(x).value.1 + y))
  {
    assert (x + y)[0] == x[0] && (x + y)[1] == x[1];
    if x[0] == '\n' && x[1] == '\n' {
      assert (x + y)[2..] == x[2..] + y;
      assert Cut(x) == Some(("", x[2..])) && Cut(x + y) == Some(("", (x + y)[2..]));
    } else {
      CutAppend(x[1..], y);
      assert (x + y)[1..] == x[1..] + y;
      var (block, after) := Cut(x[1..]).value;
      assert Cut(x) == Some(([x[0]] + block, after));
      assert Cut(x + y) == Some(([x[0]] + block, after + y));
    }
  }

  lemma {:induction false} BlocksAppend(x: string, y: string)
    ensures var (blocks, rest) := Blocks(x);
            var (more, end) := Blocks(rest + y);
            Blocks(x + y) == (blocks + more, end)
    decreases |x|
  {
    if Cut(x).Some? {
      var (block, after) := Cut(x).value;
      CutAppend(x, y);
      BlocksAppend(after, y);
      var (blocks, rest) := Blocks(after);
      assert ([block] + blocks) + Blocks(rest + y).0 == [block] + (blocks + Blocks(rest + y).0);
    } else {
      assert Blocks(x).0 + Blocks(x + y).0 == Blocks(x + y).0;
    }
  }

  lemma {:induction false} EventsOfAppend(a: seq<string>, b: seq<string>)
    ensures EventsOf(a + b) == EventsOf(a) + EventsOf(b)
  {
    if a == [] {
      assert a + b == b;
    } else {
      assert (a + b)[1..] == a[1..] + b;
      EventsOfAppend(a[1..], b);
    }
  }

  lemma ParseAppend(x: string, y: string)
    ensures Parse(x + y) == Prepend(Parse(x).0, Parse(Parse(x).1 + y))
  {
    BlocksAppend(x, y);
    EventsOfAppend(Blocks(x).0, Blocks(Blocks(x).1 + y).0);
  }

  function Prepend(events: seq<Event>, parsed: (seq<Event>, string)): (seq<Event>, string) {
    (events + parsed.0, parsed.1)
  }

  /** Reading chunk by chunk, carrying the rest. */
  function Feed(chunks: seq<string>, buffer: string): (seq<Event>, string)
    decreases |chunks|
  {
    if chunks == [] then ([], buffer)
    else
      var (events, rest) := Parse(buffer + chunks[0]);
      Prepend(events, Feed(chunks[1..], rest))
  }

  lemma {:induction false} RestIsUnfinished(s: string)
    ensures Parse(Parse(s).1) == ([], Parse(s).1)
    decreases |s|
  {
    if Cut(s).Some? { RestIsUnfinished(Cut(s).value.1); }
  }

  /** However a text is split into chunks, the same events and the same rest come out. */
  lemma {:induction false} ChunkingInvisible(chunks: seq<string>, buffer: string)
    requires Parse(buffer) == ([], buffer)
    ensures Feed(chunks, buffer) == Parse(buffer + Concat(chunks))
    decreases |chunks|
  {
    if chunks == [] {
      assert buffer + "" == buffer;
    } else {
      var text := buffer + chunks[0];
      RestIsUnfinished(text);
      ChunkingInvisible(chunks[1..], Parse(text).1);
      ParseAppend(text, Concat(chunks[1..]));
      Regroup(buffer, chunks[0], Concat(chunks[1..]));
    }
  }

  // ---- _event ----

  /** One Server-Sent Event, its data already JSON text. */
  function Encode(e: Event): string {
    Body(e) + "\n\n"
  }

  function Body(e: Event): string {
    "event: " + e.name + "\ndata: " + e.data
  }

  ghost predicate OneLine(s: string) {
    '\n' !in s
  }

  ghost predicate Sendable(e: Event) {
    OneLine(e.name) && OneLine(e.data)
  }

  function EncodeAll(es: seq<Event>): string {
    if es == [] then "" else Encode(es[0]) + EncodeAll(es[1..])
  }

  /** No blank line yet: neither inside nor completed by a following newline. */
  ghost predicate NoBreak(s: string) {
    forall i :: 0 <= i < |s| - 1 ==> !(s[i] == '\n' && s[i + 1] == '\n')
  }

  lemma {:induction false} CutAtBreak(a: string, rest: string)
    requires NoBreak(a) && (a != "" ==> a[|a| - 1] != '\n')
    ensures Cut(a + "\n\n" + rest) == Some((a, rest))
  {
    var s := a + "\n\n" + rest;
    if a == "" {
      assert s[2..] == rest;
    } else {
      assert s[1..] == a[1..] + "\n\n" + rest;
      assert forall i :: 0 <= i < |a[1..]| ==> a[1..][i] == a[i + 1];
      CutAtBreak(a[1..], rest);
      assert !(s[0] == '\n' && s[1] == '\n') by {
        if |a| > 1 { assert s[0] == a[0] && s[1] == a[1]; }
      }
      assert [s[0]] + a[1..] == a;
    }
  }

  lemma {:induction false} CutNone(s: string)
    requires NoBreak(s)
    ensures Cut(s) == None
  {
    if |s| >= 2 {
      assert forall i :: 0 <= i < |s[1..]| ==> s[1..][i] == s[i + 1];
      CutNone(s[1..]);
    }
  }

  lemma {:induction false} LinesOfOne(s: string)
    requires OneLine(s)
    ensures Lines(s) == [s]
  {
    if s != "" {
      assert s[0] in s;
      assert forall c :: c in s[1..] ==> c in s;
      LinesOfOne(s[1..]);
      assert [s[0]] + s[1..] == s;
    }
  }

  lemma {:induction false} LinesOfTwo(a: string, b: string)
    requires OneLine(a)
    ensures Lines(a + "\n" + b) == [a] + Lines(b)
  {
    var s := a + "\n" + b;
    if a == "" {
      assert s[1..] == b;
    } else {
      assert s[1..] == a[1..] + "\n" + b;
      assert a[0] in a;
      assert forall c :: c in a[1..] ==> c in a;
      LinesOfTwo(a[1..], b);
      var lines := Lines(s[1..]);
      assert lines[0] == a[1..] && lines[1..] == Lines(b) && s[0] == a[0];
      assert [s[0]] + a[1..] == a;
    }
  }

  lemma BodyParses(e: Event)
    requires Sendable(e)
    ensures ParseBlock(Body(e)) == Some(e)
  {
    var head, tail := "event: " + e.name, "data: " + e.data;
    assert Body(e) == head + "\n" + tail;
    assert OneLine(head) && OneLine(tail);
    LinesOfTwo(head, tail);
    LinesOfOne(tail);
    assert head[..7] == "event: " && head[7..] == e.name;
    assert tail[..6] == "data: " && tail[6..] == e.data;
    assert !("event: " <= tail) by {
      assert tail[0] == 'd' && "event: "[0] == 'e';
    }
    assert [head, tail][1..] == [tail];
    var none: seq<string> := [];
    assert none + [tail[6..]] == [e.data];
    assert ReadLine("message", none, head) == (e.name, none) && ReadLine(e.name, none, tail) == (e.name, [e.data]);
    assert Lines(Body(e)) == [head, tail];
    assert ReadLines("message", none, [head, tail]) == ReadLines(e.name, none, [tail]);
    assert ReadLines(e.name, none, [tail]) == ReadLines(e.name, [e.data], [tail][1..]);
  }

  lemma EncodedHead(e: Event, rest: string)
    requires Sendable(e)
    ensures Parse(Encode(e) + rest) == ([e] + Parse(rest).0, Parse(rest).1)
  {
    CutAtBreak(Body(e), rest);
    assert Encode(e) + rest == Body(e) + "\n\n" + rest;
    BodyParses(e);
    var blocks := Blocks(rest).0;
    assert Blocks(Encode(e) + rest) == ([Body(e)] + blocks, Blocks(rest).1);
    assert ([Body(e)] + blocks)[1..] == blocks;
  }

  lemma PartialEvent(e: Event, part: string)
    requires Sendable(e) && part < Encode(e)
    ensures Parse(part) == ([], part)
  {
    var s := Body(e) + "\n";
    assert Encode(e) == s + "\n";
    assert forall i :: 0 <= i < |part| ==> part[i] == s[i];
    CutNone(part);
    assert Blocks(part) == ([], part);
  }

  /** `text` holds exactly the first `m` events whole. */
  ghost predicate Holds(es: seq<Event>, text: string, m: nat) {
    && m <= |es| && Parse(text).0 == es[..m] && EncodeAll(es[..m]) <= text
    && (m < |es| ==> |text| < |EncodeAll(es[..m + 1])|)
    && (text == EncodeAll(es) ==> m == |es| && Parse(text) == (es, ""))
  }

  lemma HoldsNone(es: seq<Event>, text: string)
    requires es != [] && Sendable(es[0]) && text < Encode(es[0])
    ensures Holds(es, text, 0)
  {
    PartialEvent(es[0], text);
    assert es[..1] == [es[0]] && es[..1][1..] == [];
    assert EncodeAll(es[..1]) == Encode(es[0]) + "";
    assert |EncodeAll(es)| >= |Encode(es[0])|;
  }

  lemma EncodeCons(es: seq<Event>, m: nat)
    requires m < |es|
    ensures EncodeAll(es[..m + 1]) == Encode(es[0]) + EncodeAll(es[1..][..m])
  {
    assert es[..m + 1][1..] == es[1..][..m];
  }

  lemma HoldsOneMore(es: seq<Event>, rest: string, n: nat)
    requires es != [] && Sendable(es[0]) && Holds(es[1..], rest, n)
    ensures Holds(es, Encode(es[0]) + rest, n + 1)
  {
    EncodedHead(es[0], rest);
    EncodeCons(es, n);
    assert es[..n + 1] == [es[0]] + es[1..][..n];
    if n + 1 < |es| { EncodeCons(es, n + 1); }
    SameTail(Encode(es[0]), rest, EncodeAll(es[1..]));
    assert es == [es[0]] + es[1..];
  }

  lemma SameTail(head: string, a: string, b: string)
    ensures head + a == head + b ==> a == b
    ensures head + a <= head + b ==> a <= b
  {
    assert (head + a)[|head|..] == a && (head + b)[|head|..] == b;
    assert |a| <= |b| ==> (head + b)[..|head + a|] == head + b[..|a|];
    assert |a| <= |b| ==> (head + b[..|a|])[|head|..] == b[..|a|];
  }

  /** Any prefix of a sent stream parses to the events wholly inside it; the whole stream, to
      exactly the events sent. */
  lemma {:induction false} PrefixParses(es: seq<Event>, text: string)
    requires (forall i :: 0 <= i < |es| ==> Sendable(es[i])) && text <= EncodeAll(es)
    ensures exists m: nat :: Holds(es, text, m)
  {
    if es == [] {
      assert Blocks("") == ([], "");
      assert Holds(es, text, 0);
    } else {
      var head := Encode(es[0]);
      if |text| < |head| {
        assert text < head;
        HoldsNone(es, text);
      } else {
        assert text == head + text[|head|..];
        SameTail(head, text[|head|..], EncodeAll(es[1..]));
        PrefixParses(es[1..], text[|head|..]);
        var n: nat :| Holds(es[1..], text[|head|..], n);
        HoldsOneMore(es, text[|head|..], n);
      }
    }
  }

  // ---- Payloads and the server's run ----

  datatype Payload =
    | InterpretationData(json: string)
    | ResultsData(json: string)
    | SummaryData(text: string)
    | DoneData(summaryTokens: nat)
    | ErrorData(message: string)

  datatype Codec = Codec(dumps: Payload -> string, parse: string -> Option<Payload>)

  /** JSON text reads back, and never holds a raw newline. */
  ghost predicate IsCodec(json: Codec) {
    forall p :: json.parse(json.dumps(p)) == Some(p) && OneLine(json.dumps(p))
  }

  datatype Ending = Finished(tokens: nat) | Broken

  type Message = (string, Payload)

  /** What `events()` yields: the pieces of the summary until it ends or fails; no items, no pieces. */
  function ServerRun(interpretation: string, results: string, pieces: seq<string>, ending: Ending): (r: seq<Message>)
    ensures |r| == |pieces| + 3
    ensures r[0] == ("interpretation", InterpretationData(interpretation)) && r[1] == ("results", ResultsData(results))
    ensures forall i :: 0 <= i < |pieces| ==> r[i + 2] == ("summary", SummaryData(pieces[i]))
    ensures r[|pieces| + 2] == match ending
                               case Finished(n) => ("done", DoneData(n))
                               case Broken => ("error", ErrorData("The summary could not be written."))
  {
    [("interpretation", InterpretationData(interpretation)), ("results", ResultsData(results))]
    + seq(|pieces|, i requires 0 <= i < |pieces| => ("summary", SummaryData(pieces[i])))
    + [match ending
       case Finished(n) => ("done", DoneData(n))
       case Broken => ("error", ErrorData("The summary could not be written."))]
  }

  function Sent(run: seq<Message>, json: Codec): seq<Event>
  {
    seq(|run|, i requires 0 <= i < |run| => Event(run[i].0, json.dumps(run[i].1)))
  }

  // ---- The browser's state ----

  datatype Status = Idle | Searching | Writing | Done | Error

  datatype AskState = AskState(
    status: Status, interpretation: Option<Payload>, results: Option<Payload>, summary: string,
    summaryFailed: bool, summaryTokens: Option<nat>)

  const ASKED := AskState(Searching, None, None, "", false, Some(0))

  function TextOf(p: Payload): string {
    if p.SummaryData? then p.text else "undefined"
  }

  function TokensOf(p: Payload): Option<nat> {
    if p.DoneData? then Some(p.summaryTokens) else None
  }

  /** The reducer of the switch. */
  function Reduce(s: AskState, m: Message): AskState {
    if m.0 == "interpretation" then s.(interpretation := Some(m.1))
    else if m.0 == "results" then s.(results := Some(m.1), status := Writing)
    else if m.0 == "summary" then s.(summary := s.summary + TextOf(m.1))
    else if m.0 == "done" then s.(status := Done, summaryTokens := TokensOf(m.1))
    else if m.0 == "error" then s.(status := Done, summaryFailed := true)
    else s
  }

  function Fold(s: AskState, ms: seq<Message>): AskState
    decreases |ms|
  {
    if ms == [] then s else Fold(Reduce(s, ms[0]), ms[1..])
  }

  /** `JSON.parse` of every event's data; None when one throws. */
  function Decode(es: seq<Event>, json: Codec): Option<seq<Message>> {
    if es == [] then Some([])
    else
      match (json.parse(es[0].data), Decode(es[1..], json))
      case (Some(p), Some(rest)) => Some([(es[0].name, p)] + rest)
      case _ => None
  }

  /** The stream is over: a rejected read is an error; after a clean end, a page still writing was cut off. */
  function Close(s: AskState, rejects: bool): AskState {
    if rejects then s.(status := Error)
    else if s.status.Writing? then s.(status := Done, summaryFailed := true)
    else s
  }

  /** After `chunks` the stream ends or, if `rejects`, the next read fails. */
  function Read(chunks: seq<string>, rejects: bool, buffer: string, s: AskState, json: Codec): AskState
    decreases |chunks|
  {
    if chunks == [] then Close(s, rejects)
    else
      var (events, rest) := Parse(buffer + chunks[0]);
      match Decode(events, json)
      case None => s.(status := Error)
      case Some(ms) => Read(chunks[1..], rejects, rest, Fold(s, ms), json)
  }

  method ReadLoop(chunks: seq<string>, rejects: bool, json: Codec) returns (state: AskState)
    ensures state == Read(chunks, rejects, "", ASKED, json)
  {
    state := ASKED;
    var buffer: string := "";
    for i := 0 to |chunks|
      invariant Read(chunks[i..], rejects, buffer, state, json) == Read(chunks, rejects, "", ASKED, json)
    {
      assert chunks[i..][1..] == chunks[i + 1..];
      var events, rest := ParseEvents(buffer + chunks[i]);
      var decoded := Decode(events, json);
      if decoded.None? {
        state := state.(status := Error);
        return;
      }
      buffer := rest;
      ghost var before := state;
      var ms := decoded.value;
      for j := 0 to |ms|
        invariant Fold(state, ms[j..]) == Fold(before, ms)
      {
        assert ms[j..][1..] == ms[j + 1..];
        state := Reduce(state, ms[j]);
      }
    }
    if rejects {
      state := state.(status := Error);
    } else if state.status.Writing? {
      state := state.(status := Done, summaryFailed := true);
    }
  }

  // ---- From the server's run to the browser's state ----

  lemma {:induction false} DecodeAppend(a: seq<Event>, b: seq<Event>, json: Codec)
    ensures Decode(a + b, json).Some? <==> Decode(a, json).Some? && Decode(b, json).Some?
    ensures Decode(a + b, json).Some? ==> Decode(a + b, json).value == Decode(a, json).value + Decode(b, json).value
  {
    if a == [] {
      assert a + b == b;
    } else {
      assert (a + b)[1..] == a[1..] + b;
      DecodeAppend(a[1..], b, json);
    }
  }

  lemma {:induction false} FoldAppend(s: AskState, a: seq<Message>, b: seq<Message>)
    ensures Fold(s, a + b) == Fold(Fold(s, a), b)
    decreases |a|
  {
    if a == [] {
      assert a + b == b;
    } else {
      assert (a + b)[1..] == a[1..] + b;
      FoldAppend(Reduce(s, a[0]), a[1..], b);
    }
  }

  /** The state after reading depends on the text, not on its chunks. */
  lemma {:induction false} ReadWhole(chunks: seq<string>, rejects: bool, buffer: string, s: AskState, json: Codec)
    requires Parse(buffer) == ([], buffer)
    requires Decode(Parse(buffer + Concat(chunks)).0, json).Some?
    ensures Read(chunks, rejects, buffer, s, json)
         == Close(Fold(s, Decode(Parse(buffer + Concat(chunks)).0, json).value), rejects)
    decreases |chunks|
  {
    if chunks == [] {
      assert buffer + "" == buffer;
    } else {
      var text, later := buffer + chunks[0], Concat(chunks[1..]);
      var (events, rest) := Parse(text);
      assert buffer + Concat(chunks) == text + later;
      ParseAppend(text, later);
      DecodeAppend(events, Parse(rest + later).0, json);
      RestIsUnfinished(text);
      var ms := Decode(events, json).value;
      ReadWhole(chunks[1..], rejects, rest, Fold(s, ms), json);
      FoldAppend(s, ms, Decode(Parse(rest + later).0, json).value);
    }
  }

  /** When some event's data is not JSON, the page ends in an error however the text is split. */
  lemma {:induction false} UnreadableIsAnError(chunks: seq<string>, rejects: bool, buffer: string, s: AskState,
                                               json: Codec)
    requires Parse(buffer) == ([], buffer)
    requires Decode(Parse(buffer + Concat(chunks)).0, json).None?
    ensures Read(chunks, rejects, buffer, s, json).status == Error
    decreases |chunks|
  {
    assert chunks == [] ==> buffer + Concat(chunks) == buffer;
    if chunks != [] {
      var text, later := buffer + chunks[0], Concat(chunks[1..]);
      var (events, rest) := Parse(text);
      assert buffer + Concat(chunks) == text + later;
      ParseAppend(text, later);
      DecodeAppend(events, Parse(rest + later).0, json);
      RestIsUnfinished(text);
      if Decode(events, json).Some? {
        UnreadableIsAnError(chunks[1..], rejects, rest, Fold(s, Decode(events, json).value), json);
      }
    }
  }

  /** The server's last word settles the page: done with its tokens, or failed. */
  lemma {:induction false} LastWordSettles(s: AskState, ms: seq<Message>, p: Payload)
    ensures var r := Fold(s, ms + [("error", p)]); r.status == Done && r.summaryFailed
    ensures var r := Fold(s, ms + [("done", p)]); r.status == Done && r.summaryFailed == Fold(s, ms).summaryFailed
  {
    FoldAppend(s, ms, [("error", p)]);
    FoldAppend(s, ms, [("done", p)]);
    assert forall m: Message :: [m][1..] == [];
  }

  lemma {:induction false} DecodeSent(run: seq<Message>, json: Codec)
    requires IsCodec(json)
    ensures Decode(Sent(run, json), json) == Some(run)
  {
    if run != [] {
      assert Sent(run, json)[1..] == Sent(run[1..], json);
      assert Sent(run, json)[0] == Event(run[0].0, json.dumps(run[0].1));
      DecodeSent(run[1..], json);
      assert run == [run[0]] + run[1..];
    }
  }

  lemma {:induction false} FoldPieces(s: AskState, ms: seq<Message>, pieces: seq<string>)
    requires |ms| == |pieces| && forall i :: 0 <= i < |ms| ==> ms[i] == ("summary", SummaryData(pieces[i]))
    ensures Fold(s, ms) == s.(summary := s.summary + Concat(pieces))
    decreases |ms|
  {
    if ms == [] {
      assert s.summary + "" == s.summary;
    } else {
      FoldPieces(Reduce(s, ms[0]), ms[1..], pieces[1..]);
      assert s.summary + Concat(pieces) == s.summary + pieces[0] + Concat(pieces[1..]);
    }
  }

  /** The page after the first `m` messages of a run, once the stream is over. A rejected read shows an error
      and keeps what arrived; a clean end before the results leaves the page "searching". */
  function PageAfter(interpretation: string, results: string, pieces: seq<string>, ending: Ending, m: nat,
                     rejects: bool): AskState
    requires m <= |pieces| + 3
  {
    var complete := m == |pieces| + 3;
    if m < 2 then
      ASKED.(interpretation := if m == 0 then None else Some(InterpretationData(interpretation)),
             status := if rejects then Error else Searching)
    else
      AskState(if rejects then Error else Done, Some(InterpretationData(interpretation)), Some(ResultsData(results)),
               Concat(if complete then pieces else pieces[..m - 2]),
               if complete then ending.Broken? else !rejects,
               if complete && ending.Finished? then Some(ending.tokens) else Some(0))
  }

  function WritingState(interpretation: string, results: string): AskState {
    AskState(Writing, Some(InterpretationData(interpretation)), Some(ResultsData(results)), "", false, Some(0))
  }

  lemma FoldStart(interpretation: string, results: string, pieces: seq<string>, ending: Ending)
    ensures Fold(ASKED, ServerRun(interpretation, results, pieces, ending)[..2])
         == WritingState(interpretation, results)
  {
    var start := ServerRun(interpretation, results, pieces, ending)[..2];
    var after := start[1..];
    assert Fold(ASKED, start) == Fold(Reduce(ASKED, start[0]), after);
    assert Fold(Reduce(ASKED, start[0]), after) == Fold(Reduce(Reduce(ASKED, start[0]), after[0]), after[1..]);
    assert after[1..] == [];
  }

  lemma FoldMiddle(interpretation: string, results: string, pieces: seq<string>, ending: Ending, k: nat)
    requires k <= |pieces|
    ensures Fold(ASKED, ServerRun(interpretation, results, pieces, ending)[..k + 2])
         == WritingState(interpretation, results).(summary := Concat(pieces[..k]))
  {
    var run := ServerRun(interpretation, results, pieces, ending);
    var middle := run[2..k + 2];
    assert run[..k + 2] == run[..2] + middle;
    FoldStart(interpretation, results, pieces, ending);
    FoldAppend(ASKED, run[..2], middle);
    forall i | 0 <= i < k ensures middle[i] == ("summary", SummaryData(pieces[..k][i])) {
      assert middle[i] == run[i + 2];
    }
    FoldPieces(WritingState(interpretation, results), middle, pieces[..k]);
    assert "" + Concat(pieces[..k]) == Concat(pieces[..k]);
  }

  lemma FoldRun(interpretation: string, results: string, pieces: seq<string>, ending: Ending, m: nat,
                rejects: bool)
    requires m <= |pieces| + 3
    ensures Close(Fold(ASKED, ServerRun(interpretation, results, pieces, ending)[..m]), rejects)
         == PageAfter(interpretation, results, pieces, ending, m, rejects)
  {
    var run := ServerRun(interpretation, results, pieces, ending);
    if m < 2 {
      assert m == 1 ==> run[..m][1..] == [];
    } else if m < |pieces| + 3 {
      FoldMiddle(interpretation, results, pieces, ending, m - 2);
    } else {
      FoldMiddle(interpretation, results, pieces, ending, |pieces|);
      assert pieces[..|pieces|] == pieces;
      var last := [run[|pieces| + 2]];
      assert run[..m] == run[..|pieces| + 2] + last;
      FoldAppend(ASKED, run[..|pieces| + 2], last);
      assert last[1..] == [];
    }
  }

  lemma RunIsSendable(interpretation: string, results: string, pieces: seq<string>, ending: Ending, json: Codec, i: nat)
    requires IsCodec(json) && i < |pieces| + 3
    ensures Sendable(Sent(ServerRun(interpretation, results, pieces, ending), json)[i])
  {
    var run := ServerRun(interpretation, results, pieces, ending);
    if 2 <= i < |pieces| + 2 {
      assert run[(i - 2) + 2] == ("summary", SummaryData(pieces[i - 2]));
    }
    assert OneLine("interpretation") && OneLine("results") && OneLine("summary") && OneLine("done") && OneLine("error");
  }

  /** Any server run, read whole or cut anywhere, in any chunks. When the stream ends there, the page ends "done"
      exactly when the results arrived whole, with the summary pieces that did, and marked failed exactly when
      the stream did not reach "done"; otherwise it stays "searching". When a read is rejected there, it shows
      an error beside whatever arrived whole. */
  lemma {:induction false} StreamEndsDone(interpretation: string, results: string, pieces: seq<string>, ending: Ending,
                                          chunks: seq<string>, rejects: bool, json: Codec)
    requires IsCodec(json)
    requires Concat(chunks) <= EncodeAll(Sent(ServerRun(interpretation, results, pieces, ending), json))
    ensures exists m: nat ::
              && Holds(Sent(ServerRun(interpretation, results, pieces, ending), json), Concat(chunks), m)
              && Read(chunks, rejects, "", ASKED, json)
                 == PageAfter(interpretation, results, pieces, ending, m, rejects)
    ensures Read(chunks, rejects, "", ASKED, json).status
         == if rejects then Error
            else if EncodeAll(Sent(ServerRun(interpretation, results, pieces, ending), json)[..2]) <= Concat(chunks)
            then Done else Searching
  {
    var run := ServerRun(interpretation, results, pieces, ending);
    var sent := Sent(run, json);
    forall i | 0 <= i < |sent| ensures Sendable(sent[i]) {
      RunIsSendable(interpretation, results, pieces, ending, json, i);
    }
    PrefixParses(sent, Concat(chunks));
    var m: nat :| Holds(sent, Concat(chunks), m);
    if m < 2 { EncodedPrefixGrows(sent, m + 1, 2); } else { EncodedPrefixGrows(sent, 2, m); }
    ReadSent(run, chunks, rejects, json, m);
    FoldRun(interpretation, results, pieces, ending, m, rejects);
  }

  lemma {:induction false} ReadSent(run: seq<Message>, chunks: seq<string>, rejects: bool, json: Codec, m: nat)
    requires IsCodec(json) && m <= |run| && Parse(Concat(chunks)).0 == Sent(run, json)[..m]
    ensures Read(chunks, rejects, "", ASKED, json) == Close(Fold(ASKED, run[..m]), rejects)
  {
    assert Sent(run, json)[..m] == Sent(run[..m], json);
    DecodeSent(run[..m], json);
    assert "" + Concat(chunks) == Concat(chunks);
    assert Blocks("") == ([], "");
    ReadWhole(chunks, rejects, "", ASKED, json);
  }

  lemma {:induction false} EncodedPrefixGrows(es: seq<Event>, a: nat, b: nat)
    requires a <= b <= |es|
    ensures EncodeAll(es[..a]) <= EncodeAll(es[..b])
  {
    if a > 0 {
      EncodedPrefixGrows(es[1..], a - 1, b - 1);
      EncodeCons(es, a - 1);
      EncodeCons(es, b - 1);
      PrefixBehind(Encode(es[0]), EncodeAll(es[1..][..a - 1]), EncodeAll(es[1..][..b - 1]));
    }
  }

  lemma PrefixBehind(head: string, a: string, b: string)
    requires a <= b
    ensures head + a <= head + b
  {
  }
}
