/**
 * Reading a server-sent event stream back: lastSseMessage of server/routes/appMcp.js, against what
 * the stream of server/routes/a2a.js writes (section 9.2 of the WHATWG HTML Standard).
 */
module Sse {
  import opened Text

  // ---- the regular expressions ------------------------------------------------------------------------

  /** How much of the text /\r?\n/ matches at its start, 0 for no match. */
  function LineBreak(text: string): nat {
    if |text| >= 1 && text[0] == '\n' then 1
    else if |text| >= 2 && text[0] == '\r' && text[1] == '\n' then 2
    else 0
  }

  /** The same for /\r?\n\r?\n/. */
  function BlockBreak(text: string): (n: nat)
    ensures n <= |text|
  {
    var first := LineBreak(text);
    if first == 0 || LineBreak(text[first..]) == 0 then 0 else first + LineBreak(text[first..])
  }

  function Blocks(text: string): (parts: seq<string>)
    ensures parts != []
    decreases |text|
  {
    if text == "" then [""]
    else if BlockBreak(text) > 0 then [""] + Blocks(text[BlockBreak(text)..])
    else
      var rest := Blocks(text[1..]);
      [[text[0]] + rest[0]] + rest[1..]
  }

  function Lines(text: string): (parts: seq<string>)
    ensures parts != []
    decreases |text|
  {
    if text == "" then [""]
    else if LineBreak(text) > 0 then [""] + Lines(text[LineBreak(text)..])
    else
      var rest := Lines(text[1..]);
      [[text[0]] + rest[0]] + rest[1..]
  }

  // ---- the reader -----------------------------------------------------------------------------------------

  predicate White(c: char) {
    c in " \t\n\r" || c in ['\U{000B}', '\U{000C}', '\U{00A0}', '\U{1680}', '\U{2028}', '\U{2029}', '\U{202F}', '\U{205F}',
                            '\U{3000}', '\U{FEFF}'] || '\U{2000}' <= c <= '\U{200A}'
  }

  function TrimStart(s: string): string {
    if s != "" && White(s[0]) then TrimStart(s[1..]) else s
  }

  predicate StartsWith(s: string, prefix: string) {
    |prefix| <= |s| && s[..|prefix|] == prefix
  }

  function DataLines(lines: seq<string>): seq<string> {
    if lines == [] then []
    else (if StartsWith(lines[0], "data:") then [TrimStart(lines[0][5..])] else []) + DataLines(lines[1..])
  }

  function Data(block: string): string {
    Join(DataLines(Lines(block)), '\n')
  }

  datatype Message<T> = Message(id: int, body: T)

  /** JSON.parse followed by the truthiness test: None for text that is not JSON, and for null or 0. */
  type Parse<!T> = string -> Option<Message<T>>

  function MessageOf<T>(parse: Parse<T>, block: string): Option<Message<T>> {
    if Data(block) == "" then None else parse(Data(block))
  }

  function Kept<T>(m: Option<Message<T>>): seq<Message<T>> {
    if m == None then [] else [m.value]
  }

  function Messages<T>(parse: Parse<T>, blocks: seq<string>): seq<Message<T>> {
    if blocks == [] then [] else Kept(MessageOf(parse, blocks[0])) + Messages(parse, blocks[1..])
  }

  /** The last message with this id; without one, the first message. */
  function Wanted<T>(messages: seq<Message<T>>, id: int): Option<Message<T>> {
    if exists i | 0 <= i < |messages| :: messages[i].id == id then LastWithId(messages, id)
    else if messages == [] then None
    else Some(messages[0])
  }

  function LastWithId<T>(messages: seq<Message<T>>, id: int): Option<Message<T>> {
    if messages == [] then None
    else if messages[|messages| - 1].id == id then Some(messages[|messages| - 1])
    else LastWithId(messages[..|messages| - 1], id)
  }

  lemma WantedAfter<T>(messages: seq<Message<T>>, m: Message<T>, id: int)
    ensures Wanted(messages + [m], id) ==
      if m.id == id || Wanted(messages, id) == None then Some(m) else Wanted(messages, id)
  {
    var all := messages + [m];
    assert all[..|all| - 1] == messages;
    assert all[|messages|] == m && forall i | 0 <= i < |messages| :: all[i] == messages[i];
    if exists i | 0 <= i < |messages| :: messages[i].id == id {
      LastWithIdFound(messages, id);
    }
  }

  lemma {:induction false} LastWithIdFound<T>(messages: seq<Message<T>>, id: int)
    requires exists i | 0 <= i < |messages| :: messages[i].id == id
    ensures LastWithId(messages, id) != None
  {
    if messages[|messages| - 1].id != id {
      var i :| 0 <= i < |messages| && messages[i].id == id;
      assert messages[..|messages| - 1][i] == messages[i];
      LastWithIdFound(messages[..|messages| - 1], id);
    }
  }

  lemma {:induction false} MessagesSnoc<T>(parse: Parse<T>, blocks: seq<string>, block: string)
    ensures Messages(parse, blocks + [block]) == Messages(parse, blocks) + Kept(MessageOf(parse, block))
  {
    if blocks == [] {
      assert blocks + [block] == [block] && Messages(parse, [block][1..]) == [];
    } else {
      var first, last := Kept(MessageOf(parse, blocks[0])), Kept(MessageOf(parse, block));
      assert (blocks + [block])[1..] == blocks[1..] + [block];
      MessagesSnoc(parse, blocks[1..], block);
      assert first + (Messages(parse, blocks[1..]) + last) == first + Messages(parse, blocks[1..]) + last;
    }
  }

  lemma OneMoreBlock<T>(parse: Parse<T>, blocks: seq<string>, i: nat, id: int)
    requires i < |blocks|
    ensures var before, m := Wanted(Messages(parse, blocks[..i]), id), MessageOf(parse, blocks[i]);
            Wanted(Messages(parse, blocks[..i + 1]), id) ==
              if m != None && (m.value.id == id || before == None) then m else before
  {
    assert blocks[..i + 1] == blocks[..i] + [blocks[i]];
    MessagesSnoc(parse, blocks[..i], blocks[i]);
    var m := MessageOf(parse, blocks[i]);
    if m == None {
      assert Messages(parse, blocks[..i]) + [] == Messages(parse, blocks[..i]);
    } else {
      WantedAfter(Messages(parse, blocks[..i]), m.value, id);
    }
  }

  /** The loop over the blocks. */
  method LastOfBlocks<T(==)>(blocks: seq<string>, id: int, parse: Parse<T>) returns (found: Option<Message<T>>)
    ensures found == Wanted(Messages(parse, blocks), id)
  {
    found := None;
    var i := 0;
    while i < |blocks|
      invariant 0 <= i <= |blocks|
      invariant found == Wanted(Messages(parse, blocks[..i]), id)
    {
      OneMoreBlock(parse, blocks, i, id);
      var data := Data(blocks[i]);
      if data != "" {
        var msg := parse(data);
        if msg != None && (msg.value.id == id || found == None) { found := msg; }
      }
      i := i + 1;
    }
    assert blocks[..|blocks|] == blocks;
  }

  method LastSseMessage<T(==)>(text: string, id: int, parse: Parse<T>) returns (found: Option<Message<T>>)
    ensures found == Wanted(Messages(parse, Blocks(text)), id)
  {
    found := LastOfBlocks(Blocks(text), id, parse);
  }

  // ---- what a stream writes -------------------------------------------------------------------------------

  /** The two line ends the reader knows. */
  predicate LineEnd(eol: string) {
    eol == "\n" || eol == "\r\n"
  }

  /** An event's data, line by line, or a comment in between. */
  datatype Frame = Event(data: seq<string>) | Heartbeat

  function FieldLines(data: seq<string>): seq<string> {
    if data == [] then [] else ["data: " + data[0]] + FieldLines(data[1..])
  }

  function WrittenLines(f: Frame): seq<string> {
    if f.Event? then FieldLines(f.data) else [": keep-alive"]
  }

  function JoinLines(lines: seq<string>, eol: string): string {
    if lines == [] then "" else if |lines| == 1 then lines[0] else lines[0] + eol + JoinLines(lines[1..], eol)
  }

  function Wire(frames: seq<Frame>, eol: string): string {
    if frames == [] then ""
    else JoinLines(WrittenLines(frames[0]), eol) + (eol + eol + Wire(frames[1..], eol))
  }

  /** A line of data that survives trimming at its start: empty, or not starting with white space. */
  predicate DataLine(line: string) {
    (line == "" || !White(line[0])) && '\n' !in line && '\r' !in line
  }

  /** JSON text on one line, as JSON.stringify writes an object, or broken over several. */
  predicate Readable<T>(parse: Parse<T>, f: Frame) {
    f.Event? ==>
      && f.data != [] && (forall i | 0 <= i < |f.data| :: DataLine(f.data[i]))
      && Join(f.data, '\n') != "" && parse(Join(f.data, '\n')) != None
  }

  function Sent<T>(parse: Parse<T>, frames: seq<Frame>): seq<Message<T>>
    requires forall i | 0 <= i < |frames| :: Readable(parse, frames[i])
  {
    if frames == [] then []
    else
      assert Readable(parse, frames[0]);
      (if frames[0].Event? then [parse(Join(frames[0].data, '\n')).value] else []) + Sent(parse, frames[1..])
  }

  predicate PlainLine(line: string) {
    line != "" && '\n' !in line && '\r' !in line
  }

  lemma {:induction false} LinesOfOne(text: string)
    requires '\n' !in text
    ensures Lines(text) == [text]
  {
    if text != "" {
      assert text == [text[0]] + text[1..];
      LinesOfOne(text[1..]);
    }
  }

  lemma {:induction false} LinesAfter(line: string, eol: string, rest: string)
    requires '\n' !in line && '\r' !in line && LineEnd(eol)
    ensures Lines(line + (eol + rest)) == [line] + Lines(rest)
  {
    var text := line + (eol + rest);
    if line == "" {
      assert text == eol + rest && text[..|eol|] == eol && text[|eol|..] == rest;
      assert text[0] == eol[0] && (|eol| == 2 ==> text[1] == eol[1]);
    } else {
      assert text[0] == line[0] && line[0] in line;
      assert text[1..] == line[1..] + (eol + rest);
      LinesAfter(line[1..], eol, rest);
      assert [line[0]] + line[1..] == line;
    }
  }

  lemma {:induction false} LinesOfJoined(lines: seq<string>, eol: string)
    requires lines != [] && LineEnd(eol) && forall i | 0 <= i < |lines| :: PlainLine(lines[i])
    ensures Lines(JoinLines(lines, eol)) == lines
  {
    if |lines| == 1 {
      LinesOfOne(lines[0]);
    } else {
      LinesOfJoined(lines[1..], eol);
      assert lines[0] + eol + JoinLines(lines[1..], eol) == lines[0] + (eol + JoinLines(lines[1..], eol));
      LinesAfter(lines[0], eol, JoinLines(lines[1..], eol));
      assert [lines[0]] + lines[1..] == lines;
    }
  }

  /** A character that starts no block break goes into the first block. */
  lemma BlocksTakeCharacter(c: char, tail: string, block: string, more: seq<string>)
    requires BlockBreak([c] + tail) == 0 && Blocks(tail) == [block] + more
    ensures Blocks([c] + tail) == [[c] + block] + more
  {
    assert ([c] + tail)[1..] == tail && ([block] + more)[1..] == more;
  }

  /** So does text without line breaks. */
  lemma {:induction false} BlocksTakeLine(line: string, tail: string, block: string, more: seq<string>)
    requires '\n' !in line && '\r' !in line && Blocks(tail) == [block] + more
    ensures Blocks(line + tail) == [line + block] + more
  {
    if line == "" {
      assert line + tail == tail && "" + block == block;
    } else {
      assert line[0] in line;
      BlocksTakeLine(line[1..], tail, block, more);
      BlocksTakeCharacter(line[0], line[1..] + tail, line[1..] + block, more);
      assert [line[0]] + (line[1..] + tail) == line + tail && [line[0]] + (line[1..] + block) == line + block;
    }
  }

  /** And a single line break. */
  lemma BlocksTakeBreak(eol: string, tail: string, block: string, more: seq<string>)
    requires LineEnd(eol) && tail != "" && tail[0] != '\n' && tail[0] != '\r' && Blocks(tail) == [block] + more
    ensures Blocks(eol + tail) == [eol + block] + more
  {
    assert (['\n'] + tail)[1..] == tail;
    BlocksTakeCharacter('\n', tail, block, more);
    if |eol| == 2 {
      var text := ['\r'] + (['\n'] + tail);
      assert text[2..] == tail && text[1] == '\n';
      BlocksTakeCharacter('\r', ['\n'] + tail, ['\n'] + block, more);
      assert text == eol + tail && ['\r'] + (['\n'] + block) == eol + block;
    } else {
      assert ['\n'] + tail == eol + tail && ['\n'] + block == eol + block;
    }
  }

  lemma BlocksAtEmptyLine(eol: string, rest: string)
    requires LineEnd(eol)
    ensures Blocks(eol + eol + rest) == [""] + Blocks(rest)
  {
    var text := eol + eol + rest;
    assert text[|eol|..] == eol + rest && (eol + rest)[0] == eol[0] && text[0] == eol[0];
    assert |eol| == 2 ==> text[1] == eol[1] && (eol + rest)[1] == eol[1];
    assert text[2 * |eol|..] == rest;
  }

  /** The split takes off exactly the lines before the first empty one. */
  lemma {:induction false} BlocksAfter(lines: seq<string>, eol: string, rest: string)
    requires lines != [] && LineEnd(eol) && forall i | 0 <= i < |lines| :: PlainLine(lines[i])
    ensures Blocks(JoinLines(lines, eol) + (eol + eol + rest)) == [JoinLines(lines, eol)] + Blocks(rest)
  {
    var ending := eol + eol + rest;
    if |lines| == 1 {
      BlocksAtEmptyLine(eol, rest);
      BlocksTakeLine(lines[0], ending, "", Blocks(rest));
      assert lines[0] + "" == lines[0];
    } else {
      var inner := JoinLines(lines[1..], eol);
      BlocksAfter(lines[1..], eol, rest);
      FirstCharacter(lines[1..], eol, ending);
      BlocksTakeBreak(eol, inner + ending, inner, Blocks(rest));
      BlocksTakeLine(lines[0], eol + (inner + ending), eol + inner, Blocks(rest));
      Regroup(lines[0], eol, inner, ending);
    }
  }

  lemma Regroup(a: string, b: string, c: string, d: string)
    ensures a + b + c + d == a + (b + (c + d)) && a + (b + c) == a + b + c
  {
  }

  lemma FirstCharacter(lines: seq<string>, eol: string, ending: string)
    requires lines != [] && forall i | 0 <= i < |lines| :: PlainLine(lines[i])
    ensures var text := JoinLines(lines, eol) + ending; text != "" && text[0] != '\n' && text[0] != '\r'
  {
    assert PlainLine(lines[0]) && lines[0][0] in lines[0];
    assert JoinLines(lines, eol)[0] == lines[0][0];
  }

  lemma TrimmedField(line: string)
    requires DataLine(line)
    ensures StartsWith("data: " + line, "data:") && TrimStart(("data: " + line)[5..]) == line && PlainLine("data: " + line)
  {
    var head := "data: ";
    var field := head + line;
    assert head[..5] == "data:" && field[..5] == head[..5];
    assert field[5..] == [' '] + line && ([' '] + line)[1..] == line && White(' ');
    assert '\n' !in head && '\r' !in head;
  }

  /** Any white space in front of a line of data is dropped, not only the one blank written there. */
  lemma {:induction false} AnyPaddingIsTrimmed(padding: string, line: string)
    requires DataLine(line)
    requires forall i | 0 <= i < |padding| :: padding[i] in {' ', '\t', '\U{00A0}', '\U{FEFF}', '\U{2028}', '\U{2029}', '\U{3000}'}
    ensures TrimStart(padding + line) == line
  {
    if padding == "" {
      assert padding + line == line;
    } else {
      assert padding[0] in {' ', '\t', '\U{00A0}', '\U{FEFF}', '\U{2028}', '\U{2029}', '\U{3000}'};
      assert (padding + line)[0] == padding[0] && (padding + line)[1..] == padding[1..] + line;
      AnyPaddingIsTrimmed(padding[1..], line);
    }
  }

  /** A data field is read with any white space after its colon, or with none. */
  lemma AnyFieldIsRead(padding: string, line: string)
    requires DataLine(line)
    requires forall i | 0 <= i < |padding| :: padding[i] in {' ', '\t', '\U{00A0}', '\U{FEFF}', '\U{2028}', '\U{2029}', '\U{3000}'}
    ensures DataLines(["data:" + padding + line]) == [line]
  {
    var field := "data:" + padding + line;
    assert field[..5] == "data:" && field[5..] == padding + line;
    AnyPaddingIsTrimmed(padding, line);
    var none: seq<string> := [];
    assert [field][1..] == none && DataLines(none) == none;
  }

  lemma {:induction false} DataOfFields(data: seq<string>)
    requires forall i | 0 <= i < |data| :: DataLine(data[i])
    ensures DataLines(FieldLines(data)) == data && |FieldLines(data)| == |data|
    ensures forall i | 0 <= i < |data| :: PlainLine(FieldLines(data)[i])
  {
    if data != [] {
      TrimmedField(data[0]);
      DataOfFields(data[1..]);
      assert FieldLines(data)[1..] == FieldLines(data[1..]);
      assert [data[0]] + data[1..] == data;
    }
  }

  lemma HeartbeatIsNoData()
    ensures PlainLine(": keep-alive") && DataLines([": keep-alive"]) == []
  {
    var line := ": keep-alive";
    assert line[..5] != "data:" by { assert line[..5][0] == ':'; }
    var none: seq<string> := [];
    assert [line][1..] == none;
  }

  /** A written frame is read back as its data, or as nothing. */
  lemma FrameIsRead<T>(parse: Parse<T>, f: Frame, eol: string)
    requires Readable(parse, f) && LineEnd(eol)
    ensures WrittenLines(f) != [] && forall i | 0 <= i < |WrittenLines(f)| :: PlainLine(WrittenLines(f)[i])
    ensures MessageOf(parse, JoinLines(WrittenLines(f), eol)) == if f.Event? then parse(Join(f.data, '\n')) else None
  {
    if f.Event? { DataOfFields(f.data); } else { HeartbeatIsNoData(); }
    LinesOfJoined(WrittenLines(f), eol);
  }

  /**
   * Every event is recovered, once and in order, whatever comments come between, whether lines end
   * in LF or CRLF, and with data of several lines put together again.
   */
  lemma {:induction false} WireIsRead<T>(parse: Parse<T>, frames: seq<Frame>, eol: string)
    requires LineEnd(eol) && forall i | 0 <= i < |frames| :: Readable(parse, frames[i])
    ensures Messages(parse, Blocks(Wire(frames, eol))) == Sent(parse, frames)
  {
    if frames == [] {
      LinesOfOne("");
      assert DataLines([""][1..]) == [];
      assert Data("") == "" && Messages(parse, [""][1..]) == [];
    } else {
      var block, rest := JoinLines(WrittenLines(frames[0]), eol), Wire(frames[1..], eol);
      FrameIsRead(parse, frames[0], eol);
      BlocksAfter(WrittenLines(frames[0]), eol, rest);
      assert ([block] + Blocks(rest))[1..] == Blocks(rest);
      WireIsRead(parse, frames[1..], eol);
    }
  }

  /** Reading back a stream whose events all answer one request gives its last event. */
  lemma WholeStreamGivesItsLastEvent<T>(parse: Parse<T>, frames: seq<Frame>, eol: string, id: int)
    requires LineEnd(eol) && forall i | 0 <= i < |frames| :: Readable(parse, frames[i])
    requires Sent(parse, frames) != [] && forall i | 0 <= i < |Sent(parse, frames)| :: Sent(parse, frames)[i].id == id
    ensures Wanted(Messages(parse, Blocks(Wire(frames, eol))), id) == Some(Sent(parse, frames)[|Sent(parse, frames)| - 1])
  {
    WireIsRead(parse, frames, eol);
    assert Sent(parse, frames)[0].id == id;
  }
}
