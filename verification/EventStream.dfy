/** The text of an event stream: how events are written, and how a client reads them
    following section 9.2.6 of the HTML Standard, "Interpreting an event stream". */
module EventStream {
  import opened Basics
  import Numerals

  predicate IsBreak(c: char) { c == '\r' || c == '\n' }

  predicate Plain(s: string) {
    forall i :: 0 <= i < |s| ==> !IsBreak(s[i])
  }

  /** The length of the first line. */
  function LineEnd(s: string): (n: nat)
    ensures n <= |s| && Plain(s[..n]) && (n < |s| ==> IsBreak(s[n]))
  {
    if s == "" || IsBreak(s[0]) then 0
    else
      var n := LineEnd(s[1..]);
      assert s[..n + 1] == [s[0]] + s[1..][..n];
      n + 1
  }

  /** Where the line after the first one starts. */
  function NextLine(s: string): (n: nat)
    requires LineEnd(s) < |s|
    ensures LineEnd(s) < n <= |s|
  {
    var n := LineEnd(s);
    if s[n] == '\r' && n + 1 < |s| && s[n + 1] == '\n' then n + 2 else n + 1
  }

  /** Splits at every CRLF, LF and CR. */
  function SplitLines(s: string): (lines: seq<string>)
    ensures lines != [] && forall i :: 0 <= i < |lines| ==> Plain(lines[i])
    decreases |s|
  {
    if LineEnd(s) == |s| then [s] else [s[..LineEnd(s)]] + SplitLines(s[NextLine(s)..])
  }

  /** Every CRLF, CR and LF turned into LF. */
  function Unify(s: string): string
    decreases |s|
  {
    if s == "" then ""
    else if s[0] != '\r' then [s[0]] + Unify(s[1..])
    else if |s| > 1 && s[1] == '\n' then "\n" + Unify(s[2..])
    else "\n" + Unify(s[1..])
  }

  function Join(lines: seq<string>): string
    requires lines != []
  {
    if |lines| == 1 then lines[0] else lines[0] + "\n" + Join(lines[1..])
  }

  /** Every line followed by a line feed. */
  function Unlines(lines: seq<string>): string {
    if lines == [] then "" else lines[0] + "\n" + Unlines(lines[1..])
  }

  // ------------------------------------------------------------------ writing

  function Prefixed(name: string, value: string): string { name + ":" + value }

  /** The lines before the empty one. */
  function EventLines(id: string, event: Option<string>, data: Option<string>): seq<string> {
    [Prefixed("id", id)]
    + (if event.Some? && event.value != "message" then [Prefixed("event", event.value)] else [])
    + (if data.Some? then DataLines(SplitLines(data.value)) else [])
  }

  function DataLines(lines: seq<string>): (r: seq<string>)
    ensures |r| == |lines| && forall i :: 0 <= i < |r| ==> r[i] == Prefixed("data", lines[i])
  {
    seq(|lines|, i requires 0 <= i < |lines| => Prefixed("data", lines[i]))
  }

  predicate LegalName(event: Option<string>) {
    event.Some? && event.value != "message" ==> forall c :: c in event.value ==> c != '\r' && c != '\n' && c != ':'
  }

  /** format_event: None where it raises ValueError. */
  method FormatEvent(id: string, event: Option<string>, data: Option<string>) returns (r: Option<string>)
    ensures r.Some? <==> LegalName(event)
    ensures r.Some? ==> r.value == Unlines(EventLines(id, event, data) + [""])
  {
    var result := [Prefixed("id", id)];
    if event.Some? && event.value != "message" {
      if '\r' in event.value || '\n' in event.value || ':' in event.value {
        return None;
      }
      result := result + [Prefixed("event", event.value)];
    }
    if data.Some? {
      var lines := SplitLines(data.value);
      ghost var before := result;
      for i := 0 to |lines|
        invariant result == before + DataLines(lines)[..i]
      {
        result := result + [Prefixed("data", lines[i])];
      }
      assert DataLines(lines)[..|lines|] == DataLines(lines);
    }
    result := result + ["\n"];
    var text := JoinAll(result);
    assert result[..|result| - 1] == EventLines(id, event, data);
    JoinedLines(result[..|result| - 1]);
    r := Some(text);
  }

  /** Joining the pieces with line feeds. */
  method JoinAll(pieces: seq<string>) returns (text: string)
    requires pieces != []
    ensures text == Join(pieces)
  {
    var i := |pieces| - 1;
    text := pieces[i];
    assert pieces[i..] == [pieces[i]];
    while i > 0
      invariant 0 <= i < |pieces| && text == Join(pieces[i..])
    {
      i := i - 1;
      text := pieces[i] + "\n" + text;
      assert pieces[i..][1..] == pieces[i + 1..];
    }
    assert pieces[0..] == pieces;
  }

  lemma {:induction false} JoinedLines(lines: seq<string>)
    ensures Join(lines + ["\n"]) == Unlines(lines + [""])
  {
    if lines == [] {
      assert [""][1..] == [] && Unlines([""]) == "" + "\n" + Unlines([]);
    } else {
      JoinedLines(lines[1..]);
      assert (lines + ["\n"])[1..] == lines[1..] + ["\n"] && (lines + [""])[1..] == lines[1..] + [""];
    }
  }

  // ------------------------------------------------------------------ reading

  datatype Delivered = Delivered(id: string, name: string, data: string)

  /** What the client remembers between two lines. */
  datatype Reader = Reader(lastId: string, idBuffer: string, name: string, data: string)

  function Colon(s: string): (n: nat)
    ensures n <= |s| && (n < |s| ==> s[n] == ':') && forall i :: 0 <= i < n ==> s[i] != ':'
  {
    if s == "" || s[0] == ':' then 0 else Colon(s[1..]) + 1
  }

  function WithoutSpace(s: string): string {
    if s != "" && s[0] == ' ' then s[1..] else s
  }

  function Field(r: Reader, name: string, value: string): Reader {
    if name == "event" then r.(name := value)
    else if name == "data" then r.(data := r.data + value + "\n")
    else if name == "id" then (if '\0' in value then r else r.(idBuffer := value))
    else r
  }

  /** A line that is not empty. */
  function ReadField(r: Reader, line: string): Reader {
    if line != "" && line[0] == ':' then r
    else
      var n := Colon(line);
      if n < |line| then Field(r, line[..n], WithoutSpace(line[n + 1..])) else Field(r, line, "")
  }

  /** The data buffer without the line feed at its end. */
  function Trimmed(data: string): string {
    if data != "" && data[|data| - 1] == '\n' then data[..|data| - 1] else data
  }

  /** What an empty line dispatches. */
  function Dispatched(r: Reader): seq<Delivered> {
    if r.data == "" then []
    else [Delivered(r.idBuffer, if r.name == "" then "message" else r.name, Trimmed(r.data))]
  }

  function ReadLine(r: Reader, line: string): Reader {
    if line == "" then Reader(r.idBuffer, r.idBuffer, "", "") else ReadField(r, line)
  }

  function ReadLines(r: Reader, lines: seq<string>): Reader {
    if lines == [] then r else ReadLine(ReadLines(r, lines[..|lines| - 1]), lines[|lines| - 1])
  }

  function Deliveries(r: Reader, lines: seq<string>): seq<Delivered> {
    if lines == [] then []
    else
      Deliveries(r, lines[..|lines| - 1])
      + (if lines[|lines| - 1] == "" then Dispatched(ReadLines(r, lines[..|lines| - 1])) else [])
  }

  /** The lines that have ended; an unfinished one at the end of the stream is discarded. */
  function Complete(text: string): seq<string> {
    var lines := SplitLines(text);
    lines[..|lines| - 1]
  }

  /** The events that a client that last saw the given id gets from the text of a stream. */
  function Interpret(lastId: string, text: string): seq<Delivered> {
    Deliveries(Reader(lastId, lastId, "", ""), Complete(text))
  }

  /** The id the client sends when it reconnects. */
  function LastId(lastId: string, text: string): string {
    ReadLines(Reader(lastId, lastId, "", ""), Complete(text)).lastId
  }

  // ---------------------------------------------------------- lines of a text

  lemma {:induction false} UnifyPlain(line: string, rest: string)
    requires Plain(line)
    ensures Unify(line + rest) == line + Unify(rest)
  {
    if line == "" {
      assert line + rest == rest;
    } else {
      UnifyPlain(line[1..], rest);
      assert (line + rest)[1..] == line[1..] + rest;
      assert !IsBreak(line[0]);
    }
  }

  /** Splitting into lines and joining them again only turns the line breaks into LF. */
  lemma {:induction false} JoinSplit(s: string)
    ensures Join(SplitLines(s)) == Unify(s)
    decreases |s|
  {
    hide Unify, LineEnd, NextLine;
    var n := LineEnd(s);
    if n == |s| {
      UnifyEmpty();
      UnifyPlain(s, "");
      assert s[..n] == s && s + "" == s;
    } else {
      var rest := s[NextLine(s)..];
      JoinSplit(rest);
      UnifyPlain(s[..n], s[n..]);
      assert s == s[..n] + s[n..];
      assert SplitLines(s)[1..] == SplitLines(rest);
      UnifyBreak(s);
      assert s[..n] + ("\n" + Unify(rest)) == s[..n] + "\n" + Unify(rest);
    }
  }

  lemma UnifyEmpty()
    ensures Unify("") == ""
  {
  }

  lemma UnifyBreak(s: string)
    requires LineEnd(s) < |s|
    ensures Unify(s[LineEnd(s)..]) == "\n" + Unify(s[NextLine(s)..])
  {
    var n := LineEnd(s);
    assert s[n..][1..] == s[n + 1..];
    if s[n] == '\r' && n + 1 < |s| && s[n + 1] == '\n' {
      assert s[n..][2..] == s[n + 2..];
    } else if s[n] == '\n' {
      assert [s[n]] == "\n";
    }
  }

  lemma {:induction false} LineEndAt(line: string, rest: string)
    requires Plain(line)
    ensures LineEnd(line + "\n" + rest) == |line|
  {
    var s := line + "\n" + rest;
    if line != "" {
      LineEndAt(line[1..], rest);
      assert s[1..] == line[1..] + "\n" + rest;
      assert s[0] == line[0] && !IsBreak(line[0]);
    }
  }

  lemma {:induction false} LineEndPlain(line: string)
    requires Plain(line)
    ensures LineEnd(line) == |line|
  {
    if line != "" {
      assert !IsBreak(line[0]);
      LineEndPlain(line[1..]);
    }
  }

  lemma SplitFirst(line: string, rest: string)
    requires Plain(line)
    ensures SplitLines(line + "\n" + rest) == [line] + SplitLines(rest)
  {
    var s := line + "\n" + rest;
    LineEndAt(line, rest);
    assert s[..|line|] == line && s[|line| + 1..] == rest;
  }

  ghost predicate AllPlain(lines: seq<string>) {
    forall i :: 0 <= i < |lines| ==> Plain(lines[i])
  }

  lemma SplitPlain(line: string)
    requires Plain(line)
    ensures SplitLines(line) == [line]
  {
    LineEndPlain(line);
  }

  /** However the text is cut off, the lines that have ended are the first lines. */
  lemma {:induction false} CutLines(lines: seq<string>, cut: nat) returns (n: nat)
    requires AllPlain(lines) && cut <= |Unlines(lines)|
    ensures n <= |lines| && Complete(Unlines(lines)[..cut]) == lines[..n]
    ensures cut == |Unlines(lines)| ==> n == |lines|
  {
    hide SplitLines, LineEnd;
    if lines == [] || cut <= |lines[0]| {
      n := 0;
      var text := Unlines(lines)[..cut];
      assert lines != [] ==> text == lines[0][..cut];
      SplitPlain(text);
    } else {
      var rest := Unlines(lines[1..]);
      var more := cut - |lines[0]| - 1;
      var m := CutLines(lines[1..], more);
      assert Unlines(lines)[..cut] == lines[0] + "\n" + rest[..more];
      SplitFirst(lines[0], rest[..more]);
      n := m + 1;
      var inner := SplitLines(rest[..more]);
      assert ([lines[0]] + inner)[..|inner|] == [lines[0]] + inner[..|inner| - 1];
      assert lines[..n] == [lines[0]] + lines[1..][..m];
    }
  }

  // --------------------------------------------------------- reading in pieces

  lemma {:induction false} ReadMore(r: Reader, a: seq<string>, b: seq<string>)
    ensures ReadLines(r, a + b) == ReadLines(ReadLines(r, a), b)
    ensures Deliveries(r, a + b) == Deliveries(r, a) + Deliveries(ReadLines(r, a), b)
  {
    hide ReadLine, Dispatched;
    if b == [] {
      assert a + b == a;
    } else {
      var c := b[..|b| - 1];
      ReadMore(r, a, c);
      assert (a + b)[..|a + b| - 1] == a + c;
    }
  }

  /** Without an empty line nothing is delivered and the last id stays. */
  lemma {:induction false} NoEmptyLine(r: Reader, lines: seq<string>)
    requires forall i :: 0 <= i < |lines| ==> lines[i] != ""
    ensures Deliveries(r, lines) == [] && ReadLines(r, lines).lastId == r.lastId
  {
    if lines != [] {
      NoEmptyLine(r, lines[..|lines| - 1]);
    }
  }

  /** The lines with a space at their start removed, each followed by a line feed. */
  function Buffered(lines: seq<string>): string {
    if lines == [] then "" else Buffered(lines[..|lines| - 1]) + WithoutSpace(lines[|lines| - 1]) + "\n"
  }

  lemma ReadOne(r: Reader, line: string)
    ensures ReadLines(r, [line]) == ReadLine(r, line)
    ensures Deliveries(r, [line]) == if line == "" then Dispatched(r) else []
  {
    assert [line][..0] == [];
  }

  lemma {:induction false} ReadData(r: Reader, lines: seq<string>)
    ensures ReadLines(r, DataLines(lines)) == r.(data := r.data + Buffered(lines))
  {
    hide ReadLine, WithoutSpace, Prefixed;
    if lines == [] {
      assert r.data + "" == r.data;
    } else {
      var prior := lines[..|lines| - 1];
      var last := lines[|lines| - 1];
      ReadData(r, prior);
      assert DataLines(lines)[..|lines| - 1] == DataLines(prior);
      ReadPrefixed("data", last, ReadLines(r, DataLines(prior)));
      assert r.data + Buffered(prior) + WithoutSpace(last) + "\n" ==
             r.data + (Buffered(prior) + WithoutSpace(last) + "\n");
    }
  }

  lemma {:induction false} ColonAt(name: string, value: string)
    requires ':' !in name
    ensures Colon(name + ":" + value) == |name|
  {
    if name != "" {
      ColonAt(name[1..], value);
      assert (name + ":" + value)[1..] == name[1..] + ":" + value;
    }
  }

  lemma ReadPrefixed(name: string, value: string, r: Reader)
    requires name != "" && ':' !in name
    ensures Prefixed(name, value) != "" && ReadLine(r, Prefixed(name, value)) == Field(r, name, WithoutSpace(value))
  {
    var line := Prefixed(name, value);
    ColonAt(name, value);
    assert line[0] == name[0] && line[..|name|] == name && line[|name| + 1..] == value;
  }

  // ------------------------------------------------------------ one event

  /** An id that passes through the stream as it is: hexadecimal ids do. */
  ghost predicate CleanId(id: string) {
    Plain(id) && '\0' !in id && (id == "" || id[0] != ' ')
  }

  lemma HexIsClean(n: nat)
    ensures CleanId(Numerals.Show(n, 16))
  {
    var id := Numerals.Show(n, 16);
    assert Numerals.AreDigits(id, 16);
    forall i | 0 <= i < |id|
      ensures !IsBreak(id[i]) && id[i] != ' ' && id[i] != '\0'
    {
      assert Numerals.DigitValue(id[i]) < 16;
    }
  }

  function NameOf(event: Option<string>): string {
    if event.Some? then event.value else "message"
  }

  /** The reader when the empty line of an event comes. */
  lemma ReadEvent(r: Reader, id: string, event: Option<string>, data: Option<string>)
    requires CleanId(id) && r.data == "" && r.name == ""
    ensures ReadLines(r, EventLines(id, event, data)) ==
            Reader(r.lastId, id,
                   if event.Some? && event.value != "message" then WithoutSpace(event.value) else "",
                   if data.Some? then Buffered(SplitLines(data.value)) else "")
  {
    hide ReadLine, WithoutSpace, Prefixed, ReadLines, Buffered, Deliveries, SplitLines;
    var head := Prefixed("id", id);
    var texts := if data.Some? then SplitLines(data.value) else [];
    IdIsKept(r, id);
    ReadOne(r, head);
    var a := r.(idBuffer := id);
    var named := if event.Some? && event.value != "message" then [Prefixed("event", event.value)] else [];
    var b := a.(name := if named != [] then WithoutSpace(event.value) else "");
    assert ReadLines(a, named) == b by {
      if named != [] {
        ReadPrefixed("event", event.value, a);
        ReadOne(a, named[0]);
      } else {
        ReadNothing(a);
      }
    }
    ReadMore(r, [head], named);
    ReadMore(r, [head] + named, DataLines(texts));
    ReadData(b, texts);
    BufferedNothing();
    assert EventLines(id, event, data) == [head] + named + DataLines(texts);
    assert "" + Buffered(texts) == Buffered(texts);
  }

  lemma IdIsKept(r: Reader, id: string)
    requires CleanId(id)
    ensures ReadLine(r, Prefixed("id", id)) == r.(idBuffer := id)
  {
    ReadPrefixed("id", id, r);
  }

  lemma ReadNothing(r: Reader)
    ensures ReadLines(r, []) == r && Deliveries(r, []) == []
  {
  }

  lemma BufferedNothing()
    ensures Buffered([]) == ""
  {
  }

  function Stripped(lines: seq<string>): (r: seq<string>)
    ensures |r| == |lines| && forall i :: 0 <= i < |r| ==> r[i] == WithoutSpace(lines[i])
  {
    seq(|lines|, i requires 0 <= i < |lines| => WithoutSpace(lines[i]))
  }

  lemma {:induction false} JoinMore(lines: seq<string>, last: string)
    requires lines != []
    ensures Join(lines + [last]) == Join(lines) + "\n" + last
  {
    if |lines| == 1 {
      assert (lines + [last])[1..] == [last];
    } else {
      JoinMore(lines[1..], last);
      assert (lines + [last])[1..] == lines[1..] + [last];
    }
  }

  lemma {:induction false} BufferedIsJoined(lines: seq<string>)
    requires lines != []
    ensures Buffered(lines) == Join(Stripped(lines)) + "\n"
  {
    var prior := lines[..|lines| - 1];
    var last := WithoutSpace(lines[|lines| - 1]);
    if prior == [] {
      assert Buffered(lines) == "" + last + "\n";
    } else {
      BufferedIsJoined(prior);
      assert Stripped(lines) == Stripped(prior) + [last];
      JoinMore(Stripped(prior), last);
    }
  }

  ghost predicate NoSpaceFirst(s: string) { s == "" || s[0] != ' ' }

  lemma {:induction false} StrippedIsShorter(lines: seq<string>)
    requires lines != []
    ensures |Join(Stripped(lines))| <= |Join(lines)|
    ensures |Join(Stripped(lines))| == |Join(lines)| <==> forall i :: 0 <= i < |lines| ==> NoSpaceFirst(lines[i])
  {
    if |lines| > 1 {
      StrippedIsShorter(lines[1..]);
      assert Stripped(lines)[1..] == Stripped(lines[1..]);
      assert forall i :: 1 <= i < |lines| ==> lines[i] == lines[1..][i - 1];
    }
  }

  /** Nothing of the event is lost: it has data, and neither its name nor a line of its data
      starts with a space. */
  ghost predicate Faithful(event: Option<string>, data: Option<string>) {
    && data.Some? && (event.Some? ==> event.value != "" && event.value[0] != ' ')
    && forall i :: 0 <= i < |SplitLines(data.value)| ==> NoSpaceFirst(SplitLines(data.value)[i])
  }

  /** A client gets the event as it was sent exactly if it is faithful. */
  lemma EventRoundTrip(r: Reader, id: string, event: Option<string>, data: Option<string>)
    requires CleanId(id) && r.data == "" && r.name == "" && LegalName(event)
    ensures var lines := EventLines(id, event, data) + [""];
      && ReadLines(r, lines) == Reader(id, id, "", "")
      && (Deliveries(r, lines) == [Delivered(id, NameOf(event), Unify(if data.Some? then data.value else ""))] <==>
          Faithful(event, data))
  {
    hide ReadLines, Deliveries, ReadLine, WithoutSpace, Prefixed, Buffered, SplitLines, Unify, Trimmed, Faithful,
        EventLines;
    var lines := EventLines(id, event, data);
    ReadEvent(r, id, event, data);
    LinesAreFull(id, event, data);
    NoEmptyLine(r, lines);
    var b := ReadLines(r, lines);
    ReadMore(r, lines, [""]);
    ReadOne(b, "");
    EmptyLineResets(b);
    WhatIsDelivered(b, id, event, data);
  }

  lemma LinesAreFull(id: string, event: Option<string>, data: Option<string>)
    ensures forall i :: 0 <= i < |EventLines(id, event, data)| ==> EventLines(id, event, data)[i] != ""
  {
  }

  lemma EmptyLineResets(r: Reader)
    ensures ReadLine(r, "") == Reader(r.idBuffer, r.idBuffer, "", "")
  {
  }

  lemma WhatIsDelivered(b: Reader, id: string, event: Option<string>, data: Option<string>)
    requires b.idBuffer == id && LegalName(event)
    requires b.name == if event.Some? && event.value != "message" then WithoutSpace(event.value) else ""
    requires b.data == if data.Some? then Buffered(SplitLines(data.value)) else ""
    ensures Dispatched(b) == [Delivered(id, NameOf(event), Unify(if data.Some? then data.value else ""))] <==>
              Faithful(event, data)
  {
    hide SplitLines, Buffered, Unify, Join;
    if data.Some? {
      DataDelivered(data.value);
      NameDelivered(event);
    }
  }

  lemma DataDelivered(data: string)
    ensures Buffered(SplitLines(data)) != ""
    ensures Trimmed(Buffered(SplitLines(data))) == Unify(data) <==>
            forall i :: 0 <= i < |SplitLines(data)| ==> NoSpaceFirst(SplitLines(data)[i])
  {
    hide SplitLines, Buffered, Unify, Join;
    var texts := SplitLines(data);
    BufferedIsJoined(texts);
    JoinSplit(data);
    StrippedIsShorter(texts);
    assert Trimmed(Buffered(texts)) == Join(Stripped(texts));
    if forall i :: 0 <= i < |texts| ==> NoSpaceFirst(texts[i]) {
      assert Stripped(texts) == texts;
    }
  }

  lemma NameDelivered(event: Option<string>)
    ensures var name := if event.Some? && event.value != "message" then WithoutSpace(event.value) else "";
      (if name == "" then "message" else name) == NameOf(event) <==>
        (event.Some? ==> event.value != "" && event.value[0] != ' ')
  {
    if event.Some? && event.value != "" && event.value[0] == ' ' {
      assert |WithoutSpace(event.value)| == |event.value| - 1;
      if event.value == " " {
        assert WithoutSpace(event.value) == "" && |event.value| != |"message"|;
      }
    }
  }

  // ------------------------------------------------------------ whole streams

  /** What the server writes: an event, or a comment that keeps the connection open. */
  datatype Chunk = Comment | Message(id: string, event: Option<string>, data: Option<string>)

  function ChunkLines(c: Chunk): seq<string> {
    match c
    case Comment => [":"]
    case Message(id, event, data) => EventLines(id, event, data) + [""]
  }

  function ChunkText(c: Chunk): string { Unlines(ChunkLines(c)) }

  function Text(chunks: seq<Chunk>): string {
    if chunks == [] then "" else ChunkText(chunks[0]) + Text(chunks[1..])
  }

  function AllLines(chunks: seq<Chunk>): seq<string> {
    if chunks == [] then [] else ChunkLines(chunks[0]) + AllLines(chunks[1..])
  }

  /** The events that were sent. */
  function Sent(chunks: seq<Chunk>): seq<Delivered> {
    if chunks == [] then []
    else
      (if chunks[0].Message? && chunks[0].data.Some?
       then [Delivered(chunks[0].id, NameOf(chunks[0].event), Unify(chunks[0].data.value))] else [])
      + Sent(chunks[1..])
  }

  ghost predicate Good(c: Chunk) {
    c.Message? ==> CleanId(c.id) && LegalName(c.event) && Faithful(c.event, c.data)
  }

  ghost predicate AllGood(chunks: seq<Chunk>) {
    forall i :: 0 <= i < |chunks| ==> Good(chunks[i])
  }

  lemma {:induction false} UnlinesMore(a: seq<string>, b: seq<string>)
    ensures Unlines(a + b) == Unlines(a) + Unlines(b)
  {
    if a == [] {
      assert a + b == b;
    } else {
      UnlinesMore(a[1..], b);
      assert (a + b)[1..] == a[1..] + b;
    }
  }

  lemma {:induction false} TextLines(chunks: seq<Chunk>)
    requires AllGood(chunks)
    ensures Text(chunks) == Unlines(AllLines(chunks)) && AllPlain(AllLines(chunks))
  {
    if chunks != [] {
      TextLines(chunks[1..]);
      UnlinesMore(ChunkLines(chunks[0]), AllLines(chunks[1..]));
      ChunkIsPlain(chunks[0]);
    }
  }

  lemma ChunkIsPlain(c: Chunk)
    requires Good(c)
    ensures AllPlain(ChunkLines(c))
  {
    if c.Message? {
      PlainPrefixed("id", c.id);
      if c.event.Some? && c.event.value != "message" {
        var name := c.event.value;
        assert forall i :: 0 <= i < |name| ==> name[i] in name;
        PlainPrefixed("event", name);
      }
      var texts := SplitLines(c.data.value);
      forall i | 0 <= i < |texts|
        ensures Plain(DataLines(texts)[i])
      {
        PlainPrefixed("data", texts[i]);
      }
      assert AllPlain(DataLines(texts));
    }
  }

  lemma PlainPrefixed(name: string, value: string)
    requires Plain(name) && Plain(value)
    ensures Plain(Prefixed(name, value))
  {
  }

  /** Reading the first lines of a stream gives the first events, and the last id is that of
      the last event delivered. */
  lemma {:induction false} ReadStream(r: Reader, chunks: seq<Chunk>, n: nat) returns (k: nat)
    requires AllGood(chunks) && n <= |AllLines(chunks)| && r.data == "" && r.name == ""
    ensures k <= |Sent(chunks)| && Deliveries(r, AllLines(chunks)[..n]) == Sent(chunks)[..k]
    ensures ReadLines(r, AllLines(chunks)[..n]).lastId == if k == 0 then r.lastId else Sent(chunks)[k - 1].id
    ensures n == |AllLines(chunks)| ==> k == |Sent(chunks)|
    decreases |chunks|
  {
    hide ReadLines, Deliveries, ChunkLines, Good, Sent;
    if chunks == [] {
      k := 0;
      ReadNothing(r);
      SentNothing();
    } else {
      assert Good(chunks[0]) && AllGood(chunks[1..]);
      var c := chunks[0];
      var first, rest := ChunkLines(c), chunks[1..];
      assert chunks == [c] + rest;
      if n < |first| {
        k := 0;
        TakeFirst(first, AllLines(rest), n);
        NothingYet(r, c, n);
      } else {
        var m := n - |first|;
        TakeFirst(first, AllLines(rest), n);
        ReadMore(r, first, AllLines(rest)[..m]);
        ReadChunk(r, c);
        var j := ReadStream(ReadLines(r, first), rest, m);
        k := j + if c.Message? then 1 else 0;
        SentFirst(c, rest);
        TakeFirst(Sent([c]), Sent(rest), k);
      }
    }
  }

  lemma TakeFirst<T>(a: seq<T>, b: seq<T>, n: nat)
    requires n <= |a| + |b|
    ensures (a + b)[..n] == if n < |a| then a[..n] else a + b[..n - |a|]
  {
  }

  lemma SentNothing()
    ensures Sent([]) == []
  {
  }

  lemma SentFirst(c: Chunk, rest: seq<Chunk>)
    ensures Sent([c] + rest) == Sent([c]) + Sent(rest)
  {
    assert ([c] + rest)[1..] == rest && [c][1..] == [];
  }

  lemma NothingYet(r: Reader, c: Chunk, n: nat)
    requires n < |ChunkLines(c)|
    ensures Deliveries(r, ChunkLines(c)[..n]) == [] && ReadLines(r, ChunkLines(c)[..n]).lastId == r.lastId
  {
    NoEmptyLine(r, ChunkLines(c)[..n]);
  }

  lemma ReadChunk(r: Reader, c: Chunk)
    requires Good(c) && r.data == "" && r.name == ""
    ensures Deliveries(r, ChunkLines(c)) == Sent([c])
    ensures ReadLines(r, ChunkLines(c)) == if c.Message? then Reader(c.id, c.id, "", "") else r
    ensures |Sent([c])| == if c.Message? then 1 else 0
    ensures c.Message? ==> Sent([c])[0].id == c.id
  {
    hide ReadLines, Deliveries, EventLines;
    assert [c][1..] == [];
    if c.Message? {
      EventRoundTrip(r, c.id, c.event, c.data);
    } else {
      ReadOne(r, ":");
    }
  }

  /** Wherever the connection breaks, the client has got the first events, as they were sent,
      and knows the id of the last one; with the whole text it has got them all. */
  lemma StreamRoundTrip(lastId: string, chunks: seq<Chunk>, cut: nat) returns (k: nat)
    requires AllGood(chunks) && cut <= |Text(chunks)|
    ensures k <= |Sent(chunks)| && Interpret(lastId, Text(chunks)[..cut]) == Sent(chunks)[..k]
    ensures LastId(lastId, Text(chunks)[..cut]) == if k == 0 then lastId else Sent(chunks)[k - 1].id
    ensures cut == |Text(chunks)| ==> k == |Sent(chunks)|
  {
    TextLines(chunks);
    var n := CutLines(AllLines(chunks), cut);
    k := ReadStream(Reader(lastId, lastId, "", ""), chunks, n);
  }

  /** The marker that asks a client to start over has no data, so a client that follows the
      standard never delivers it. */
  lemma ReinitIsSilent(lastId: string)
    ensures Interpret(lastId, "event:reinit\n\n") == [] && LastId(lastId, "event:reinit\n\n") == lastId
  {
    hide ReadLines, Deliveries, Complete, Prefixed;
    ReinitComplete();
    ReadReinit(Reader(lastId, lastId, "", ""));
  }

  lemma ReinitComplete()
    ensures Complete("event:reinit\n\n") == [Prefixed("event", "reinit"), ""]
  {
    hide Complete, Prefixed, SplitLines;
    var lines := [Prefixed("event", "reinit"), ""];
    ReinitText();
    PlainPrefixed("event", "reinit");
    var n := CutLines(lines, |Unlines(lines)|);
    assert lines[..2] == lines && Unlines(lines)[..|Unlines(lines)|] == Unlines(lines);
  }

  lemma ReadReinit(r: Reader)
    requires r.data == "" && r.name == ""
    ensures var lines := [Prefixed("event", "reinit"), ""];
      Deliveries(r, lines) == [] && ReadLines(r, lines).lastId == r.idBuffer
  {
    hide ReadLine, ReadLines, Deliveries, Prefixed;
    var first := Prefixed("event", "reinit");
    ReadPrefixed("event", "reinit", r);
    ReadOne(r, first);
    var b := ReadLines(r, [first]);
    ReadOne(b, "");
    EmptyLineResets(b);
    ReadMore(r, [first], [""]);
    assert [first, ""] == [first] + [""];
  }

  lemma ReinitText()
    ensures Unlines([Prefixed("event", "reinit"), ""]) == "event:reinit\n\n"
  {
    var lines := [Prefixed("event", "reinit"), ""];
    assert lines[1..] == [""] && [""][1..] == [];
    assert Unlines([""]) == "\n";
  }
}
