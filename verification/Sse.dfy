/**
 Server-sent events: the framing that the server writes, and a reader that follows
 section 9.2.6 (Interpreting an event stream) of the WHATWG HTML standard.
 */
module Sse {
  import opened Wrappers
  import opened Digits
  import opened Sequences

  /** strings.Split on one character: always at least one piece. */
  function Split(s: string, sep: char): (pieces: seq<string>)
    ensures |pieces| > 0
    ensures forall p | p in pieces :: sep !in p
  {
    if s == "" then [""]
    else
      var rest := Split(s[1..], sep);
      if s[0] == sep then [""] + rest else [[s[0]] + rest[0]] + rest[1..]
  }

  function Join(pieces: seq<string>, sep: char): string {
    if pieces == [] then ""
    else if |pieces| == 1 then pieces[0]
    else pieces[0] + [sep] + Join(pieces[1..], sep)
  }

  lemma {:induction false} JoinSplit(s: string, sep: char)
    ensures Join(Split(s, sep), sep) == s
  {
    if s != "" {
      JoinSplit(s[1..], sep);
      var rest := Split(s[1..], sep);
      if s[0] == sep {
        assert ([""] + rest)[1..] == rest;
      } else if |rest| > 1 {
        assert ([[s[0]] + rest[0]] + rest[1..])[1..] == rest[1..];
      }
    }
  }

  function DataLines(lines: seq<string>): string {
    if lines == [] then "" else DataLines(lines[..|lines| - 1]) + "data: " + lines[|lines| - 1] + "\n"
  }

  function EventText(id: string, data: string): string {
    (if id != "" then "id: " + id + "\n" else "")
    + if data == "" then "data: \n\n" else DataLines(Split(data, '\n')) + "\n"
  }

  function CommentText(comment: string): string {
    ": " + comment + "\n\n"
  }

  function RetryText(ms: int): string {
    if ms <= 0 then "" else "retry: " + Decimal(ms) + "\n\n"
  }

  class Writer {
    var written: string

    constructor ()
      ensures written == ""
    {
      written := "";
    }

    method WriteString(s: string)
      modifies this
      ensures written == old(written) + s
    {
      written := written + s;
    }
  }

  method WriteSSEEvent(w: Writer, id: string, data: string)
    modifies w
    ensures w.written == old(w.written) + EventText(id, data)
  {
    var b := "";
    if id != "" {
      b := b + "id: ";
      b := b + id;
      b := b + "\n";
    }
    ghost var prefix := b;
    if |data| == 0 {
      b := b + "data: \n\n";
    } else {
      var lines := Split(data, '\n');
      for i := 0 to |lines|
        invariant b == prefix + DataLines(lines[..i])
      {
        b := b + "data: ";
        b := b + lines[i];
        b := b + "\n";
        assert lines[..i + 1][..i] == lines[..i];
      }
      assert lines[..|lines|] == lines;
      b := b + "\n";
    }
    w.WriteString(b);
  }

  method WriteSSEComment(w: Writer, comment: string)
    modifies w
    ensures w.written == old(w.written) + CommentText(comment)
  {
    w.WriteString(": " + comment + "\n\n");
  }

  method WriteSSERetry(w: Writer, ms: int)
    modifies w
    ensures w.written == old(w.written) + RetryText(ms)
  {
    if ms <= 0 {
      return;
    }
    w.WriteString("retry: " + Decimal(ms) + "\n\n");
  }

  // The reader.

  datatype Message = Message(lastEventID: string, data: string)

  /** The data buffer, the last event ID buffer, what has been dispatched and the reconnection time, once it is set. */
  datatype Reader = Reader(data: string, lastEventID: string, dispatched: seq<Message>, retry: Option<nat>)

  const START := Reader("", "", [], None)

  predicate IsLineBreak(c: char) {
    c == '\n' || c == '\r'
  }

  predicate IsOneLine(s: string) {
    forall i | 0 <= i < |s| :: !IsLineBreak(s[i])
  }

  /** The place of the first line break, or the length. */
  function LineLength(s: string): (n: nat)
    ensures n <= |s| && IsOneLine(s[..n]) && (n < |s| ==> IsLineBreak(s[n]))
  {
    if s == "" || IsLineBreak(s[0]) then 0
    else
      var n := 1 + LineLength(s[1..]);
      assert s[..n] == [s[0]] + s[1..][..n - 1];
      n
  }

  /** A line ends with CRLF, LF or CR; a piece without an end is not a line. */
  function AfterLine(s: string, n: nat): string
    requires n < |s|
  {
    if s[n] == '\r' && n + 1 < |s| && s[n + 1] == '\n' then s[n + 2..] else s[n + 1..]
  }

  function Lines(s: string): seq<string>
    decreases |s|
  {
    var n := LineLength(s);
    if n == |s| then [] else [s[..n]] + Lines(AfterLine(s, n))
  }

  function IndexOf(s: string, c: char): (i: nat)
    ensures i <= |s| && (i < |s| ==> s[i] == c) && c !in s[..i]
  {
    if s == "" || s[0] == c then 0
    else
      var i := 1 + IndexOf(s[1..], c);
      assert s[..i] == [s[0]] + s[1..][..i - 1];
      i
  }

  function ProcessField(r: Reader, field: string, value: string): Reader {
    if field == "data" then r.(data := r.data + value + "\n")
    else if field == "id" then (if '\0' in value then r else r.(lastEventID := value))
    else if field == "retry" then (if value != "" && AllDigits(value) then r.(retry := Some(DigitsValue(value))) else r)
    else r
  }

  function Dispatch(r: Reader): Reader {
    if r.data == "" then r
    else r.(data := "", dispatched := r.dispatched + [Message(r.lastEventID, r.data[..|r.data| - 1])])
  }

  function ProcessLine(r: Reader, line: string): Reader {
    if line == "" then Dispatch(r)
    else
      var colon := IndexOf(line, ':');
      if colon == 0 then r
      else if colon == |line| then ProcessField(r, line, "")
      else
        var value := line[colon + 1..];
        ProcessField(r, line[..colon], if |value| > 0 && value[0] == ' ' then value[1..] else value)
  }

  function ProcessLines(r: Reader, lines: seq<string>): Reader
    decreases |lines|
  {
    if lines == [] then r else ProcessLines(ProcessLine(r, lines[0]), lines[1..])
  }

  /** One leading byte order mark is skipped; an unfinished block at the end is dropped. */
  function Interpreted(text: string): Reader {
    var body := if |text| > 0 && text[0] == '\U{FEFF}' then text[1..] else text;
    ProcessLines(START, Lines(body))
  }

  function Interpret(text: string): seq<Message> {
    Interpreted(text).dispatched
  }

  // What was written is what is read.

  datatype Item = Event(id: string, data: string) | Comment(comment: string) | Retry(ms: int)

  function ItemText(item: Item): string {
    match item
    case Event(id, data) => EventText(id, data)
    case Comment(comment) => CommentText(comment)
    case Retry(ms) => RetryText(ms)
  }

  function StreamText(items: seq<Item>): string {
    if items == [] then "" else ItemText(items[0]) + StreamText(items[1..])
  }

  /** An event without an ID goes under the last ID before it. */
  function Sent(items: seq<Item>, lastEventID: string): seq<Message>
    decreases |items|
  {
    if items == [] then []
    else
      match items[0]
      case Event(id, data) =>
        var current := if id != "" then id else lastEventID;
        [Message(current, data)] + Sent(items[1..], current)
      case _ => Sent(items[1..], lastEventID)
  }

  /** The reconnection time that was written last; only a positive one is written. */
  function LastRetry(items: seq<Item>, before: Option<nat>): Option<nat>
    decreases |items|
  {
    if items == [] then before
    else LastRetry(items[1..], if items[0].Retry? && items[0].ms > 0 then Some(items[0].ms) else before)
  }

  predicate IsCleanID(id: string) {
    IsOneLine(id) && '\0' !in id
  }

  predicate IsReadable(item: Item) {
    item.Event? ==> IsCleanID(item.id) && '\r' !in item.data
  }

  lemma {:induction false} FirstLineLength(line: string, rest: string)
    requires IsOneLine(line)
    ensures LineLength(line + "\n" + rest) == |line|
  {
    var s := line + "\n" + rest;
    if line != "" {
      assert s[1..] == line[1..] + "\n" + rest;
      FirstLineLength(line[1..], rest);
    }
  }

  lemma FirstLine(line: string, rest: string)
    requires IsOneLine(line)
    ensures Lines(line + "\n" + rest) == [line] + Lines(rest)
  {
    var s := line + "\n" + rest;
    FirstLineLength(line, rest);
    assert s[..|line|] == line && s[|line| + 1..] == rest;
  }

  lemma ReadLine(r: Reader, line: string, rest: string)
    requires IsOneLine(line)
    ensures ProcessLines(r, Lines(line + "\n" + rest)) == ProcessLines(ProcessLine(r, line), Lines(rest))
  {
    FirstLine(line, rest);
    assert ([line] + Lines(rest))[1..] == Lines(rest);
  }

  lemma {:induction false} FirstIndex(front: string, c: char, back: string)
    requires c !in front
    ensures IndexOf(front + [c] + back, c) == |front|
  {
    if front != "" {
      assert (front + [c] + back)[1..] == front[1..] + [c] + back;
      FirstIndex(front[1..], c, back);
    }
  }

  lemma ReadField(r: Reader, field: string, value: string)
    requires field != "" && ':' !in field
    ensures ProcessLine(r, field + ": " + value) == ProcessField(r, field, value)
  {
    var line := field + ": " + value;
    assert line == field + [':'] + (" " + value);
    FirstIndex(field, ':', " " + value);
    assert line[..|field|] == field && line[|field| + 1..] == " " + value && (" " + value)[1..] == value;
  }

  lemma FieldLineIsOneLine(field: string, value: string)
    requires IsOneLine(field) && IsOneLine(value)
    ensures IsOneLine(field + ": " + value)
  {
  }

  /** What the data buffer gains from these lines. */
  function Buffered(lines: seq<string>): string {
    if lines == [] then "" else Buffered(lines[..|lines| - 1]) + lines[|lines| - 1] + "\n"
  }

  lemma ReadDataLine(r: Reader, line: string, rest: string)
    requires IsOneLine(line)
    ensures ProcessLines(r, Lines("data: " + line + "\n" + rest)) ==
              ProcessLines(r.(data := r.data + line + "\n"), Lines(rest))
  {
    var text := "data: " + line;
    assert text == "data" + ": " + line;
    FieldLineIsOneLine("data", line);
    ReadLine(r, text, rest);
    ReadField(r, "data", line);
  }

  lemma {:induction false} ReadDataLines(r: Reader, lines: seq<string>, rest: string)
    requires forall line | line in lines :: IsOneLine(line)
    ensures ProcessLines(r, Lines(DataLines(lines) + rest)) == ProcessLines(r.(data := r.data + Buffered(lines)), Lines(rest))
  {
    if lines == [] {
      assert DataLines(lines) + rest == rest && r.data + "" == r.data;
    } else {
      var front, last := lines[..|lines| - 1], lines[|lines| - 1];
      assert last in lines;
      var more := "data: " + last + "\n" + rest;
      DataLinesLast(lines, rest);
      ReadDataLines(r, front, more);
      var mid := r.(data := r.data + Buffered(front));
      ReadDataLine(mid, last, rest);
      BufferedLast(r.data, lines);
    }
  }

  lemma BufferedLast(before: string, lines: seq<string>)
    requires lines != []
    ensures (before + Buffered(lines[..|lines| - 1])) + lines[|lines| - 1] + "\n" == before + Buffered(lines)
  {
    Regroup4(before, Buffered(lines[..|lines| - 1]), lines[|lines| - 1], "\n");
  }

  lemma DataLinesLast(lines: seq<string>, rest: string)
    requires lines != []
    ensures DataLines(lines) + rest == DataLines(lines[..|lines| - 1]) + ("data: " + lines[|lines| - 1] + "\n" + rest)
  {
    Regroup5(DataLines(lines[..|lines| - 1]), "data: ", lines[|lines| - 1], "\n", rest);
  }

  lemma {:induction false} BufferedFirst(line: string, rest: seq<string>)
    ensures Buffered([line] + rest) == line + "\n" + Buffered(rest)
  {
    var all := [line] + rest;
    if rest == [] {
      assert all[..0] == [];
    } else {
      BufferedFirst(line, rest[..|rest| - 1]);
      assert all[..|all| - 1] == [line] + rest[..|rest| - 1];
    }
  }

  lemma {:induction false} BufferedSplit(data: string)
    ensures Buffered(Split(data, '\n')) == data + "\n"
  {
    if data == "" {
      assert [""][..0] == [];
    } else {
      BufferedSplit(data[1..]);
      var rest := Split(data[1..], '\n');
      assert rest == [rest[0]] + rest[1..];
      BufferedFirst(rest[0], rest[1..]);
      var tail := Buffered(rest[1..]);
      assert rest[0] + "\n" + tail == data[1..] + "\n";
      if data[0] == '\n' {
        BufferedFirst("", rest);
        assert "" + "\n" + (data[1..] + "\n") == data + "\n";
      } else {
        BufferedFirst([data[0]] + rest[0], rest[1..]);
        Regroup4([data[0]], rest[0], "\n", tail);
        assert [data[0]] + (data[1..] + "\n") == data + "\n";
      }
    }
  }

  lemma {:induction false} SplitKeepsOut(s: string, c: char)
    requires c !in s
    ensures forall p | p in Split(s, '\n') :: c !in p
  {
    if s != "" {
      SplitKeepsOut(s[1..], c);
      var rest := Split(s[1..], '\n');
      forall p | p in Split(s, '\n')
        ensures c !in p
      {
        assert p == "" || p in rest || p == [s[0]] + rest[0];
        assert rest[0] in rest;
      }
    }
  }

  lemma ReadData(r: Reader, data: string, rest: string)
    requires r.data == "" && '\r' !in data
    ensures ProcessLines(r, Lines((if data == "" then "data: \n\n" else DataLines(Split(data, '\n')) + "\n") + rest)) ==
              ProcessLines(r.(dispatched := r.dispatched + [Message(r.lastEventID, data)]), Lines(rest))
  {
    var lines := Split(data, '\n');
    if data == "" {
      assert lines[..0] == [] && DataLines(lines) == "data: \n" by {
        assert "" + "data: " + "" + "\n" == "data: \n";
      }
      assert "data: \n\n" == DataLines(lines) + "\n";
    }
    SplitKeepsOut(data, '\r');
    assert (DataLines(lines) + "\n") + rest == DataLines(lines) + ("" + "\n" + rest);
    ReadDataLines(r, lines, "" + "\n" + rest);
    BufferedSplit(data);
    var full := r.(data := data + "\n");
    assert r.data + Buffered(lines) == full.data;
    ReadLine(full, "", rest);
    assert full.data[..|full.data| - 1] == data;
  }

  lemma ReadEvent(r: Reader, id: string, data: string, rest: string)
    requires r.data == "" && IsCleanID(id) && '\r' !in data
    ensures var current := if id != "" then id else r.lastEventID;
            ProcessLines(r, Lines(EventText(id, data) + rest)) ==
              ProcessLines(r.(lastEventID := current, dispatched := r.dispatched + [Message(current, data)]), Lines(rest))
  {
    var body := if data == "" then "data: \n\n" else DataLines(Split(data, '\n')) + "\n";
    if id != "" {
      var line := "id" + ": " + id;
      assert EventText(id, data) + rest == line + "\n" + (body + rest);
      FieldLineIsOneLine("id", id);
      ReadLine(r, line, body + rest);
      ReadField(r, "id", id);
      ReadData(r.(lastEventID := id), data, rest);
    } else {
      assert EventText(id, data) == body;
      ReadData(r, data, rest);
    }
  }

  /** A block of one line that carries no data dispatches nothing. */
  lemma ReadIdleBlock(r: Reader, line: string, rest: string)
    requires IsOneLine(line) && line != "" && ProcessLine(r, line).data == ""
    ensures ProcessLines(r, Lines(line + "\n\n" + rest)) == ProcessLines(ProcessLine(r, line), Lines(rest))
  {
    assert line + "\n\n" + rest == line + "\n" + ("" + "\n" + rest);
    ReadLine(r, line, "" + "\n" + rest);
    ReadLine(ProcessLine(r, line), "", rest);
  }

  lemma RetryLine(r: Reader, ms: nat)
    ensures IsOneLine("retry" + ": " + Decimal(ms))
    ensures ProcessLine(r, "retry" + ": " + Decimal(ms)) == r.(retry := Some(ms))
  {
    assert IsOneLine(Decimal(ms)) by { assert AllDigits(Decimal(ms)); }
    FieldLineIsOneLine("retry", Decimal(ms));
    ReadField(r, "retry", Decimal(ms));
    DecimalValue(ms);
  }

  lemma ReadRetry(r: Reader, ms: int, rest: string)
    requires r.data == ""
    ensures ProcessLines(r, Lines(RetryText(ms) + rest)) == ProcessLines(if ms > 0 then r.(retry := Some(ms)) else r, Lines(rest))
  {
    if ms <= 0 {
      assert RetryText(ms) + rest == rest;
    } else {
      RetryLine(r, ms);
      assert RetryText(ms) == "retry" + ": " + Decimal(ms) + "\n\n";
      ReadIdleBlock(r, "retry" + ": " + Decimal(ms), rest);
    }
  }

  function AfterItem(r: Reader, item: Item): Reader {
    match item
    case Event(id, data) =>
      var current := if id != "" then id else r.lastEventID;
      r.(data := "", lastEventID := current, dispatched := r.dispatched + [Message(current, data)])
    case Comment(_) => r
    case Retry(ms) => if ms > 0 then r.(retry := Some(ms)) else r
  }

  lemma ReadItem(r: Reader, item: Item, rest: string)
    requires r.data == "" && IsReadable(item) && (item.Comment? ==> IsOneLine(item.comment))
    ensures ProcessLines(r, Lines(ItemText(item) + rest)) == ProcessLines(AfterItem(r, item), Lines(rest))
  {
    match item
    case Event(id, data) => ReadEvent(r, id, data, rest);
    case Comment(comment) => ReadIdleBlock(r, ": " + comment, rest);
    case Retry(ms) => ReadRetry(r, ms, rest);
  }

  lemma PushThenAppend(front: seq<Message>, m: Message, back: seq<Message>)
    ensures front + [m] + back == front + ([m] + back)
  {
  }

  lemma SentFirst(r: Reader, item: Item, rest: seq<Item>)
    ensures AfterItem(r, item).dispatched + Sent(rest, AfterItem(r, item).lastEventID) ==
              r.dispatched + Sent([item] + rest, r.lastEventID)
  {
    var next := AfterItem(r, item);
    assert ([item] + rest)[1..] == rest;
    if item.Event? {
      PushThenAppend(r.dispatched, Message(next.lastEventID, item.data), Sent(rest, next.lastEventID));
    }
  }

  lemma {:induction false} ReadItems(r: Reader, items: seq<Item>)
    requires r.data == ""
    requires forall item | item in items :: IsReadable(item) && (item.Comment? ==> IsOneLine(item.comment))
    ensures ProcessLines(r, Lines(StreamText(items))).dispatched == r.dispatched + Sent(items, r.lastEventID)
    ensures ProcessLines(r, Lines(StreamText(items))).retry == LastRetry(items, r.retry)
    decreases |items|
  {
    if items == [] {
      assert Lines("") == [];
    } else {
      assert items[0] in items;
      ReadItem(r, items[0], StreamText(items[1..]));
      ReadItems(AfterItem(r, items[0]), items[1..]);
      SentFirst(r, items[0], items[1..]);
      assert items == [items[0]] + items[1..];
    }
  }

  lemma {:induction false} NoByteOrderMark(items: seq<Item>)
    ensures StreamText(items) != "" ==> StreamText(items)[0] != '\U{FEFF}'
  {
    if items != [] {
      NoByteOrderMark(items[1..]);
      if ItemText(items[0]) == "" {
        assert StreamText(items) == StreamText(items[1..]);
      } else {
        assert StreamText(items)[0] == ItemText(items[0])[0];
        match items[0]
        case Event(id, data) =>
          if id == "" && data != "" {
            DataLinesStart(Split(data, '\n'));
          }
        case _ =>
      }
    }
  }

  lemma {:induction false} DataLinesStart(lines: seq<string>)
    requires lines != []
    ensures DataLines(lines) != "" && DataLines(lines)[0] == 'd'
  {
    if |lines| > 1 {
      DataLinesStart(lines[..|lines| - 1]);
    } else {
      assert lines[..0] == [];
    }
  }

  // Nothing that is read holds a character that the format cannot carry.

  predicate IsCleanMessage(m: Message) {
    IsCleanID(m.lastEventID) && '\r' !in m.data
  }

  predicate IsCleanReader(r: Reader) {
    IsCleanID(r.lastEventID) && '\r' !in r.data && forall m | m in r.dispatched :: IsCleanMessage(m)
  }

  lemma FieldStaysClean(r: Reader, field: string, value: string)
    requires IsCleanReader(r) && IsOneLine(value)
    ensures IsCleanReader(ProcessField(r, field, value))
  {
    assert '\r' !in value;
  }

  lemma LineStaysClean(r: Reader, line: string)
    requires IsCleanReader(r) && IsOneLine(line)
    ensures IsCleanReader(ProcessLine(r, line))
  {
    if line != "" {
      var colon := IndexOf(line, ':');
      if colon == |line| {
        FieldStaysClean(r, line, "");
      } else if colon != 0 {
        var value := line[colon + 1..];
        FieldStaysClean(r, line[..colon], if |value| > 0 && value[0] == ' ' then value[1..] else value);
      }
    }
  }

  lemma {:induction false} LinesAreLines(s: string)
    ensures forall line | line in Lines(s) :: IsOneLine(line)
    decreases |s|
  {
    var n := LineLength(s);
    if n != |s| {
      LinesAreLines(AfterLine(s, n));
    }
  }

  lemma {:induction false} LinesStayClean(r: Reader, lines: seq<string>)
    requires IsCleanReader(r) && forall line | line in lines :: IsOneLine(line)
    ensures IsCleanReader(ProcessLines(r, lines))
    decreases |lines|
  {
    if lines != [] {
      LineStaysClean(r, lines[0]);
      LinesStayClean(ProcessLine(r, lines[0]), lines[1..]);
    }
  }

  lemma InterpretIsClean(text: string)
    ensures forall m | m in Interpret(text) :: IsCleanMessage(m)
  {
    var body := if |text| > 0 && text[0] == '\U{FEFF}' then text[1..] else text;
    LinesAreLines(body);
    LinesStayClean(START, Lines(body));
  }

  lemma {:induction false} EverySent(items: seq<Item>, lastEventID: string, item: Item)
    requires item in items && item.Event?
    ensures exists m | m in Sent(items, lastEventID) :: m.data == item.data && (item.id != "" ==> m.lastEventID == item.id)
    decreases |items|
  {
    if items[0] == item {
      var m := Sent(items, lastEventID)[0];
      assert m in Sent(items, lastEventID);
    } else {
      var current := if items[0].Event? && items[0].id != "" then items[0].id else lastEventID;
      EverySent(items[1..], current, item);
      var m :| m in Sent(items[1..], current) && m.data == item.data && (item.id != "" ==> m.lastEventID == item.id);
      assert m in Sent(items, lastEventID);
    }
  }

  /** A reader of what was written waits, before it reconnects, for as long as the last positive time that was written. */
  lemma RetryRoundTrip(items: seq<Item>)
    requires forall item | item in items :: IsReadable(item) && (item.Comment? ==> IsOneLine(item.comment))
    ensures Interpreted(StreamText(items)).retry == LastRetry(items, None)
  {
    NoByteOrderMark(items);
    ReadItems(START, items);
  }

  /**
   Reading back what was written gives exactly what was sent, if and only if no event
   has a carriage return in its data, or a line break or NUL in its ID.
   */
  lemma RoundTrip(items: seq<Item>)
    requires forall item | item in items && item.Comment? :: IsOneLine(item.comment)
    ensures Interpret(StreamText(items)) == Sent(items, "") <==> forall item | item in items :: IsReadable(item)
  {
    NoByteOrderMark(items);
    if forall item | item in items :: IsReadable(item) {
      ReadItems(START, items);
      assert [] + Sent(items, "") == Sent(items, "");
    }
    if Interpret(StreamText(items)) == Sent(items, "") {
      InterpretIsClean(StreamText(items));
      forall item | item in items && item.Event?
        ensures IsReadable(item)
      {
        EverySent(items, "", item);
      }
    }
  }

  /** A carriage return in the data is taken for a line break. */
  lemma CarriageReturnIsLost()
    ensures var items := [Event("1", "a\rb")];
            Interpret(StreamText(items)) != Sent(items, "")
  {
    var items := [Event("1", "a\rb")];
    RoundTrip(items);
    assert items[0] in items && items[0].data[1] == '\r';
  }
}
