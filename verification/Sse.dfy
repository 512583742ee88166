/** The bytes a stream call writes, and how a browser's EventSource reads them: sections 9.2.5
    (parsing an event stream) and 9.2.6 (interpreting it) of the WHATWG HTML Living Standard. */
module Sse {
  import opened Base
  import opened Hub

  const KEEPALIVE: string := ": keepalive\n\n"
  const BYTE_ORDER_MARK: char := '\U{FEFF}'

  // ---------- writing ----------

  function FrameOf(body: string): string {
    "data: " + body + "\n\n"
  }

  function Chunk(item: Item<string>): string {
    match item
    case Frame(body) => FrameOf(body)
    case KeepAlive => KEEPALIVE
  }

  /** Everything written on one connection, for the bodies and keepalives it wrote. */
  function Wire(items: seq<Item<string>>): string {
    if items == [] then "" else Chunk(items[0]) + Wire(items[1..])
  }

  lemma {:induction false} WireAppend(items: seq<Item<string>>, last: Item<string>)
    ensures Wire(items + [last]) == Wire(items) + Chunk(last)
  {
    if items == [] {
      assert [] + [last] == [last];
      assert [last][1..] == [];
    } else {
      assert (items + [last])[1..] == items[1..] + [last];
      WireAppend(items[1..], last);
    }
  }

  /** The bytes one by one: a frame is its body between "data: " and an empty line, a keepalive a comment. */
  lemma WireIs(items: seq<Item<string>>, body: string)
    ensures Wire([]) == ""
    ensures Wire(items + [Frame(body)]) == Wire(items) + ("data: " + body + "\n\n")
    ensures Wire(items + [KeepAlive]) == Wire(items) + ": keepalive\n\n"
  {
    WireAppend(items, Frame(body));
    WireAppend(items, KeepAlive);
  }

  // ---------- reading ----------

  /** Position of the first line break, or the length of the text. */
  function BreakAt(s: string): (i: nat)
    ensures i <= |s|
    ensures forall k :: 0 <= k < i ==> !LineBreak(s[k])
    ensures i < |s| ==> LineBreak(s[i])
  {
    if s == "" || LineBreak(s[0]) then 0 else 1 + BreakAt(s[1..])
  }

  /** Position after the line break at i: CR LF is one break. */
  function AfterBreak(s: string, i: nat): (j: nat)
    requires i < |s|
    ensures i < j <= |s|
  {
    if s[i] == '\r' && i + 1 < |s| && s[i + 1] == '\n' then i + 2 else i + 1
  }

  /** The terminated lines of the stream; an unterminated last line belongs to an unfinished event. */
  function Lines(s: string): seq<string>
    decreases |s|
  {
    var i := BreakAt(s);
    if i == |s| then [] else [s[..i]] + Lines(s[AfterBreak(s, i)..])
  }

  function ColonAt(line: string): (i: nat)
    ensures i <= |line|
    ensures forall k :: 0 <= k < i ==> line[k] != ':'
    ensures i < |line| ==> line[i] == ':'
  {
    if line == "" || line[0] == ':' then 0 else 1 + ColonAt(line[1..])
  }

  function FieldName(line: string): string {
    line[..ColonAt(line)]
  }

  function FieldValue(line: string): string {
    var i := ColonAt(line);
    if i == |line| then ""
    else if i + 1 < |line| && line[i + 1] == ' ' then line[i + 2..]
    else line[i + 1..]
  }

  /** The data and event type buffers. */
  datatype Buffers = Buffers(data: string, kind: string)

  const EMPTY: Buffers := Buffers("", "")

  /** A blank line dispatches: what the page's onmessage handler is given, if anything. */
  function Dispatch(b: Buffers): seq<string> {
    if b.data == "" then []
    else if b.kind == "" || b.kind == "message" then [b.data[..|b.data| - 1]]
    else []
  }

  /** A line starting with a colon has an empty field name, so it is ignored like any unknown field;
      id and retry lines do not touch the data. */
  function Process(line: string, b: Buffers): Buffers {
    if FieldName(line) == "data" then b.(data := b.data + FieldValue(line) + "\n")
    else if FieldName(line) == "event" then b.(kind := FieldValue(line))
    else b
  }

  function Interpret(lines: seq<string>, b: Buffers): seq<string>
    decreases lines
  {
    if lines == [] then []
    else if lines[0] == "" then Dispatch(b) + Interpret(lines[1..], EMPTY)
    else Interpret(lines[1..], Process(lines[0], b))
  }

  /** The data of the message events in a stream, in order. */
  function Decode(s: string): seq<string> {
    Interpret(Lines(if s != "" && s[0] == BYTE_ORDER_MARK then s[1..] else s), EMPTY)
  }

  // ---------- one chunk at a time ----------

  lemma LinesStep(line: string, rest: string)
    requires OneLine(line)
    ensures Lines(line + "\n" + rest) == [line] + Lines(rest)
  {
    var s := line + "\n" + rest;
    assert s[|line|] == '\n';
    assert s[..|line|] == line;
    assert forall k :: 0 <= k < |line| ==> s[k] == line[k];
    assert BreakAt(s) == |line|;
    assert s[AfterBreak(s, |line|)..] == rest;
  }

  lemma DataLine(body: string)
    ensures FieldName("data: " + body) == "data"
    ensures FieldValue("data: " + body) == body
  {
    var line := "data: " + body;
    assert line[..4] == "data";
    assert line[4] == ':' && line[5] == ' ';
    assert ColonAt(line) == 4;
    assert line[6..] == body;
  }

  lemma BlankLine(rest: string)
    ensures Lines("\n" + rest) == [""] + Lines(rest)
  {
  }

  lemma Regroup(a: string, b: string, c: string, d: string)
    ensures a + (b + c) + d == a + b + (c + d)
  {
  }

  /** A line and the blank line after it. */
  lemma ClosedLine(line: string, rest: string)
    requires OneLine(line)
    ensures Lines(line + "\n\n" + rest) == [line] + ([""] + Lines(rest))
  {
    assert "\n\n" == "\n" + "\n";
    Regroup(line, "\n", "\n", rest);
    LinesStep(line, "\n" + rest);
    BlankLine(rest);
  }

  lemma FrameLines(body: string, rest: string)
    requires OneLine(body)
    ensures Lines(FrameOf(body) + rest) == ["data: " + body] + ([""] + Lines(rest))
  {
    var line := "data: " + body;
    assert OneLine("data: ");
    assert FrameOf(body) + rest == line + "\n\n" + rest;
    ClosedLine(line, rest);
  }

  lemma FrameDecodes(body: string, rest: string)
    requires OneLine(body)
    ensures Interpret(Lines(FrameOf(body) + rest), EMPTY) == [body] + Interpret(Lines(rest), EMPTY)
  {
    FrameLines(body, rest);
    DataLine(body);
    var lines := ["data: " + body] + ([""] + Lines(rest));
    assert lines[1..] == [""] + Lines(rest);
    assert lines[1..][1..] == Lines(rest);
    var b := Process(lines[0], EMPTY);
    assert b.data[..|b.data| - 1] == body;
  }

  lemma KeepAliveLines(rest: string)
    ensures Lines(KEEPALIVE + rest) == [": keepalive"] + ([""] + Lines(rest))
  {
    assert KEEPALIVE == ": keepalive" + "\n\n";
    ClosedLine(": keepalive", rest);
  }

  lemma CommentLine(rest: seq<string>)
    ensures Interpret([": keepalive"] + ([""] + rest), EMPTY) == Interpret(rest, EMPTY)
    ensures LinesWeight([": keepalive"] + ([""] + rest)) == LinesWeight(rest)
  {
  }

  lemma NoByteOrderMark(items: seq<Item<string>>)
    ensures Decode(Wire(items)) == Interpret(Lines(Wire(items)), EMPTY)
  {
  }

  // ---------- the round trip ----------

  lemma {:induction false} CleanDecodes(items: seq<Item<string>>)
    requires forall body :: body in Frames(items) ==> OneLine(body)
    ensures Interpret(Lines(Wire(items)), EMPTY) == Frames(items)
  {
    if items != [] {
      assert forall body :: body in Frames(items[1..]) ==> body in Frames(items);
      CleanDecodes(items[1..]);
      match items[0]
      case Frame(body) =>
        assert body in Frames(items);
        FrameDecodes(body, Wire(items[1..]));
      case KeepAlive =>
        KeepAliveLines(Wire(items[1..]));
        CommentLine(Lines(Wire(items[1..])));
    }
  }

  lemma TwoLinesInterpreted(a: string, b: string)
    ensures Interpret(["data: " + a] + (["data: " + b] + [""]), EMPTY) == [a + "\n" + b]
  {
    DataLine(a);
    DataLine(b);
    var l, m := "data: " + a, "data: " + b;
    var one := Buffers(a + "\n", "");
    var two := Buffers(a + "\n" + b + "\n", "");
    assert Process(l, EMPTY) == one && Process(m, one) == two;
    assert ([l] + ([m] + [""]))[1..] == [m] + [""] && ([m] + [""])[1..] == [""];
    assert two.data[..|two.data| - 1] == a + "\n" + b;
    assert Interpret([""], two) == Dispatch(two) + Interpret([], EMPTY);
  }

  lemma TwoLinesRead(l: string, m: string)
    requires OneLine(l) && OneLine(m)
    ensures Lines(l + "\n" + (m + "\n\n" + "")) == [l] + ([m] + [""])
  {
    var end := m + "\n\n" + "";
    LinesStep(l, end);
    ClosedLine(m, "");
  }

  /** Two data lines make one message of two lines. */
  lemma TwoDataLines(a: string, b: string)
    requires OneLine(a) && OneLine(b)
    ensures Decode("data: " + a + "\n" + ("data: " + b + "\n\n" + "")) == [a + "\n" + b]
  {
    assert OneLine("data: ");
    TwoLinesRead("data: " + a, "data: " + b);
    TwoLinesInterpreted(a, b);
  }

  // A body with a line break loses text. The proof weighs what a stream can still deliver.

  function Weight(events: seq<string>): nat {
    if events == [] then 0 else |events[0]| + 1 + Weight(events[1..])
  }

  function LineWeight(line: string): (w: nat)
    ensures w <= |line|
  {
    if FieldName(line) == "data" then |FieldValue(line)| + 1 else 0
  }

  function LinesWeight(lines: seq<string>): nat {
    if lines == [] then 0 else LineWeight(lines[0]) + LinesWeight(lines[1..])
  }

  lemma {:induction false} InterpretWeight(lines: seq<string>, b: Buffers)
    ensures Weight(Interpret(lines, b)) <= |b.data| + LinesWeight(lines)
    decreases lines
  {
    if lines != [] {
      if lines[0] == "" {
        InterpretWeight(lines[1..], EMPTY);
        var rest := Interpret(lines[1..], EMPTY);
        if Dispatch(b) != [] {
          assert (Dispatch(b) + rest)[1..] == rest;
        } else {
          assert Dispatch(b) + rest == rest;
        }
      } else {
        InterpretWeight(lines[1..], Process(lines[0], b));
      }
    }
  }

  lemma LinesAt(s: string, i: nat)
    requires i < |s| && LineBreak(s[i])
    requires forall k :: 0 <= k < i ==> !LineBreak(s[k])
    ensures Lines(s) == [s[..i]] + Lines(s[AfterBreak(s, i)..])
  {
  }

  lemma ConsWeight(line: string, lines: seq<string>)
    ensures LinesWeight([line] + lines) == LineWeight(line) + LinesWeight(lines)
  {
  }

  /** Taking the first line off a text that has a break, when more text follows: either the rest of
      the text is left, or the text ended in CR and the following LF belongs to the same break. */
  lemma FirstLine(text: string, more: string, i: nat, tail: string)
    requires i == BreakAt(text) < |text|
    requires tail == text[AfterBreak(text, i)..]
    ensures |tail| < |text| - i
    ensures || Lines(text + more) == [text[..i]] + Lines(tail + more)
            || (more != "" && Lines(text + more) == [text[..i]] + Lines(more[1..]))
  {
    var j, rest := Remainder(text, more, i);
    assert (text + more)[..i] == text[..i];
    LinesAt(text + more, i);
  }

  lemma Remainder(text: string, more: string, i: nat) returns (j: nat, rest: string)
    requires i == BreakAt(text) < |text|
    ensures forall k :: 0 <= k < i ==> !LineBreak((text + more)[k])
    ensures LineBreak((text + more)[i])
    ensures j == AfterBreak(text + more, i) && rest == (text + more)[j..]
    ensures rest == text[AfterBreak(text, i)..] + more || (more != "" && rest == more[1..])
  {
    j := AfterBreak(text + more, i);
    rest := (text + more)[j..];
    if j <= |text| {
      assert rest == text[j..] + more;
    } else {
      assert rest == more[1..];
    }
  }

  /** Text that is closed by a line break weighs at most its own length, whatever lines it makes. */
  lemma {:induction false} TailWeight(text: string, rest: string)
    ensures LinesWeight(Lines(text + "\n" + rest)) <= |text| + LinesWeight(Lines(rest))
    decreases |text|
  {
    var i := BreakAt(text);
    var more := "\n" + rest;
    assert text + "\n" + rest == text + more;
    assert more[1..] == rest;
    if i == |text| {
      LinesStep(text, rest);
      ConsWeight(text, Lines(rest));
    } else {
      var tail := text[AfterBreak(text, i)..];
      assert tail + "\n" + rest == tail + more;
      FirstLine(text, more, i, tail);
      TailWeight(tail, rest);
      ConsWeight(text[..i], Lines(tail + more));
      ConsWeight(text[..i], Lines(rest));
    }
  }

  lemma BlankLineWeighsNothing(rest: string)
    ensures LinesWeight(Lines("\n" + rest)) == LinesWeight(Lines(rest))
  {
  }

  lemma BrokenFrameWeight(body: string, rest: string)
    requires !OneLine(body)
    ensures LinesWeight(Lines(FrameOf(body) + rest)) < |body| + 1 + LinesWeight(Lines(rest))
  {
    var text := "data: " + body;
    var more := "\n" + ("\n" + rest);
    var i := BreakAt(text);
    assert FrameOf(body) + rest == text + more;
    assert i < |text| by {
      var k :| 0 <= k < |body| && LineBreak(body[k]);
      assert text[6 + k] == body[k];
    }
    assert i >= 6 by {
      assert text[..6] == "data: ";
    }
    assert text[..i] == "data: " + body[..i - 6];
    DataLine(body[..i - 6]);
    var tail := text[AfterBreak(text, i)..];
    FirstLine(text, more, i, tail);
    ConsWeight(text[..i], Lines(tail + more));
    ConsWeight(text[..i], Lines(more[1..]));
    assert more[1..] == "\n" + rest;
    assert tail + more == tail + "\n" + ("\n" + rest);
    TailWeight(tail, "\n" + rest);
    BlankLineWeighsNothing(rest);
  }

  lemma CleanFrameWeight(body: string, rest: string)
    requires OneLine(body)
    ensures LinesWeight(Lines(FrameOf(body) + rest)) == |body| + 1 + LinesWeight(Lines(rest))
  {
    FrameLines(body, rest);
    DataLine(body);
    ConsWeight("data: " + body, [""] + Lines(rest));
    ConsWeight("", Lines(rest));
  }

  /** A frame weighs at most its body and one; strictly less when the body has a line break. */
  lemma FrameWeight(body: string, rest: string)
    ensures LinesWeight(Lines(FrameOf(body) + rest)) <= |body| + 1 + LinesWeight(Lines(rest))
    ensures !OneLine(body) ==> LinesWeight(Lines(FrameOf(body) + rest)) < |body| + 1 + LinesWeight(Lines(rest))
  {
    if OneLine(body) {
      CleanFrameWeight(body, rest);
    } else {
      BrokenFrameWeight(body, rest);
    }
  }

  lemma {:induction false} WireWeight(items: seq<Item<string>>)
    ensures LinesWeight(Lines(Wire(items))) <= Weight(Frames(items))
    ensures (exists body :: body in Frames(items) && !OneLine(body)) ==>
              LinesWeight(Lines(Wire(items))) < Weight(Frames(items))
  {
    if items != [] {
      WireWeight(items[1..]);
      var rest := Wire(items[1..]);
      match items[0]
      case Frame(body) =>
        FrameWeight(body, rest);
        assert Frames(items) == [body] + Frames(items[1..]);
        assert Frames(items)[1..] == Frames(items[1..]);
      case KeepAlive =>
        KeepAliveLines(rest);
        CommentLine(Lines(rest));
        assert Frames(items) == Frames(items[1..]);
    }
  }

  /** For any interleaving of frames and keepalives, the browser's message events are exactly the
      bodies, in order, if and only if no body contains a line break. */
  lemma RoundTrip(items: seq<Item<string>>)
    ensures Decode(Wire(items)) == Frames(items) <==> forall body :: body in Frames(items) ==> OneLine(body)
  {
    NoByteOrderMark(items);
    if forall body :: body in Frames(items) ==> OneLine(body) {
      CleanDecodes(items);
    } else {
      WireWeight(items);
      InterpretWeight(Lines(Wire(items)), EMPTY);
    }
  }

  /** Whatever the bodies contain, the browser is never given more text than was written. */
  lemma NeverMoreText(items: seq<Item<string>>)
    ensures Weight(Decode(Wire(items))) <= Weight(Frames(items))
  {
    NoByteOrderMark(items);
    WireWeight(items);
    InterpretWeight(Lines(Wire(items)), EMPTY);
  }
}
