/** The Server-Sent Events line assembler: text arrives in arbitrary chunks, payloads come out. */
module Sse {
  import opened Alignment

  /** Position of the first `c` at or after `i`, or the length of the text when there is none. */
  function IndexFrom(s: string, c: char, i: nat): (r: nat)
    requires i <= |s|
    ensures i <= r <= |s|
    decreases |s| - i
  {
    if i == |s| || s[i] == c then i else IndexFrom(s, c, i + 1)
  }

  lemma {:induction false} IndexIsFirst(s: string, c: char, i: nat)
    requires i <= |s|
    ensures var r := IndexFrom(s, c, i); (forall j :: i <= j < r ==> s[j] != c) && (r < |s| ==> s[r] == c)
    decreases |s| - i
  {
    if i < |s| && s[i] != c { IndexIsFirst(s, c, i + 1); }
  }

  lemma {:induction false} IndexIs(s: string, c: char, k: nat)
    requires k <= |s| && (forall j :: 0 <= j < k ==> s[j] != c) && (k < |s| ==> s[k] == c)
    ensures IndexFrom(s, c, 0) == k
  {
    IndexIsFirst(s, c, 0);
  }

  function FirstLF(s: string): nat { IndexFrom(s, '\n', 0) }

  function FirstColon(s: string): nat { IndexFrom(s, ':', 0) }

  predicate EndsInCR(s: string) { s != "" && s[|s| - 1] == '\r' }

  function DropCR(s: string): string { if EndsInCR(s) then s[..|s| - 1] else s }

  function DropSpace(s: string): string { if s != "" && s[0] == ' ' then s[1..] else s }

  /** What one complete line, LF removed, contributes: a payload if its field is `data`. */
  function Payload(raw: string): Option<string> {
    var line := DropCR(raw);
    if line == "" || line[0] == ':' then None
    else
      var colon := FirstColon(line);
      if line[..colon] != "data" then None
      else Some(if colon == |line| then "" else DropSpace(line[colon + 1..]))
  }

  function Emit(raw: string): seq<string> {
    match Payload(raw) case None => [] case Some(v) => [v]
  }

  function Collect(emit: string -> seq<string>, lines: seq<string>): seq<string> {
    if lines == [] then [] else Collect(emit, lines[..|lines| - 1]) + emit(lines[|lines| - 1])
  }

  lemma {:induction false} CollectOne(emit: string -> seq<string>, lines: seq<string>, line: string)
    ensures Collect(emit, lines + [line]) == Collect(emit, lines) + emit(line)
  {
    assert (lines + [line])[..|lines|] == lines;
  }

  lemma CollectTwo(emit: string -> seq<string>, first: string, second: string)
    ensures Collect(emit, [first, second]) == emit(first) + emit(second)
  {
    CollectOne(emit, [first], second);
    CollectOne(emit, [], first);
    assert [] + [first] == [first] && [first] + [second] == [first, second];
  }

  lemma {:induction false} CollectAppend(emit: string -> seq<string>, xs: seq<string>, ys: seq<string>)
    ensures Collect(emit, xs + ys) == Collect(emit, xs) + Collect(emit, ys)
  {
    if ys == [] {
      assert xs + ys == xs;
    } else {
      var n := |ys| - 1;
      CollectAppend(emit, xs, ys[..n]);
      assert (xs + ys)[..|xs| + n] == xs + ys[..n];
    }
  }

  lemma {:induction false} CollectFirst(emit: string -> seq<string>, first: string, more: seq<string>)
    ensures Collect(emit, [first] + more) == emit(first) + Collect(emit, more)
  {
    CollectAppend(emit, [first], more);
    CollectOne(emit, [], first);
    assert [] + [first] == [first];
  }

  /** The complete lines of a text, without their line feeds, and the partial line behind them. */
  function Lines(text: string): seq<string>
    decreases |text|
  {
    var k := FirstLF(text);
    if k == |text| then [] else [text[..k]] + Lines(text[k + 1..])
  }

  function Rest(text: string): string
    decreases |text|
  {
    var k := FirstLF(text);
    if k == |text| then text else Rest(text[k + 1..])
  }

  lemma {:induction false} NextLine(text: string)
    requires FirstLF(text) < |text|
    ensures Lines(text) == [text[..FirstLF(text)]] + Lines(text[FirstLF(text) + 1..])
  {
  }

  lemma {:induction false} NextRest(text: string)
    requires FirstLF(text) < |text|
    ensures Rest(text) == Rest(text[FirstLF(text) + 1..])
  {
  }

  function Outputs(text: string): seq<string> { Collect(Emit, Lines(text)) }

  lemma NextOutputs(text: string)
    requires FirstLF(text) < |text|
    ensures var k := FirstLF(text); Outputs(text) == Emit(text[..k]) + Outputs(text[k + 1..])
  {
    var line, more := text[..FirstLF(text)], Lines(text[FirstLF(text) + 1..]);
    NextLine(text);
    CollectFirst(Emit, line, more);
  }

  /** Characters `trim` removes. */
  predicate IsBlank(c: char) {
    || c in {' ', '\t', '\n', '\r', '\U{000B}', '\U{000C}', '\U{00A0}', '\U{1680}'}
    || '\U{2000}' <= c <= '\U{200A}'
    || c in {'\U{2028}', '\U{2029}', '\U{202F}', '\U{205F}', '\U{3000}', '\U{FEFF}'}
  }

  predicate Blank(s: string) { forall i :: 0 <= i < |s| ==> IsBlank(s[i]) }

  /** What a final flush adds for a leftover partial line. */
  function Flushed(buffer: string): seq<string> {
    if Blank(buffer) then [] else Outputs(buffer + "\n")
  }

  /** The payloads of a whole text: push it, then flush. */
  function Whole(text: string): seq<string> { Outputs(text) + Flushed(Rest(text)) }

  class SseParser {
    var buffer: string

    constructor ()
      ensures buffer == ""
    {
      buffer := "";
    }

    /** The body of the loop for one line: strip the CR, drop what is not data, strip one space. */
    static method HandleLine(raw: string) returns (out: seq<string>)
      ensures out == Emit(raw)
    {
      var line := raw;
      if EndsInCR(line) { line := line[..|line| - 1]; }
      if line == "" { return []; }
      if line[0] == ':' { return []; }
      var colon := FirstColon(line);
      var field := if colon == |line| then line else line[..colon];
      if field != "data" { return []; }
      var value := if colon == |line| then "" else line[colon + 1..];
      if value != "" && value[0] == ' ' { value := value[1..]; }
      return [value];
    }

    /** The buffer's first line: its payloads, given back in front of those of the remaining text. */
    static method TakeLine(text: string, newline: nat) returns (payloads: seq<string>)
      requires newline == FirstLF(text) < |text|
      ensures Outputs(text) == payloads + Outputs(text[newline + 1..])
      ensures Rest(text) == Rest(text[newline + 1..])
    {
      NextRest(text);
      NextOutputs(text);
      payloads := HandleLine(text[..newline]);
    }

    method Push(chunk: string) returns (out: seq<string>)
      modifies this
      ensures out == Outputs(old(buffer) + chunk)
      ensures buffer == Rest(old(buffer) + chunk)
    {
      buffer := buffer + chunk;
      ghost var text := buffer;
      out := [];
      var newline := FirstLF(buffer);
      while newline != |buffer|
        invariant newline == FirstLF(buffer)
        invariant out + Outputs(buffer) == Outputs(text)
        invariant Rest(buffer) == Rest(text)
        decreases |buffer|
      {
        var payloads := TakeLine(buffer, newline);
        buffer := buffer[newline + 1..];
        newline := FirstLF(buffer);
        Assoc(out, payloads, Outputs(buffer));
        out := out + payloads;
      }
    }

    method Flush() returns (out: seq<string>)
      modifies this
      ensures out == Flushed(old(buffer)) && buffer == ""
    {
      if Blank(buffer) {
        buffer := "";
        return [];
      }
      var remaining := buffer;
      buffer := "";
      assert "" + (remaining + "\n") == remaining + "\n";
      RestOfTerminated(remaining);
      out := Push(remaining + "\n");
    }
  }

  lemma FirstLFAppend(a: string, b: string)
    ensures FirstLF(a + b) == if FirstLF(a) < |a| then FirstLF(a) else |a| + FirstLF(b)
  {
    IndexIsFirst(a, '\n', 0);
    IndexIsFirst(b, '\n', 0);
    IndexIs(a + b, '\n', if FirstLF(a) < |a| then FirstLF(a) else |a| + FirstLF(b));
  }

  lemma {:induction false} RestOfTerminated(s: string)
    ensures Rest(s + "\n") == ""
    decreases |s|
  {
    FirstLFAppend(s, "\n");
    var k := FirstLF(s);
    NextRest(s + "\n");
    assert (s + "\n")[FirstLF(s + "\n") + 1..] == if k == |s| then "" else s[k + 1..] + "\n";
    if k < |s| { RestOfTerminated(s[k + 1..]); }
  }

  lemma TailAppend(a: string, b: string)
    requires FirstLF(a) < |a|
    ensures var k := FirstLF(a);
            FirstLF(a + b) == k && (a + b)[..k] == a[..k] && (a + b)[k + 1..] == a[k + 1..] + b
  {
    FirstLFAppend(a, b);
  }

  lemma {:induction false} LinesAppend(a: string, b: string)
    ensures Lines(a + b) == Lines(a) + Lines(Rest(a) + b)
    decreases |a|
  {
    var k := FirstLF(a);
    if k < |a| {
      TailAppend(a, b);
      NextLine(a);
      NextRest(a);
      NextLine(a + b);
      LinesAppend(a[k + 1..], b);
      Assoc([a[..k]], Lines(a[k + 1..]), Lines(Rest(a) + b));
    }
  }

  lemma {:induction false} RestAppend(a: string, b: string)
    ensures Rest(a + b) == Rest(Rest(a) + b)
    decreases |a|
  {
    var k := FirstLF(a);
    if k < |a| {
      TailAppend(a, b);
      NextRest(a);
      NextRest(a + b);
      RestAppend(a[k + 1..], b);
    }
  }

  /** Feeding a text in two pieces gives the same payloads and the same leftover as feeding it whole. */
  lemma {:induction false} SplitAnywhere(a: string, b: string)
    ensures Outputs(a + b) == Outputs(a) + Outputs(Rest(a) + b)
    ensures Rest(a + b) == Rest(Rest(a) + b)
  {
    LinesAppend(a, b);
    RestAppend(a, b);
    CollectAppend(Emit, Lines(a), Lines(Rest(a) + b));
  }

  // ---- Lines and fields, declaratively --------------------------------------------------

  function Terminated(lines: seq<string>): string {
    if lines == [] then "" else Terminated(lines[..|lines| - 1]) + lines[|lines| - 1] + "\n"
  }

  lemma {:induction false} TerminatedFirst(line: string, more: seq<string>)
    ensures Terminated([line] + more) == line + "\n" + Terminated(more)
  {
    if more == [] {
      assert [line] + more == [line] && [line][..0] == [];
    } else {
      var n := |more| - 1;
      TerminatedFirst(line, more[..n]);
      assert ([line] + more)[..n + 1] == [line] + more[..n];
    }
  }

  lemma CutAtLF(text: string)
    requires FirstLF(text) < |text|
    ensures var k := FirstLF(text); text == text[..k] + "\n" + text[k + 1..] && '\n' !in text[..k]
  {
    IndexIsFirst(text, '\n', 0);
  }

  /** The lines and the rest are the text cut at every line feed. */
  lemma {:induction false} LinesExactly(text: string)
    ensures text == Terminated(Lines(text)) + Rest(text)
    ensures '\n' !in Rest(text) && forall i :: 0 <= i < |Lines(text)| ==> '\n' !in Lines(text)[i]
    decreases |text|
  {
    var k := FirstLF(text);
    if k < |text| {
      var more := text[k + 1..];
      CutAtLF(text);
      NextLine(text);
      NextRest(text);
      LinesExactly(more);
      TerminatedFirst(text[..k], Lines(more));
      Assoc(text[..k] + "\n", Terminated(Lines(more)), Rest(more));
    } else {
      IndexIsFirst(text, '\n', 0);
    }
  }

  /** The field `data` with this value: alone, or a colon and the value behind it, with one space or without. */
  ghost predicate IsData(line: string, value: string) {
    || (line == "data" && value == "")
    || line == "data: " + value
    || (line == "data:" + value && (value == "" || value[0] != ' '))
  }

  /** A line yields a payload exactly if, without one closing carriage return, it is a `data` field of it. */
  lemma {:induction false} PayloadExactly(raw: string, value: string)
    ensures Payload(raw) == Some(value)
      <==> if EndsInCR(raw) then IsData(raw[..|raw| - 1], value) else IsData(raw, value)
  {
    if IsData(DropCR(raw), value) { DataIsFound(DropCR(raw), value); }
    if Payload(raw) == Some(value) { FoundIsData(raw, value); }
  }

  lemma FoundIsData(raw: string, value: string)
    requires Payload(raw) == Some(value)
    ensures IsData(DropCR(raw), value)
  {
    var line := DropCR(raw);
    var colon := FirstColon(line);
    IndexIsFirst(line, ':', 0);
    if colon < |line| {
      var rest := line[colon + 1..];
      assert line == "data:" + rest;
      if rest != "" && rest[0] == ' ' { assert rest == " " + value && "data:" + rest == "data: " + value; }
    } else {
      assert line == line[..colon];
    }
  }

  lemma {:induction false} DataIsFound(line: string, value: string)
    requires IsData(line, value)
    ensures line != "" && line[0] != ':' && line[..FirstColon(line)] == "data"
    ensures value == if FirstColon(line) == |line| then "" else DropSpace(line[FirstColon(line) + 1..])
  {
    assert line[..4] == "data";
    IndexIs(line, ':', 4);
    if line != "data" { assert line[5..] == if line == "data: " + value then " " + value else value; }
  }

  // ---- Chunking -------------------------------------------------------------------

  function Concat(chunks: seq<string>): string {
    if chunks == [] then "" else Concat(chunks[..|chunks| - 1]) + chunks[|chunks| - 1]
  }

  /** A reader's loop: push every chunk as it arrives, then flush. */
  method ReadAll(chunks: seq<string>) returns (payloads: seq<string>)
    ensures payloads == Whole(Concat(chunks))
  {
    var parser := new SseParser();
    payloads := [];
    for i := 0 to |chunks|
      invariant payloads == Outputs(Concat(chunks[..i]))
      invariant parser.buffer == Rest(Concat(chunks[..i]))
    {
      assert chunks[..i + 1][..i] == chunks[..i];
      SplitAnywhere(Concat(chunks[..i]), chunks[i]);
      var out := parser.Push(chunks[i]);
      payloads := payloads + out;
    }
    assert chunks[..|chunks|] == chunks;
    var last := parser.Flush();
    payloads := payloads + last;
  }

  /** How a text is cut into chunks never shows in the payloads: any two ways of cutting it agree. */
  lemma {:induction false} ChunkingInvisible(chunks: seq<string>, others: seq<string>)
    requires Concat(chunks) == Concat(others)
    ensures Delivered(chunks, "") == Delivered(others, "")
  {
    DeliveredIsWhole(chunks, "");
    DeliveredIsWhole(others, "");
    assert "" + Concat(chunks) == Concat(chunks) && "" + Concat(others) == Concat(others);
  }

  /** The payloads delivered by pushing the chunks one after another, starting from `buffer`, and flushing. */
  function Delivered(chunks: seq<string>, buffer: string): seq<string> {
    if chunks == [] then Flushed(buffer)
    else Outputs(buffer + chunks[0]) + Delivered(chunks[1..], Rest(buffer + chunks[0]))
  }

  lemma {:induction false} ConcatHead(chunks: seq<string>)
    requires chunks != []
    ensures Concat(chunks) == chunks[0] + Concat(chunks[1..])
  {
    var n := |chunks| - 1;
    if n > 0 {
      ConcatHead(chunks[..n]);
      assert chunks[1..][..n - 1] == chunks[..n][1..];
    }
  }

  lemma {:induction false} RestHasNoLF(text: string)
    ensures FirstLF(Rest(text)) == |Rest(text)|
    decreases |text|
  {
    var k := FirstLF(text);
    if k < |text| { RestHasNoLF(text[k + 1..]); }
  }

  lemma {:induction false} DeliveredIsWhole(chunks: seq<string>, buffer: string)
    requires FirstLF(buffer) == |buffer|
    ensures Delivered(chunks, buffer) == Whole(buffer + Concat(chunks))
  {
    if chunks == [] {
      assert buffer + "" == buffer;
    } else {
      var text, more := buffer + chunks[0], Concat(chunks[1..]);
      RestHasNoLF(text);
      DeliveredIsWhole(chunks[1..], Rest(text));
      ConcatHead(chunks);
      Assoc(buffer, chunks[0], more);
      WholeSplit(text, more);
    }
  }

  lemma {:induction false} WholeSplit(a: string, b: string)
    ensures Whole(a + b) == Outputs(a) + Whole(Rest(a) + b)
  {
    SplitAnywhere(a, b);
    Assoc(Outputs(a), Outputs(Rest(a) + b), Flushed(Rest(a + b)));
  }

  // ---- Round trip -----------------------------------------------------------------

  function Frame(p: string): string { "data: " + p + "\n\n" }

  function Frames(ps: seq<string>): string {
    if ps == [] then "" else Frame(ps[0]) + Frames(ps[1..])
  }

  /** Payloads a frame can carry: no line feed, and no carriage return at the end. */
  predicate Carriable(p: string) { '\n' !in p && !EndsInCR(p) }

  lemma FramePayload(p: string)
    ensures Payload("data: " + p) == Some(if EndsInCR(p) then p[..|p| - 1] else p)
  {
    var raw := "data: " + p;
    var line := DropCR(raw);
    assert EndsInCR(raw) == EndsInCR(p);
    var q := DropCR(p);
    assert line == "data: " + q;
    assert line[4] == ':' && line[..4] == "data";
    IndexIs(line, ':', 4);
    assert line[5..] == " " + q;
    assert DropSpace(" " + q) == q;
  }

  lemma {:induction false} OneLine(line: string, more: string)
    requires '\n' !in line
    ensures Lines(line + "\n" + more) == [line] + Lines(more)
  {
    var text := line + "\n" + more;
    assert text == line + ("\n" + more);
    FirstLFAppend(line, "\n" + more);
    IndexIs(line, '\n', |line|);
    assert FirstLF(text) == |line|;
    assert text[..|line|] == line && text[|line| + 1..] == more;
  }

  lemma {:induction false} BlankLineFirst(more: string)
    ensures Lines("\n" + more) == [""] + Lines(more)
  {
    var blank := "\n" + more;
    NextLine(blank);
    assert blank[..0] == "" && blank[1..] == more;
  }

  lemma Regroup(line: string, more: string)
    ensures line + "\n\n" + more == line + "\n" + ("\n" + more)
  {
  }

  lemma {:induction false} TwoLines(line: string, more: string)
    requires '\n' !in line
    ensures Lines(line + "\n\n" + more) == [line, ""] + Lines(more)
  {
    Regroup(line, more);
    OneLine(line, "\n" + more);
    BlankLineFirst(more);
  }

  lemma FrameOutputs(p: string, more: string)
    requires '\n' !in p
    ensures Outputs(Frame(p) + more) == [DropCR(p)] + Outputs(more)
  {
    var raw := "data: " + p;
    TwoLines(raw, more);
    FramePayload(p);
    CollectAppend(Emit, [raw, ""], Lines(more));
    CollectTwo(Emit, raw, "");
  }

  function AllDropCR(ps: seq<string>): (r: seq<string>)
    ensures |r| == |ps| && forall i :: 0 <= i < |ps| ==> r[i] == DropCR(ps[i])
  {
    if ps == [] then [] else [DropCR(ps[0])] + AllDropCR(ps[1..])
  }

  lemma {:induction false} FramesOutputs(ps: seq<string>)
    requires forall i :: 0 <= i < |ps| ==> '\n' !in ps[i]
    ensures Outputs(Frames(ps)) == AllDropCR(ps)
  {
    if ps != [] {
      FramesOutputs(ps[1..]);
      FrameOutputs(ps[0], Frames(ps[1..]));
    }
  }

  lemma {:induction false} FramesEndCleanly(ps: seq<string>)
    ensures Rest(Frames(ps)) == ""
  {
    if ps != [] {
      FramesEndCleanly(ps[1..]);
      var head := "data: " + ps[0] + "\n";
      assert Frame(ps[0]) == head + "\n";
      RestOfTerminated(head);
      SplitAnywhere(head + "\n", Frames(ps[1..]));
      assert "" + Frames(ps[1..]) == Frames(ps[1..]);
    }
  }

  lemma PayloadHasNoLF(raw: string)
    requires '\n' !in raw
    ensures Payload(raw).Some? ==> '\n' !in Payload(raw).value
  {
    var line := DropCR(raw);
    assert forall i :: 0 <= i < |line| ==> line[i] == raw[i];
  }

  lemma {:induction false} LinesHaveNoLF(text: string)
    ensures forall l :: l in Lines(text) ==> '\n' !in l
    decreases |text|
  {
    var k := FirstLF(text);
    if k < |text| {
      IndexIsFirst(text, '\n', 0);
      assert forall i :: 0 <= i < k ==> text[..k][i] == text[i];
      NextLine(text);
      LinesHaveNoLF(text[k + 1..]);
    }
  }

  lemma {:induction false} EmittedHaveNoLF(lines: seq<string>)
    requires forall l :: l in lines ==> '\n' !in l
    ensures forall v :: v in Collect(Emit, lines) ==> '\n' !in v
  {
    if lines != [] {
      var n := |lines| - 1;
      EmittedHaveNoLF(lines[..n]);
      PayloadHasNoLF(lines[n]);
    }
  }

  lemma {:induction false} FrameTextExactly(ps: seq<string>)
    ensures Outputs(Frames(ps)) == ps <==> forall i :: 0 <= i < |ps| ==> Carriable(ps[i])
  {
    LinesHaveNoLF(Frames(ps));
    EmittedHaveNoLF(Lines(Frames(ps)));
    if forall i :: 0 <= i < |ps| ==> '\n' !in ps[i] {
      FramesOutputs(ps);
      assert forall i :: 0 <= i < |ps| ==> (AllDropCR(ps)[i] == ps[i] <==> !EndsInCR(ps[i]));
    }
  }

  /**
   * Framed as `data: ` and two line feeds, a list of payloads comes back exactly, under any chunking
   * of the stream, if and only if no payload contains a line feed or ends in a carriage return.
   */
  lemma {:induction false} RoundTripExactly(ps: seq<string>, chunks: seq<string>)
    requires Concat(chunks) == Frames(ps)
    ensures Delivered(chunks, "") == ps <==> forall i :: 0 <= i < |ps| ==> Carriable(ps[i])
  {
    DeliveredIsWhole(chunks, "");
    assert "" + Frames(ps) == Frames(ps);
    FramesEndCleanly(ps);
    FrameTextExactly(ps);
  }
}
