/**
 * The ask loop against an arbitrary model: tool rounds without streaming, then one streamed answer.
 * The model, the tools and the abort signal are an oracle, so every statement holds for all of them.
 */
module AskLoop {
  import opened Alignment
  import opened Sse

  datatype ToolCall = ToolCall(id: string, name: string, arguments: string)

  datatype Message =
    | System(text: string)
    | User(text: string)
    | Assistant(content: Option<string>, calls: seq<ToolCall>)
    | Tool(callId: string, name: string, result: string)

  datatype ErrorKind = Network | Http | Protocol | Aborted | Timeout | Config | Unknown

  /** An exception: one of the client's own kinds, or anything else as `Unknown`. */
  datatype Failure = Failure(kind: ErrorKind, message: string)

  datatype Reply = Reply(content: string, reasoning: string, calls: seq<ToolCall>) | ReplyFails(failure: Failure)

  datatype StreamItem = StreamContent(delta: string) | StreamReasoning(delta: string) | StreamOther

  /** What a streamed turn yields before it ends or throws. */
  datatype Stream = Stream(items: seq<StreamItem>, failure: Option<Failure>)

  datatype Execution = Ran(name: string, result: string, failed: bool) | Threw(failure: Failure)

  datatype Event =
    | DigestShown
    | Thinking
    | ToolStart(caption: string)
    | ToolResult(caption: string, name: string, result: string, failed: bool)
    | Reasoning(delta: string)
    | Content(delta: string)
    | Done
    | Error(kind: ErrorKind, message: string)

  /** Everything outside the loop: replies by round, executions by round and call, the final stream. */
  datatype World = World(
    reply: nat -> Reply, execute: (nat, nat, ToolCall) -> Execution, stream: Stream, caption: ToolCall -> string)

  const MAX_TOOL_ROUNDS: nat := 6
  const MAX_CALLS_PER_ROUND: nat := 10
  const NUDGE := User("Answer now from what you have retrieved. Do not request more lookups.")
  const NO_ANSWER := "The model returned no answer text. It may have exhausted max_tokens on reasoning — try setting Thinking to off."

  /** Events yielded, the conversation, and the conversations sent to the model so far. */
  datatype Run = Run(events: seq<Event>, messages: seq<Message>, sent: seq<seq<Message>>)

  datatype Outcome = Going(run: Run) | Answering(run: Run) | Ended(run: Run)

  function Yield(r: Run, e: Event): Run { r.(events := r.events + [e]) }

  function Say(r: Run, m: Message): Run { r.(messages := r.messages + [m]) }

  function Request(r: Run): Run { r.(sent := r.sent + [r.messages]) }

  /** The catch clause: an abort counts as done, anything else is reported. */
  function CaughtEvent(f: Failure): Event { if f.kind.Aborted? then Done else Error(f.kind, f.message) }

  function Catch(r: Run, f: Failure): Run { Yield(r, CaughtEvent(f)) }

  /** The first `n` calls of a round, one after another, until one throws. */
  function CallTools(start: Run, w: World, round: nat, calls: seq<ToolCall>, n: nat): (o: Outcome)
    requires n <= |calls|
    ensures !o.Answering?
  {
    if n == 0 then Going(start)
    else
      var so := CallTools(start, w, round, calls, n - 1);
      if !so.Going? then so
      else
        var call := calls[n - 1];
        var started := Yield(so.run, ToolStart(w.caption(call)));
        match w.execute(round, n - 1, call)
        case Threw(f) => Ended(Catch(started, f))
        case Ran(name, result, failed) =>
          Going(Yield(Say(started, Tool(call.id, name, result)), ToolResult(w.caption(call), name, result, failed)))
  }

  function FirstCalls(calls: seq<ToolCall>): (r: seq<ToolCall>)
    ensures |r| <= MAX_CALLS_PER_ROUND && r <= calls
    ensures calls != [] ==> r != []
  {
    if |calls| <= MAX_CALLS_PER_ROUND then calls else calls[..MAX_CALLS_PER_ROUND]
  }

  function ToolRound(r: Run, w: World, round: nat): Outcome {
    var asked := Request(Yield(r, Thinking));
    match w.reply(round)
    case ReplyFails(f) => Ended(Catch(asked, f))
    case Reply(content, reasoning, calls) =>
      if calls == [] then
        if Blank(content) then Answering(asked)
        else
          var thought := if reasoning != "" then Yield(asked, Reasoning(reasoning)) else asked;
          Ended(Yield(Yield(thought, Content(content)), Done))
      else
        var kept := FirstCalls(calls);
        var said := Say(asked, Assistant(if content == "" then None else Some(content), kept));
        CallTools(said, w, round, kept, |kept|)
  }

  /** The first `n` rounds, as far as they are reached. */
  function ToolRounds(start: Run, w: World, n: nat): Outcome
    decreases n, 0
  {
    if n == 0 then Going(start) else PastRound(start, w, n - 1)
  }

  function PastRound(start: Run, w: World, n: nat): Outcome
    decreases n, 1
  {
    var so := ToolRounds(start, w, n);
    if so.Going? then ToolRound(so.run, w, n) else so
  }

  function StreamUpTo(r: Run, items: seq<StreamItem>, n: nat): Run
    requires n <= |items|
  {
    if n == 0 then r
    else
      var so := StreamUpTo(r, items, n - 1);
      match items[n - 1]
      case StreamContent(d) => Yield(so, Content(d))
      case StreamReasoning(d) => Yield(so, Reasoning(d))
      case StreamOther => so
  }

  predicate SawContent(items: seq<StreamItem>) { exists i :: 0 <= i < |items| && items[i].StreamContent? }

  function LastEvent(s: Stream): Event {
    if s.failure.Some? then CaughtEvent(s.failure.value)
    else if !SawContent(s.items) then Error(Protocol, NO_ANSWER)
    else Done
  }

  function FinalTurn(r: Run, w: World): Run {
    Yield(StreamUpTo(Request(r), w.stream.items, |w.stream.items|), LastEvent(w.stream))
  }

  function Opening(system: string, history: seq<Message>, question: string): seq<Message> {
    [System(system)] + history + [User(question)]
  }

  function AskRun(system: string, history: seq<Message>, question: string, w: World): Run {
    var start := Run([DigestShown], Opening(system, history, question), []);
    match ToolRounds(start, w, MAX_TOOL_ROUNDS)
    case Ended(r) => r
    case Answering(r) => FinalTurn(r, w)
    case Going(r) => FinalTurn(Say(r, NUDGE), w)
  }

  // ---- The program ------------------------------------------------------------------------

  /** The calls of one round, as the inner loop runs them. */
  method RunCalls(start: Run, w: World, round: nat, calls: seq<ToolCall>) returns (o: Outcome)
    ensures o == CallTools(start, w, round, calls, |calls|)
  {
    var r := start;
    for n := 0 to |calls|
      invariant CallTools(start, w, round, calls, n) == Going(r)
    {
      var call := calls[n];
      var caption := w.caption(call);
      r := Yield(r, ToolStart(caption));
      var exec := w.execute(round, n, call);
      if exec.Threw? {
        o := Ended(Catch(r, exec.failure));
        EndedStays(start, w, round, calls, n + 1, |calls|);
        return;
      }
      r := Say(r, Tool(call.id, exec.name, exec.result));
      r := Yield(r, ToolResult(caption, exec.name, exec.result, exec.failed));
    }
    o := Going(r);
  }

  lemma {:induction false} EndedStays(start: Run, w: World, round: nat, calls: seq<ToolCall>, n: nat, m: nat)
    requires n <= m <= |calls| && !CallTools(start, w, round, calls, n).Going?
    ensures CallTools(start, w, round, calls, m) == CallTools(start, w, round, calls, n)
  {
    if n < m { EndedStays(start, w, round, calls, n, m - 1); }
  }

  lemma {:induction false} RoundsStay(start: Run, w: World, n: nat, m: nat)
    requires n <= m && !ToolRounds(start, w, n).Going?
    ensures ToolRounds(start, w, m) == ToolRounds(start, w, n)
  {
    if n < m { RoundsStay(start, w, n, m - 1); }
  }

  method StreamAnswer(start: Run, w: World) returns (r: Run)
    ensures r == FinalTurn(start, w)
  {
    r := Request(start);
    var sawContent := false;
    for i := 0 to |w.stream.items|
      invariant r == StreamUpTo(Request(start), w.stream.items, i)
      invariant sawContent == SawContent(w.stream.items[..i])
    {
      var item := w.stream.items[i];
      assert w.stream.items[..i + 1] == w.stream.items[..i] + [item];
      assert SawContent(w.stream.items[..i]) ==> SawContent(w.stream.items[..i + 1]) by {
        if k :| 0 <= k < i && w.stream.items[..i][k].StreamContent? { assert w.stream.items[..i + 1][k].StreamContent?; }
      }
      match item {
        case StreamContent(d) =>
          assert w.stream.items[..i + 1][i].StreamContent?;
          sawContent := true;
          r := Yield(r, Content(d));
        case StreamReasoning(d) => r := Yield(r, Reasoning(d));
        case StreamOther =>
      }
    }
    assert w.stream.items[..|w.stream.items|] == w.stream.items;
    if w.stream.failure.Some? {
      r := Catch(r, w.stream.failure.value);
    } else if !sawContent {
      r := Yield(r, Error(Protocol, NO_ANSWER));
    } else {
      r := Yield(r, Done);
    }
  }

  /** One turn of the tool loop. */
  method RunRound(start: Run, w: World, round: nat) returns (o: Outcome)
    ensures o == ToolRound(start, w, round)
  {
    var r := Request(Yield(start, Thinking));
    var reply := w.reply(round);
    if reply.ReplyFails? { return Ended(Catch(r, reply.failure)); }
    if |reply.calls| == 0 {
      if Blank(reply.content) { return Answering(r); }
      if reply.reasoning != "" { r := Yield(r, Reasoning(reply.reasoning)); }
      return Ended(Yield(Yield(r, Content(reply.content)), Done));
    }
    var calls := FirstCalls(reply.calls);
    r := Say(r, Assistant(if reply.content == "" then None else Some(reply.content), calls));
    o := RunCalls(r, w, round, calls);
  }

  method Ask(system: string, history: seq<Message>, question: string, w: World) returns (r: Run)
    ensures r == AskRun(system, history, question, w)
  {
    r := Run([DigestShown], Opening(system, history, question), []);
    ghost var start := r;
    var rounds: nat := 0;
    while rounds < MAX_TOOL_ROUNDS
      invariant rounds <= MAX_TOOL_ROUNDS
      invariant ToolRounds(start, w, rounds) == Going(r)
    {
      var o := RunRound(r, w, rounds);
      r := o.run;
      if !o.Going? { RoundsStay(start, w, rounds + 1, MAX_TOOL_ROUNDS); }
      if o.Ended? { return; }
      if o.Answering? { break; }
      rounds := rounds + 1;
    }
    if rounds >= MAX_TOOL_ROUNDS {
      r := Say(r, NUDGE);
    }
    r := StreamAnswer(r, w);
  }

  // ---- One terminal event, last ---------------------------------------------------------------

  predicate Terminal(e: Event) { e.Done? || e.Error? }

  predicate NoTerminal(events: seq<Event>) { forall i :: 0 <= i < |events| ==> !Terminal(events[i]) }

  /** Exactly one terminal event, and it is the last. */
  predicate EndsOnce(events: seq<Event>) {
    events != [] && Terminal(events[|events| - 1]) && NoTerminal(events[..|events| - 1])
  }

  /** Nothing terminal while the run goes on, one terminal event once it has ended. */
  predicate Terminated(o: Outcome) {
    if o.Ended? then EndsOnce(o.run.events) else NoTerminal(o.run.events)
  }

  lemma CatchEnds(r: Run, f: Failure)
    requires NoTerminal(r.events)
    ensures EndsOnce(Catch(r, f).events)
  {
    assert Catch(r, f).events[..|r.events|] == r.events;
  }

  lemma {:induction false} CallsTerminate(start: Run, w: World, round: nat, calls: seq<ToolCall>, n: nat)
    requires n <= |calls| && NoTerminal(start.events)
    ensures Terminated(CallTools(start, w, round, calls, n))
  {
    if n > 0 {
      CallsTerminate(start, w, round, calls, n - 1);
      var so := CallTools(start, w, round, calls, n - 1);
      if so.Going? {
        var call := calls[n - 1];
        var exec := w.execute(round, n - 1, call);
        if exec.Threw? { CatchEnds(Yield(so.run, ToolStart(w.caption(call))), exec.failure); }
      }
    }
  }

  lemma RoundTerminates(r: Run, w: World, round: nat)
    requires NoTerminal(r.events)
    ensures Terminated(ToolRound(r, w, round))
  {
    var asked, reply := Request(Yield(r, Thinking)), w.reply(round);
    if reply.ReplyFails? {
      CatchEnds(asked, reply.failure);
    } else if reply.calls != [] {
      var kept := FirstCalls(reply.calls);
      CallsTerminate(Say(asked, Assistant(if reply.content == "" then None else Some(reply.content), kept)),
                     w, round, kept, |kept|);
    }
  }

  lemma {:induction false} RoundsTerminate(start: Run, w: World, n: nat)
    requires NoTerminal(start.events)
    ensures Terminated(ToolRounds(start, w, n))
  {
    if n > 0 {
      RoundsTerminate(start, w, n - 1);
      if ToolRounds(start, w, n - 1).Going? { RoundTerminates(ToolRounds(start, w, n - 1).run, w, n - 1); }
    }
  }

  lemma {:induction false} StreamNotTerminal(r: Run, items: seq<StreamItem>, n: nat)
    requires n <= |items| && NoTerminal(r.events)
    ensures NoTerminal(StreamUpTo(r, items, n).events)
  {
    if n > 0 { StreamNotTerminal(r, items, n - 1); }
  }

  lemma FinalTurnEnds(r: Run, w: World)
    requires NoTerminal(r.events)
    ensures EndsOnce(FinalTurn(r, w).events)
  {
    StreamNotTerminal(Request(r), w.stream.items, |w.stream.items|);
    var streamed := StreamUpTo(Request(r), w.stream.items, |w.stream.items|);
    assert FinalTurn(r, w).events[..|streamed.events|] == streamed.events;
  }

  /** Whatever the model, the tools and the user do, a run yields exactly one terminal event, last. */
  lemma EndsExactlyOnce(system: string, history: seq<Message>, question: string, w: World)
    ensures EndsOnce(AskRun(system, history, question, w).events)
  {
    var start := Run([DigestShown], Opening(system, history, question), []);
    RoundsTerminate(start, w, MAX_TOOL_ROUNDS);
    var o := ToolRounds(start, w, MAX_TOOL_ROUNDS);
    if o.Answering? { FinalTurnEnds(o.run, w); }
    if o.Going? { FinalTurnEnds(Say(o.run, NUDGE), w); }
  }

  // ---- Bounded work -----------------------------------------------------------------------------

  function Rounds(events: seq<Event>): nat {
    if events == [] then 0 else Rounds(events[..|events| - 1]) + (if events[|events| - 1].Thinking? then 1 else 0)
  }

  function Executions(events: seq<Event>): nat {
    if events == [] then 0 else Executions(events[..|events| - 1]) + (if events[|events| - 1].ToolStart? then 1 else 0)
  }

  lemma YieldCounts(r: Run, e: Event)
    ensures Rounds(Yield(r, e).events) == Rounds(r.events) + (if e.Thinking? then 1 else 0)
    ensures Executions(Yield(r, e).events) == Executions(r.events) + (if e.ToolStart? then 1 else 0)
  {
    assert Yield(r, e).events[..|r.events|] == r.events;
  }

  /** The run did at most so many more rounds, executions and requests than before. */
  predicate Within(before: Run, after: Run, rounds: nat, executions: nat, requests: nat) {
    && Rounds(after.events) <= Rounds(before.events) + rounds
    && Executions(after.events) <= Executions(before.events) + executions
    && |after.sent| <= |before.sent| + requests
  }

  lemma {:induction false} CallsWithin(start: Run, w: World, round: nat, calls: seq<ToolCall>, n: nat)
    requires n <= |calls|
    ensures Within(start, CallTools(start, w, round, calls, n).run, 0, n, 0)
  {
    if n > 0 {
      CallsWithin(start, w, round, calls, n - 1);
      var so := CallTools(start, w, round, calls, n - 1);
      if so.Going? {
        var call := calls[n - 1];
        var begun := Yield(so.run, ToolStart(w.caption(call)));
        YieldCounts(so.run, ToolStart(w.caption(call)));
        match w.execute(round, n - 1, call)
        case Threw(f) => YieldCounts(begun, CaughtEvent(f));
        case Ran(name, result, failed) =>
          YieldCounts(Say(begun, Tool(call.id, name, result)), ToolResult(w.caption(call), name, result, failed));
      }
    }
  }

  lemma RoundWithin(r: Run, w: World, round: nat)
    ensures Within(r, ToolRound(r, w, round).run, 1, MAX_CALLS_PER_ROUND, 1)
  {
    YieldCounts(r, Thinking);
    var asked := Request(Yield(r, Thinking));
    match w.reply(round)
    case ReplyFails(f) => YieldCounts(asked, CaughtEvent(f));
    case Reply(content, reasoning, calls) =>
      if calls == [] {
        var thought := if reasoning != "" then Yield(asked, Reasoning(reasoning)) else asked;
        YieldCounts(asked, Reasoning(reasoning));
        YieldCounts(thought, Content(content));
        YieldCounts(Yield(thought, Content(content)), Done);
      } else {
        var kept := FirstCalls(calls);
        var said := Say(asked, Assistant(if content == "" then None else Some(content), kept));
        CallsWithin(said, w, round, kept, |kept|);
      }
  }

  lemma WithinThen(a: Run, b: Run, c: Run, r1: nat, e1: nat, q1: nat, r2: nat, e2: nat, q2: nat)
    requires Within(a, b, r1, e1, q1) && Within(b, c, r2, e2, q2)
    ensures Within(a, c, r1 + r2, e1 + e2, q1 + q2)
  {
  }

  lemma {:induction false} RoundsWithin(start: Run, w: World, n: nat) returns (o: Outcome)
    ensures o == ToolRounds(start, w, n) && Within(start, o.run, n, 10 * n, n)
  {
    if n == 0 {
      o := Going(start);
    } else {
      var so := RoundsWithin(start, w, n - 1);
      o := PastRound(start, w, n - 1);
      NextWithin(start, so, o, w, n - 1);
    }
  }

  lemma NextWithin(start: Run, so: Outcome, o: Outcome, w: World, n: nat)
    requires Within(start, so.run, n, 10 * n, n)
    requires o == if so.Going? then ToolRound(so.run, w, n) else so
    ensures Within(start, o.run, n + 1, 10 * (n + 1), n + 1)
  {
    if so.Going? {
      RoundWithin(so.run, w, n);
      WithinThen(start, so.run, o.run, n, 10 * n, n, 1, 10, 1);
    }
  }

  lemma {:induction false} StreamWithin(r: Run, items: seq<StreamItem>, n: nat)
    requires n <= |items|
    ensures Within(r, StreamUpTo(r, items, n), 0, 0, 0)
  {
    if n > 0 {
      StreamWithin(r, items, n - 1);
      var so := StreamUpTo(r, items, n - 1);
      match items[n - 1]
      case StreamContent(d) => YieldCounts(so, Content(d));
      case StreamReasoning(d) => YieldCounts(so, Reasoning(d));
      case StreamOther =>
    }
  }

  lemma FinalTurnWithin(r: Run, w: World)
    ensures Within(r, FinalTurn(r, w), 0, 0, 1)
  {
    StreamWithin(Request(r), w.stream.items, |w.stream.items|);
    YieldCounts(StreamUpTo(Request(r), w.stream.items, |w.stream.items|), LastEvent(w.stream));
  }

  /** At most six tool rounds, sixty tool executions and seven requests to the model. */
  lemma WorkIsBounded(system: string, history: seq<Message>, question: string, w: World)
    ensures var r := AskRun(system, history, question, w);
            Rounds(r.events) <= 6 && Executions(r.events) <= 60 && |r.sent| <= 7
  {
    var start := Run([DigestShown], Opening(system, history, question), []);
    assert start.events[..0] == [];
    assert Rounds(start.events) == 0 && Executions(start.events) == 0;
    var o := RoundsWithin(start, w, MAX_TOOL_ROUNDS);
    if o.Answering? { FinalTurnWithin(o.run, w); }
    if o.Going? { FinalTurnWithin(Say(o.run, NUDGE), w); }
  }

  // ---- Every tool call is answered before the model is asked again --------------------------------

  /** The replies to `calls`, one each, in order, with matching ids. */
  predicate Answers(calls: seq<ToolCall>, replies: seq<Message>) {
    && |replies| == |calls|
    && forall k :: 0 <= k < |calls| ==> replies[k].Tool? && replies[k].callId == calls[k].id
  }

  /** An assistant message with one to ten calls, then exactly their replies, any number of times. */
  predicate Exchanges(tail: seq<Message>)
    decreases |tail|, 0
  {
    tail == [] || StartsExchange(tail)
  }

  predicate StartsExchange(tail: seq<Message>)
    requires tail != []
    decreases |tail| - 1, 1
  {
    && tail[0].Assistant? && 1 <= |tail[0].calls| <= 10 && |tail| > |tail[0].calls|
    && Answers(tail[0].calls, tail[1..|tail[0].calls| + 1])
    && Exchanges(tail[|tail[0].calls| + 1..])
  }

  /** Complete exchanges, with the closing nudge or without. */
  predicate WellFormed(tail: seq<Message>) {
    Exchanges(tail) || (tail != [] && tail[|tail| - 1] == NUDGE && Exchanges(tail[..|tail| - 1]))
  }

  lemma {:induction false} ExchangesThen(tail: seq<Message>, more: seq<Message>)
    requires Exchanges(tail) && Exchanges(more)
    ensures Exchanges(tail + more)
    decreases |tail|
  {
    if tail == [] {
      assert tail + more == more;
    } else {
      var n := |tail[0].calls|;
      assert StartsExchange(tail);
      ExchangesThen(tail[n + 1..], more);
      assert (tail + more)[1..n + 1] == tail[1..n + 1];
      assert (tail + more)[n + 1..] == tail[n + 1..] + more;
      assert StartsExchange(tail + more);
    }
  }

  /** Everything sent so far is the opening and complete exchanges. */
  predicate SentWellFormed(opening: seq<Message>, sent: seq<seq<Message>>) {
    forall i :: 0 <= i < |sent| ==> opening <= sent[i] && WellFormed(sent[i][|opening|..])
  }

  /** While the run goes on its conversation is the opening and complete exchanges too. */
  predicate Orderly(opening: seq<Message>, o: Outcome) {
    && SentWellFormed(opening, o.run.sent)
    && (!o.Ended? ==> opening <= o.run.messages && Exchanges(o.run.messages[|opening|..]))
  }

  /** After `n` calls the conversation has grown by the first `n` replies. */
  lemma {:induction false} CallsReply(start: Run, w: World, round: nat, calls: seq<ToolCall>, n: nat)
    requires n <= |calls|
    ensures var o := CallTools(start, w, round, calls, n);
            && o.run.sent == start.sent
            && (o.Going? ==> start.messages <= o.run.messages)
            && (o.Going? ==> Answers(calls[..n], o.run.messages[|start.messages|..]))
  {
    if n > 0 {
      CallsReply(start, w, round, calls, n - 1);
      var so, o := CallTools(start, w, round, calls, n - 1), CallTools(start, w, round, calls, n);
      if o.Going? {
        var m := o.run.messages[|o.run.messages| - 1];
        assert o.run.messages == so.run.messages + [m];
        assert o.run.messages[|start.messages|..] == so.run.messages[|start.messages|..] + [m];
        assert calls[..n] == calls[..n - 1] + [calls[n - 1]];
      }
    }
  }

  /** One more complete exchange keeps a conversation orderly. */
  lemma ExchangeAppended(opening: seq<Message>, messages: seq<Message>, spoken: Message, replies: seq<Message>)
    requires opening <= messages && Exchanges(messages[|opening|..])
    requires spoken.Assistant? && 1 <= |spoken.calls| <= 10 && Answers(spoken.calls, replies)
    ensures var longer := messages + [spoken] + replies;
            opening <= longer && Exchanges(longer[|opening|..])
  {
    OneExchange(spoken, replies);
    ExchangesThen(messages[|opening|..], [spoken] + replies);
    assert (messages + [spoken] + replies)[|opening|..] == messages[|opening|..] + ([spoken] + replies);
  }

  lemma RoundOrderly(opening: seq<Message>, r: Run, w: World, round: nat)
    requires Orderly(opening, Going(r))
    ensures Orderly(opening, ToolRound(r, w, round))
  {
    var asked, reply := Request(Yield(r, Thinking)), w.reply(round);
    assert SentWellFormed(opening, asked.sent);
    if reply.Reply? && reply.calls != [] {
      var kept := FirstCalls(reply.calls);
      var spoken := Assistant(if reply.content == "" then None else Some(reply.content), kept);
      CallsOrderly(opening, Say(asked, spoken), w, round, r.messages, spoken);
    }
  }

  lemma {:induction false} CallsOrderly(opening: seq<Message>, said: Run, w: World, round: nat,
                                        before: seq<Message>, spoken: Message)
    requires SentWellFormed(opening, said.sent) && opening <= before && Exchanges(before[|opening|..])
    requires spoken.Assistant? && 1 <= |spoken.calls| <= 10 && said.messages == before + [spoken]
    ensures Orderly(opening, CallTools(said, w, round, spoken.calls, |spoken.calls|))
  {
    var calls := spoken.calls;
    CallsReply(said, w, round, calls, |calls|);
    var o := CallTools(said, w, round, calls, |calls|);
    if o.Going? {
      var replies := o.run.messages[|said.messages|..];
      assert calls[..|calls|] == calls;
      ExchangeAppended(opening, before, spoken, replies);
      assert o.run.messages == before + [spoken] + replies;
    }
  }

  lemma {:induction false} OneExchange(spoken: Message, replies: seq<Message>)
    requires spoken.Assistant? && 1 <= |spoken.calls| <= 10 && Answers(spoken.calls, replies)
    ensures Exchanges([spoken] + replies)
  {
    var all := [spoken] + replies;
    assert all[1..|spoken.calls| + 1] == replies;
    assert all[|spoken.calls| + 1..] == [];
    assert StartsExchange(all);
  }

  lemma {:induction false} RoundsOrderly(opening: seq<Message>, start: Run, w: World, n: nat)
    requires Orderly(opening, Going(start))
    ensures Orderly(opening, ToolRounds(start, w, n))
  {
    if n > 0 {
      RoundsOrderly(opening, start, w, n - 1);
      var so := ToolRounds(start, w, n - 1);
      if so.Going? { RoundOrderly(opening, so.run, w, n - 1); }
    }
  }

  lemma {:induction false} StreamSendsNothing(r: Run, items: seq<StreamItem>, n: nat)
    requires n <= |items|
    ensures StreamUpTo(r, items, n).sent == r.sent
  {
    if n > 0 { StreamSendsNothing(r, items, n - 1); }
  }

  /**
   * Every conversation the model is ever sent is the opening followed by complete exchanges: each
   * assistant message with tool calls is followed by exactly one reply per call, in order, with
   * matching ids, even if a later call throws.
   */
  lemma RequestsAreWellFormed(system: string, history: seq<Message>, question: string, w: World)
    ensures SentWellFormed([System(system)] + history + [User(question)], AskRun(system, history, question, w).sent)
  {
    var opening := Opening(system, history, question);
    var start := Run([DigestShown], opening, []);
    assert opening[|opening|..] == [];
    RoundsOrderly(opening, start, w, MAX_TOOL_ROUNDS);
    var o := ToolRounds(start, w, MAX_TOOL_ROUNDS);
    if !o.Ended? {
      var r := if o.Going? then Say(o.run, NUDGE) else o.run;
      var tail := r.messages[|opening|..];
      assert o.Going? ==> tail == o.run.messages[|opening|..] + [NUDGE];
      assert o.Going? ==> tail[..|tail| - 1] == o.run.messages[|opening|..];
      assert SentWellFormed(opening, Request(r).sent);
      StreamSendsNothing(Request(r), w.stream.items, |w.stream.items|);
    }
  }
}
