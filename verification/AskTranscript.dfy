/** What a run tells the user and the model, stated over the replies, the executions and the stream alone. */
module AskTranscript {
  import opened Alignment
  import opened Sse
  import opened AskLoop

  // ---- One round ------------------------------------------------------------------------------

  /** As many calls of a reply as one round runs. */
  function CallCount(calls: seq<ToolCall>): nat { if |calls| < 10 then |calls| else 10 }

  /** The reply asks for tools and none of those that run throws. */
  ghost predicate RoundRuns(w: World, round: nat) {
    && w.reply(round).Reply? && w.reply(round).calls != []
    && forall j :: 0 <= j < CallCount(w.reply(round).calls) ==> Runs(w, round, j)
  }

  predicate Runs(w: World, round: nat, j: nat)
    requires w.reply(round).Reply? && j < |w.reply(round).calls|
  {
    w.execute(round, j, w.reply(round).calls[j]).Ran?
  }

  /** Two events for each call: its caption, then what it returned. */
  ghost predicate Told(w: World, round: nat, calls: seq<ToolCall>, n: nat, events: seq<Event>)
    requires n <= |calls|
  {
    |events| == 2 * n && forall j :: 0 <= j < n ==> ToldAt(w, round, calls[j], j, events)
  }

  ghost predicate ToldAt(w: World, round: nat, call: ToolCall, j: nat, events: seq<Event>)
    requires 2 * j + 1 < |events|
  {
    match w.execute(round, j, call)
    case Threw(_) => false
    case Ran(name, result, failed) =>
      && events[2 * j] == ToolStart(w.caption(call))
      && events[2 * j + 1] == ToolResult(w.caption(call), name, result, failed)
  }

  /** One reply for each call: its id, and what it returned. */
  ghost predicate Returned(w: World, round: nat, calls: seq<ToolCall>, n: nat, replies: seq<Message>)
    requires n <= |calls|
  {
    |replies| == n && forall j :: 0 <= j < n ==> ReturnedAt(w, round, calls[j], j, replies[j])
  }

  ghost predicate ReturnedAt(w: World, round: nat, call: ToolCall, j: nat, m: Message) {
    match w.execute(round, j, call)
    case Threw(_) => false
    case Ran(name, result, _) => m == Tool(call.id, name, result)
  }

  /** What calls that all run add to a run. */
  ghost predicate Grows(w: World, round: nat, calls: seq<ToolCall>, n: nat, before: Run, after: Run)
    requires n <= |calls|
  {
    && after.sent == before.sent && before.events <= after.events && before.messages <= after.messages
    && Told(w, round, calls, n, after.events[|before.events|..])
    && Returned(w, round, calls, n, after.messages[|before.messages|..])
  }

  /** The calls all run, or the first that throws is the last event. */
  lemma {:induction false} CallsGrow(start: Run, w: World, round: nat, calls: seq<ToolCall>, n: nat)
    requires n <= |calls|
    ensures CallTools(start, w, round, calls, n).Going?
      <==> forall j :: 0 <= j < n ==> w.execute(round, j, calls[j]).Ran?
    ensures CallTools(start, w, round, calls, n).Going?
      ==> Grows(w, round, calls, n, start, CallTools(start, w, round, calls, n).run)
  {
    if n > 0 {
      CallsGrow(start, w, round, calls, n - 1);
      var so, o := CallTools(start, w, round, calls, n - 1), CallTools(start, w, round, calls, n);
      if o.Going? { CallGrows(start, w, round, calls, n - 1, so.run, o.run); }
    }
  }

  lemma CallGrows(start: Run, w: World, round: nat, calls: seq<ToolCall>, n: nat, so: Run, next: Run)
    requires n < |calls| && Grows(w, round, calls, n, start, so) && w.execute(round, n, calls[n]).Ran?
    requires var x := w.execute(round, n, calls[n]);
             && next.messages == so.messages + [Tool(calls[n].id, x.name, x.result)] && next.sent == so.sent
             && next.events == so.events + [ToolStart(w.caption(calls[n]))]
                               + [ToolResult(w.caption(calls[n]), x.name, x.result, x.failed)]
    ensures Grows(w, round, calls, n + 1, start, next)
  {
    var was, now := so.events[|start.events|..], next.events[|start.events|..];
    assert now[..2 * n] == was;
    forall j | 0 <= j < n + 1 ensures ToldAt(w, round, calls[j], j, now) {
      if j < n { assert ToldAt(w, round, calls[j], j, was); }
    }
    var had, replies := so.messages[|start.messages|..], next.messages[|start.messages|..];
    assert replies == had + [next.messages[|so.messages|]];
    forall j | 0 <= j < n + 1 ensures ReturnedAt(w, round, calls[j], j, replies[j]) {
      if j < n { assert ReturnedAt(w, round, calls[j], j, had[j]); }
    }
  }

  function Spoke(content: string, calls: seq<ToolCall>): Message {
    Assistant(if content == "" then None else Some(content), calls)
  }

  /** The round's event, its request, the assistant's message with its first ten calls, then their results. */
  ghost predicate RoundTold(w: World, round: nat, before: Run, after: Run)
    requires w.reply(round).Reply?
  {
    var reply := w.reply(round);
    var n := CallCount(reply.calls);
    var spoken := Spoke(reply.content, reply.calls[..n]);
    && after.sent == before.sent + [before.messages]
    && before.events + [Thinking] <= after.events && before.messages + [spoken] <= after.messages
    && Told(w, round, reply.calls, n, after.events[|before.events| + 1..])
    && Returned(w, round, reply.calls, n, after.messages[|before.messages| + 1..])
  }

  lemma {:induction false} RoundTells(r: Run, w: World, round: nat)
    ensures ToolRound(r, w, round).Going? <==> RoundRuns(w, round)
    ensures ToolRound(r, w, round).Going? ==> RoundTold(w, round, r, ToolRound(r, w, round).run)
  {
    var reply := w.reply(round);
    if reply.Reply? && reply.calls != [] {
      var kept, n := FirstCalls(reply.calls), CallCount(reply.calls);
      assert kept == reply.calls[..n] && |kept| == n;
      var said := Say(Request(Yield(r, Thinking)), Spoke(reply.content, kept));
      CallsGrow(said, w, round, kept, n);
      assert forall j :: 0 <= j < n ==> kept[j] == reply.calls[j];
      if ToolRound(r, w, round).Going? { KeptTold(w, round, n, said, ToolRound(r, w, round).run); }
      assert forall j :: 0 <= j < n ==> (Runs(w, round, j) <==> w.execute(round, j, kept[j]).Ran?);
    }
  }

  lemma KeptTold(w: World, round: nat, n: nat, said: Run, after: Run)
    requires w.reply(round).Reply? && n <= |w.reply(round).calls|
    requires Grows(w, round, w.reply(round).calls[..n], n, said, after)
    ensures Grows(w, round, w.reply(round).calls, n, said, after)
  {
    var calls := w.reply(round).calls;
    forall j | 0 <= j < n
      ensures ToldAt(w, round, calls[j], j, after.events[|said.events|..])
      ensures ReturnedAt(w, round, calls[j], j, after.messages[|said.messages|..][j])
    {
      assert calls[..n][j] == calls[j];
    }
  }

  // ---- The whole run ----------------------------------------------------------------------------

  /** The text the user is shown, answers and reasoning, in order. */
  function Spoken(events: seq<Event>): seq<Event> {
    if events == [] then []
    else
      var e := events[|events| - 1];
      Spoken(events[..|events| - 1]) + (if e.Content? || e.Reasoning? then [e] else [])
  }

  /** The text of a stream. */
  function Streamed(items: seq<StreamItem>): seq<Event> {
    if items == [] then []
    else Streamed(items[..|items| - 1]) + Text(items[|items| - 1])
  }

  lemma YieldSpeaks(r: Run, e: Event)
    ensures Spoken(Yield(r, e).events) == Spoken(r.events) + (if e.Content? || e.Reasoning? then [e] else [])
    ensures Yield(r, e).events != [] && Last(Yield(r, e).events) == e
  {
    assert Yield(r, e).events[..|r.events|] == r.events;
  }

  function Last(events: seq<Event>): Event
    requires events != []
  {
    events[|events| - 1]
  }

  /** How a failure ends a run: an abort quietly, anything else as an error. */
  predicate Closes(f: Failure, e: Event) {
    (f.kind == Aborted ==> e == Done) && (f.kind != Aborted ==> e == Error(f.kind, f.message))
  }

  /** The failure is that of the first call to throw. */
  ghost predicate FirstThrow(w: World, round: nat, calls: seq<ToolCall>, n: nat, f: Failure)
    requires n <= |calls|
  {
    exists j :: 0 <= j < n && w.execute(round, j, calls[j]) == Threw(f) && AllRan(w, round, calls, j)
  }

  ghost predicate AllRan(w: World, round: nat, calls: seq<ToolCall>, j: nat)
    requires j <= |calls|
  {
    forall i :: 0 <= i < j ==> w.execute(round, i, calls[i]).Ran?
  }

  lemma ThrowSilent(r: Run, caption: string, f: Failure)
    ensures var ended := Catch(Yield(r, ToolStart(caption)), f);
            Spoken(ended.events) == Spoken(r.events) && ended.events != [] && Closes(f, Last(ended.events))
  {
    YieldSpeaks(r, ToolStart(caption));
    YieldSpeaks(Yield(r, ToolStart(caption)), CaughtEvent(f));
  }

  lemma RanSilent(r: Run, caption: string, m: Message, e: Event)
    requires e.ToolResult?
    ensures Spoken(Yield(Say(Yield(r, ToolStart(caption)), m), e).events) == Spoken(r.events)
  {
    YieldSpeaks(r, ToolStart(caption));
    YieldSpeaks(Say(Yield(r, ToolStart(caption)), m), e);
  }

  /** One more call shows no text. */
  lemma CallSilent(start: Run, w: World, round: nat, calls: seq<ToolCall>, n: nat)
    requires n < |calls|
    ensures Spoken(CallTools(start, w, round, calls, n + 1).run.events)
         == Spoken(CallTools(start, w, round, calls, n).run.events)
    ensures CallTools(start, w, round, calls, n + 1).run.sent == CallTools(start, w, round, calls, n).run.sent
  {
    var so, call := CallTools(start, w, round, calls, n), calls[n];
    if so.Going? {
      match w.execute(round, n, call)
      case Threw(f) => ThrowSilent(so.run, w.caption(call), f);
      case Ran(name, result, failed) =>
        RanSilent(so.run, w.caption(call), Tool(call.id, name, result),
                  ToolResult(w.caption(call), name, result, failed));
    }
  }

  /** The first `n` calls show no text. */
  ghost predicate Quiet(start: Run, w: World, round: nat, calls: seq<ToolCall>, n: nat)
    requires n <= |calls|
  {
    var o := CallTools(start, w, round, calls, n);
    Spoken(o.run.events) == Spoken(start.events) && o.run.sent == start.sent
  }

  lemma QuietFirst(start: Run, w: World, round: nat, calls: seq<ToolCall>)
    ensures Quiet(start, w, round, calls, 0)
  {
  }

  lemma QuietNext(start: Run, w: World, round: nat, calls: seq<ToolCall>, n: nat)
    requires n < |calls| && Quiet(start, w, round, calls, n)
    ensures Quiet(start, w, round, calls, n + 1)
  {
    CallSilent(start, w, round, calls, n);
  }

  lemma CallsSilent(start: Run, w: World, round: nat, calls: seq<ToolCall>)
    ensures Quiet(start, w, round, calls, |calls|)
  {
    QuietFirst(start, w, round, calls);
    for n := 0 to |calls|
      invariant Quiet(start, w, round, calls, n)
    {
      QuietNext(start, w, round, calls, n);
    }
  }

  lemma CallThrows(start: Run, w: World, round: nat, calls: seq<ToolCall>, n: nat, f: Failure)
    requires n < |calls| && CallTools(start, w, round, calls, n).Going? && w.execute(round, n, calls[n]) == Threw(f)
    ensures var o := CallTools(start, w, round, calls, n + 1);
            o.Ended? && o.run.events != [] && Closes(f, Last(o.run.events))
  {
    ThrowSilent(CallTools(start, w, round, calls, n).run, w.caption(calls[n]), f);
  }

  lemma {:induction false} CallsGo(start: Run, w: World, round: nat, calls: seq<ToolCall>, n: nat)
    requires n <= |calls| && AllRan(w, round, calls, n)
    ensures CallTools(start, w, round, calls, n).Going?
  {
    CallsGrow(start, w, round, calls, n);
  }

  /** A call that throws after others that did not ends the run. */
  lemma {:induction false} CallsClose(start: Run, w: World, round: nat, calls: seq<ToolCall>, n: nat, f: Failure)
    requires n <= |calls| && FirstThrow(w, round, calls, n, f)
    ensures var o := CallTools(start, w, round, calls, n);
            o.Ended? && o.run.events != [] && Closes(f, Last(o.run.events))
  {
    var j :| 0 <= j < n && w.execute(round, j, calls[j]) == Threw(f) && AllRan(w, round, calls, j);
    CallsGo(start, w, round, calls, j);
    CallThrows(start, w, round, calls, j, f);
    EndedStays(start, w, round, calls, j + 1, n);
  }

  /** The first `n` rounds run. */
  ghost predicate Reaches(w: World, n: nat) { forall i :: 0 <= i < n ==> RoundRuns(w, i) }

  /** Round `n` is reached and answers without looking anything up. */
  ghost predicate Direct(w: World, n: nat) {
    Reaches(w, n) && w.reply(n).Reply? && w.reply(n).calls == [] && !Blank(w.reply(n).content)
  }

  /** Round `n` is reached and neither answers nor asks for a lookup. */
  ghost predicate Silent(w: World, n: nat) {
    Reaches(w, n) && w.reply(n).Reply? && w.reply(n).calls == [] && Blank(w.reply(n).content)
  }

  /** Round `n` is reached and fails: the request does, or a lookup does. */
  ghost predicate Broken(w: World, n: nat, f: Failure) {
    Reaches(w, n) && Fails(w, n, f)
  }

  /** The round's request fails, or the first of its calls to throw does so. */
  ghost predicate Fails(w: World, n: nat, f: Failure) {
    var reply := w.reply(n);
    if reply.ReplyFails? then reply.failure == f
    else reply.calls != [] && FirstThrow(w, n, reply.calls, CallCount(reply.calls), f)
  }

  /** One of the four happens, whatever the world. */
  lemma {:induction false} OneOutcome(w: World, n: nat) returns (k: nat, f: Failure)
    ensures Reaches(w, n) || (k < n && (Direct(w, k) || Silent(w, k) || Broken(w, k, f)))
  {
    k, f := 0, Failure(Unknown, "");
    if !Reaches(w, n) {
      while RoundRuns(w, k)
        invariant Reaches(w, k) && k < n
        decreases n - k
      {
        k := k + 1;
        if k == n { assert Reaches(w, n); }
      }
      match w.reply(k) {
        case ReplyFails(g) => f := g;
        case Reply(_, _, calls) =>
          if calls != [] {
            var j := 0;
            while w.execute(k, j, calls[j]).Ran?
              invariant j < CallCount(calls) && AllRan(w, k, calls, j)
              decreases CallCount(calls) - j
            {
              j := j + 1;
              if j == CallCount(calls) { assert RoundRuns(w, k); }
            }
            f := w.execute(k, j, calls[j]).failure;
          }
      }
    }
  }

  /** A round that runs shows no text and sends one request. */
  lemma RoundSilent(r: Run, w: World, round: nat)
    requires RoundRuns(w, round)
    ensures Spoken(ToolRound(r, w, round).run.events) == Spoken(r.events)
    ensures ToolRound(r, w, round).run.sent == r.sent + [r.messages]
  {
    var reply := w.reply(round);
    var kept := FirstCalls(reply.calls);
    YieldSpeaks(r, Thinking);
    var said := Say(Request(Yield(r, Thinking)), Spoke(reply.content, kept));
    CallsSilent(said, w, round, kept);
  }

  lemma {:induction false} RoundsRun(start: Run, w: World, n: nat)
    ensures ToolRounds(start, w, n).Going? <==> Reaches(w, n)
  {
    if n > 0 {
      RoundsRun(start, w, n - 1);
      RoundRunsNext(start, w, n - 1);
    }
  }

  lemma RoundRunsNext(start: Run, w: World, n: nat)
    requires ToolRounds(start, w, n).Going? <==> Reaches(w, n)
    ensures ToolRounds(start, w, n + 1).Going? <==> Reaches(w, n + 1)
  {
    var so := ToolRounds(start, w, n);
    RoundGoes(so.run, w, n);
    assert ToolRounds(start, w, n + 1) == PastRound(start, w, n);
  }

  lemma RoundGoes(r: Run, w: World, round: nat)
    ensures ToolRound(r, w, round).Going? <==> RoundRuns(w, round)
  {
    RoundTells(r, w, round);
  }

  /** Rounds that run show no text and send one request each. */
  ghost predicate AllQuiet(start: Run, w: World, n: nat) {
    var r := ToolRounds(start, w, n).run;
    Spoken(r.events) == Spoken(start.events) && |r.sent| == |start.sent| + n
  }

  lemma AllQuietNext(start: Run, w: World, n: nat)
    requires Reaches(w, n + 1) && AllQuiet(start, w, n)
    ensures AllQuiet(start, w, n + 1)
  {
    RoundsRun(start, w, n);
    RoundSilent(ToolRounds(start, w, n).run, w, n);
    assert ToolRounds(start, w, n + 1) == PastRound(start, w, n);
  }

  lemma {:induction false} RoundsTell(start: Run, w: World, n: nat)
    requires Reaches(w, n)
    ensures ToolRounds(start, w, n).Going? && AllQuiet(start, w, n)
  {
    RoundsRun(start, w, n);
    if n > 0 {
      RoundsTell(start, w, n - 1);
      AllQuietNext(start, w, n - 1);
    }
  }

  ghost predicate Shows(r: Run, start: Run, text: seq<Event>, requests: nat) {
    r.events != [] && Spoken(r.events) == Spoken(start.events) + text && |r.sent| == |start.sent| + requests
  }

  function Thought(reasoning: string): seq<Event> { if reasoning == "" then [] else [Reasoning(reasoning)] }

  /** A direct answer is shown, after its reasoning if there is any. */
  lemma DirectRound(r: Run, w: World, round: nat)
    requires var reply := w.reply(round); reply.Reply? && reply.calls == [] && !Blank(reply.content)
    ensures var o, reply := ToolRound(r, w, round), w.reply(round);
            && o.Ended? && Shows(o.run, r, Thought(reply.reasoning) + [Content(reply.content)], 1)
            && Last(o.run.events) == Done
  {
    var reply, asked := w.reply(round), Request(Yield(r, Thinking));
    YieldSpeaks(r, Thinking);
    var thought := if reply.reasoning != "" then Yield(asked, Reasoning(reply.reasoning)) else asked;
    YieldSpeaks(asked, Reasoning(reply.reasoning));
    assert Spoken(thought.events) == Spoken(r.events) + Thought(reply.reasoning);
    YieldSpeaks(thought, Content(reply.content));
    YieldSpeaks(Yield(thought, Content(reply.content)), Done);
    assert Spoken(r.events) + Thought(reply.reasoning) + [Content(reply.content)]
        == Spoken(r.events) + (Thought(reply.reasoning) + [Content(reply.content)]);
  }

  lemma BrokenRound(r: Run, w: World, round: nat, f: Failure)
    requires Fails(w, round, f)
    ensures var o := ToolRound(r, w, round);
            o.Ended? && Shows(o.run, r, [], 1) && Closes(f, Last(o.run.events))
  {
    var reply, asked := w.reply(round), Request(Yield(r, Thinking));
    YieldSpeaks(r, Thinking);
    if reply.ReplyFails? {
      YieldSpeaks(asked, CaughtEvent(f));
    } else {
      var kept := FirstCalls(reply.calls);
      var said := Say(asked, Spoke(reply.content, kept));
      KeptThrow(w, round, reply.calls, kept, f);
      CallsSilent(said, w, round, kept);
      CallsClose(said, w, round, kept, |kept|, f);
    }
  }

  lemma KeptThrow(w: World, round: nat, calls: seq<ToolCall>, kept: seq<ToolCall>, f: Failure)
    requires kept == FirstCalls(calls) && FirstThrow(w, round, calls, CallCount(calls), f)
    ensures FirstThrow(w, round, kept, |kept|, f)
  {
    var j :| 0 <= j < CallCount(calls) && w.execute(round, j, calls[j]) == Threw(f) && AllRan(w, round, calls, j);
    assert AllRan(w, round, kept, j) && kept[j] == calls[j];
  }

  // ---- The streamed turn --------------------------------------------------------------------------

  lemma {:induction false} StreamSpeaks(r: Run, items: seq<StreamItem>, n: nat)
    requires n <= |items|
    ensures Spoken(StreamUpTo(r, items, n).events) == Spoken(r.events) + Streamed(items[..n])
  {
    if n > 0 {
      StreamSpeaks(r, items, n - 1);
      StreamNext(items, n - 1);
      var so := StreamUpTo(r, items, n - 1);
      match items[n - 1]
      case StreamContent(d) => YieldSpeaks(so, Content(d));
      case StreamReasoning(d) => YieldSpeaks(so, Reasoning(d));
      case StreamOther =>
    }
  }

  function Text(item: StreamItem): seq<Event> {
    match item
    case StreamContent(d) => [Content(d)]
    case StreamReasoning(d) => [Reasoning(d)]
    case StreamOther => []
  }

  lemma StreamNext(items: seq<StreamItem>, n: nat)
    requires n < |items|
    ensures Streamed(items[..n + 1]) == Streamed(items[..n]) + Text(items[n])
  {
    assert items[..n + 1][..n] == items[..n];
  }

  /** How a stream ends a run: by its failure, or as an error if it held no answer text, or done. */
  predicate StreamCloses(s: Stream, e: Event) {
    match s.failure
    case Some(f) => Closes(f, e)
    case None =>
      && ((exists i :: 0 <= i < |s.items| && s.items[i].StreamContent?) ==> e == Done)
      && ((forall i :: 0 <= i < |s.items| ==> !s.items[i].StreamContent?) ==> e == Error(Protocol, NO_ANSWER))
  }

  lemma FinalTurnShows(r: Run, w: World)
    ensures Shows(FinalTurn(r, w), r, Streamed(w.stream.items), 1)
    ensures StreamCloses(w.stream, Last(FinalTurn(r, w).events))
    ensures FinalTurn(r, w).sent == r.sent + [r.messages]
  {
    var n := |w.stream.items|;
    StreamSpeaks(Request(r), w.stream.items, n);
    StreamSendsNothing(Request(r), w.stream.items, n);
    assert w.stream.items[..n] == w.stream.items;
    YieldSpeaks(StreamUpTo(Request(r), w.stream.items, n), LastEvent(w.stream));
  }

  // ---- Every outcome --------------------------------------------------------------------------------

  /** Six rounds of lookups end in a nudge and a streamed answer. */
  lemma ExhaustedShows(system: string, history: seq<Message>, question: string, w: World)
    requires Reaches(w, 6)
    ensures var r := AskRun(system, history, question, w);
            && r.events != [] && Spoken(r.events) == Streamed(w.stream.items) && StreamCloses(w.stream, Last(r.events))
            && |r.sent| == 7 && r.sent[6] != [] && r.sent[6][|r.sent[6]| - 1] == NUDGE
  {
    var start := Run([DigestShown], Opening(system, history, question), []);
    StartSilent(start);
    RoundsTell(start, w, 6);
    FinalTurnShows(Say(ToolRounds(start, w, 6).run, NUDGE), w);
  }

  lemma StartSilent(r: Run)
    requires r.events == [DigestShown]
    ensures Spoken(r.events) == []
  {
    assert r.events[..0] == [];
  }

  lemma {:induction false} Stopped(start: Run, w: World, n: nat)
    requires n < 6 && Reaches(w, n) && !ToolRound(ToolRounds(start, w, n).run, w, n).Going?
    ensures ToolRounds(start, w, 6) == ToolRound(ToolRounds(start, w, n).run, w, n)
  {
    RoundsTell(start, w, n);
    assert ToolRounds(start, w, n + 1) == PastRound(start, w, n);
    RoundsStay(start, w, n + 1, 6);
  }

  /** A direct answer is what the user sees, after its reasoning. */
  lemma DirectShows(system: string, history: seq<Message>, question: string, w: World, n: nat)
    requires n < 6 && Direct(w, n)
    ensures var r := AskRun(system, history, question, w);
            && r.events != [] && Spoken(r.events) == Thought(w.reply(n).reasoning) + [Content(w.reply(n).content)]
            && Last(r.events) == Done && |r.sent| == n + 1
  {
    var start := Run([DigestShown], Opening(system, history, question), []);
    StartSilent(start);
    RoundsTell(start, w, n);
    DirectRound(ToolRounds(start, w, n).run, w, n);
    Stopped(start, w, n);
  }

  /** A reply with neither text nor lookups is followed by the streamed answer, without a nudge. */
  lemma SilentShows(system: string, history: seq<Message>, question: string, w: World, n: nat)
    requires n < 6 && Silent(w, n)
    ensures var r := AskRun(system, history, question, w);
            && r.events != [] && Spoken(r.events) == Streamed(w.stream.items) && StreamCloses(w.stream, Last(r.events))
            && |r.sent| == n + 2 && r.sent[n + 1] == r.sent[n]
  {
    var start := Run([DigestShown], Opening(system, history, question), []);
    StartSilent(start);
    RoundsTell(start, w, n);
    var so := ToolRounds(start, w, n).run;
    YieldSpeaks(so, Thinking);
    Stopped(start, w, n);
    FinalTurnShows(Request(Yield(so, Thinking)), w);
  }

  /** A failed round shows nothing and ends the run by its failure. */
  lemma BrokenShows(system: string, history: seq<Message>, question: string, w: World, n: nat, f: Failure)
    requires n < 6 && Broken(w, n, f)
    ensures var r := AskRun(system, history, question, w);
            r.events != [] && Spoken(r.events) == [] && Closes(f, Last(r.events)) && |r.sent| == n + 1
  {
    var start := Run([DigestShown], Opening(system, history, question), []);
    StartSilent(start);
    RoundsTell(start, w, n);
    BrokenRound(ToolRounds(start, w, n).run, w, n, f);
    Stopped(start, w, n);
  }
}
