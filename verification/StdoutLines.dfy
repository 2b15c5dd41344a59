/** The consumer of a child process's JSON lines (src/adapters/codex-executor.ts:588-666, 818-820). What it ends up with
    depends on the text alone, not on how the text was cut into chunks. */
module StdoutLines {
  import opened Basics

  // ---------------------------------------------------------------------------------------------------------------
  // Lines

  function IndexOfNewline(text: string): (i: nat)
    requires '\n' in text
    ensures i < |text| && text[i] == '\n' && forall j :: 0 <= j < i ==> text[j] != '\n'
  {
    if text[0] == '\n' then 0 else 1 + IndexOfNewline(text[1..])
  }

  /** The newline-terminated lines of a text, without their newlines. */
  function Complete(text: string): seq<string>
    decreases |text|
  {
    if '\n' !in text then []
    else
      var i := IndexOfNewline(text);
      [text[..i]] + Complete(text[i + 1..])
  }

  /** What follows the last newline. */
  function Rest(text: string): string
    decreases |text|
  {
    if '\n' !in text then text else Rest(text[IndexOfNewline(text) + 1..])
  }

  function Joined(lines: seq<string>): string {
    if lines == [] then "" else lines[0] + "\n" + Joined(lines[1..])
  }

  lemma NoNewline(text: string)
    requires '\n' !in text
    ensures Complete(text) == [] && Rest(text) == text
  {
  }

  lemma FirstLine(text: string, i: nat)
    requires i < |text| && text[i] == '\n' && '\n' !in text[..i]
    ensures '\n' in text && IndexOfNewline(text) == i
    ensures Complete(text) == [text[..i]] + Complete(text[i + 1..]) && Rest(text) == Rest(text[i + 1..])
  {
    assert text[i] in text;
    assert forall j :: 0 <= j < i ==> text[j] == text[..i][j];
    assert IndexOfNewline(text) == i;
  }

  /** Nothing is lost: the lines and the rest put together are the text. */
  lemma {:induction false} LinesRejoin(text: string)
    ensures Joined(Complete(text)) + Rest(text) == text
    ensures '\n' !in Rest(text)
    decreases |text|
  {
    hide Complete, Rest;
    if '\n' in text {
      var i := IndexOfNewline(text);
      FirstLine(text, i);
      LinesRejoin(text[i + 1..]);
      assert Complete(text)[1..] == Complete(text[i + 1..]);
      assert text == text[..i] + "\n" + text[i + 1..];
    } else {
      NoNewline(text);
    }
  }

  /** Splitting a text after a prefix was split already: only the rest of the prefix matters. */
  lemma {:induction false} SplitInTwo(x: string, y: string)
    ensures Complete(x + y) == Complete(x) + Complete(Rest(x) + y)
    ensures Rest(x + y) == Rest(Rest(x) + y)
    decreases |x|
  {
    hide Complete, Rest;
    if '\n' in x {
      var i := IndexOfNewline(x);
      FirstLine(x, i);
      assert (x + y)[..i] == x[..i] && (x + y)[i + 1..] == x[i + 1..] + y;
      FirstLine(x + y, i);
      SplitInTwo(x[i + 1..], y);
    } else {
      NoNewline(x);
    }
  }

  // ---------------------------------------------------------------------------------------------------------------
  // One line

  /** What the progress parser makes of an event. */
  datatype Update = Update(eventType: string, summary: Option<string>, lastMessage: Option<string>, tokens: Option<int>)

  /** A decoded line: the event type, the key of the command execution it is about, if any, and its update. */
  datatype Event = Event(eventType: string, commandKey: Option<string>, update: Option<Update>)

  type Counts = map<string, int>

  /** What the consumer remembers; `writes` lists the last messages queued for writing, in order. */
  datatype Memory = Memory(counts: Counts, eventType: Option<string>, eventText: Option<string>,
                           lastMessage: Option<string>, tokens: Option<int>, writes: seq<string>)

  const NOTHING := Memory(map[], None, None, None, None, [])

  const STOCK_SUMMARIES := {"Codex started working.", "Codex completed the turn."}

  predicate Given(text: Option<string>) {
    text.Some? && text.value != ""
  }

  function CountOf(counts: Counts, key: string): int {
    if key in counts then counts[key] else 0
  }

  /** noteCommandActivity. */
  function Noted(memory: Memory, event: Event): Memory {
    if !Given(event.commandKey) then memory
    else
      var key := event.commandKey.value;
      if event.eventType == "item.started" then memory.(counts := memory.counts[key := CountOf(memory.counts, key) + 1])
      else if event.eventType in {"item.completed", "item.failed"} then
        var next := CountOf(memory.counts, key) - 1;
        var counts := if next > 0 then memory.counts[key := next] else memory.counts - {key};
        memory.(counts := counts,
                writes := memory.writes
                  + if counts == map[] && Given(memory.lastMessage) then [memory.lastMessage.value] else [])
      else memory
  }

  /** The effect of a progress update; a message is written at once only while no command runs. */
  function Updated(memory: Memory, update: Update, accept: string -> bool): Memory {
    var message := update.lastMessage;
    memory.(
      eventType := Some(update.eventType),
      eventText := if Given(message) then message
                   else if Given(update.summary) && update.summary.value !in STOCK_SUMMARIES then update.summary
                   else memory.eventText,
      lastMessage := if Given(message) then message else memory.lastMessage,
      tokens := if update.tokens.Some? then update.tokens else memory.tokens,
      writes := memory.writes
                + if Given(message) && accept(message.value) && memory.counts == map[] then [message.value] else [])
  }

  type Decoder = string -> Option<Event>

  function Handled(memory: Memory, line: string, decode: Decoder, accept: string -> bool): Memory {
    if Trim(line) == "" then memory
    else match decode(Trim(line))
      case None => memory
      case Some(event) =>
        var noted := Noted(memory, event);
        if event.update.None? then noted else Updated(noted, event.update.value, accept)
  }

  function HandledAll(memory: Memory, lines: seq<string>, decode: Decoder, accept: string -> bool): Memory {
    if lines == [] then memory
    else Handled(HandledAll(memory, lines[..|lines| - 1], decode, accept), lines[|lines| - 1], decode, accept)
  }

  lemma {:induction false} HandledInTwo(memory: Memory, a: seq<string>, b: seq<string>, decode: Decoder,
                                        accept: string -> bool)
    ensures HandledAll(memory, a + b, decode, accept)
      == HandledAll(HandledAll(memory, a, decode, accept), b, decode, accept)
  {
    if b == [] {
      assert a + b == a;
    } else {
      var n := |b| - 1;
      HandledInTwo(memory, a, b[..n], decode, accept);
      assert (a + b)[..|a + b| - 1] == a + b[..n];
    }
  }

  lemma NoneHandled(memory: Memory, decode: Decoder, accept: string -> bool)
    ensures HandledAll(memory, [], decode, accept) == memory
  {
  }

  /** Handling the first line first. */
  lemma TakeLine(memory: Memory, text: string, decode: Decoder, accept: string -> bool)
    requires '\n' in text
    ensures var i := IndexOfNewline(text);
      && HandledAll(memory, Complete(text), decode, accept)
         == HandledAll(Handled(memory, text[..i], decode, accept), Complete(text[i + 1..]), decode, accept)
      && Rest(text) == Rest(text[i + 1..])
  {
    var i := IndexOfNewline(text);
    FirstLine(text, i);
    HandledInTwo(memory, [text[..i]], Complete(text[i + 1..]), decode, accept);
    assert HandledAll(memory, [text[..i]][..0], decode, accept) == memory;
  }

  // ---------------------------------------------------------------------------------------------------------------
  // Running commands

  ghost predicate Positive(counts: Counts) {
    forall key :: key in counts ==> counts[key] > 0
  }

  /** How many executions of the command run after one more line: a start adds one, an end takes one away, an end
      without a start being ignored. */
  function RunningNext(before: nat, line: string, key: string, decode: Decoder): nat {
    var event := if Trim(line) == "" then None else decode(Trim(line));
    if event.None? || event.value.commandKey != Some(key) || key == "" then before
    else if event.value.eventType == "item.started" then before + 1
    else if event.value.eventType in {"item.completed", "item.failed"} && before > 0 then before - 1
    else before
  }

  function Running(lines: seq<string>, key: string, decode: Decoder): nat {
    if lines == [] then 0
    else RunningNext(Running(lines[..|lines| - 1], key, decode), lines[|lines| - 1], key, decode)
  }

  lemma HandledCounts(memory: Memory, line: string, decode: Decoder, accept: string -> bool, key: string)
    requires Positive(memory.counts)
    ensures 0 <= CountOf(memory.counts, key) && Positive(Handled(memory, line, decode, accept).counts)
    ensures CountOf(Handled(memory, line, decode, accept).counts, key)
      == RunningNext(CountOf(memory.counts, key), line, key, decode)
  {
  }

  /** Stored counts are positive and are the numbers of running executions. */
  lemma {:induction false} CountsAreRunning(lines: seq<string>, decode: Decoder, accept: string -> bool)
    ensures var counts := HandledAll(NOTHING, lines, decode, accept).counts;
      Positive(counts) && forall key :: CountOf(counts, key) == Running(lines, key, decode)
  {
    if lines != [] {
      hide Handled, RunningNext, CountOf, Positive;
      var n := |lines| - 1;
      var before := HandledAll(NOTHING, lines[..n], decode, accept);
      CountsAreRunning(lines[..n], decode, accept);
      HandledCounts(before, lines[n], decode, accept, "");
      forall key ensures CountOf(Handled(before, lines[n], decode, accept).counts, key) == Running(lines, key, decode) {
        HandledCounts(before, lines[n], decode, accept, key);
      }
    }
  }

  ghost function Total(counts: Counts, keys: set<string>): int
    requires keys <= counts.Keys
  {
    if keys == {} then 0
    else
      var key :| key in keys;
      counts[key] + Total(counts, keys - {key})
  }

  lemma {:induction false} TotalSplits(counts: Counts, keys: set<string>, key: string)
    requires keys <= counts.Keys && key in keys
    ensures Total(counts, keys) == counts[key] + Total(counts, keys - {key})
    decreases keys
  {
    var first :| first in keys && Total(counts, keys) == counts[first] + Total(counts, keys - {first});
    if first != key {
      TotalSplits(counts, keys - {first}, key);
      TotalSplits(counts, keys - {key}, first);
      assert keys - {first} - {key} == keys - {key} - {first};
    }
  }

  /** activeCommandExecutionCount is 0 exactly when no command runs. */
  lemma {:induction false} TotalZero(counts: Counts, keys: set<string>)
    requires Positive(counts) && keys <= counts.Keys
    ensures 0 <= Total(counts, keys) && (Total(counts, keys) == 0 <==> keys == {})
  {
    if keys != {} {
      var key :| key in keys && Total(counts, keys) == counts[key] + Total(counts, keys - {key});
      TotalZero(counts, keys - {key});
    }
  }

  // ---------------------------------------------------------------------------------------------------------------
  // The latest texts

  function EventOf(line: string, decode: Decoder): Option<Event> {
    if Trim(line) == "" then None else decode(Trim(line))
  }

  function MessageOf(line: string, decode: Decoder): Option<string> {
    var event := EventOf(line, decode);
    if event.Some? && event.value.update.Some? && event.value.update.value.lastMessage != Some("") then
      event.value.update.value.lastMessage
    else None
  }

  function TokensOf(line: string, decode: Decoder): Option<int> {
    var event := EventOf(line, decode);
    if event.Some? && event.value.update.Some? then event.value.update.value.tokens else None
  }

  function TypeOf(line: string, decode: Decoder): Option<string> {
    var event := EventOf(line, decode);
    if event.Some? && event.value.update.Some? then Some(event.value.update.value.eventType) else None
  }

  /** The text a line gives: its message, else its summary unless that is a stock phrase. */
  function TextOf(line: string, decode: Decoder): Option<string> {
    var event := EventOf(line, decode);
    if MessageOf(line, decode).Some? then MessageOf(line, decode)
    else if event.Some? && event.value.update.Some? && event.value.update.value.summary != Some("")
            && event.value.update.value.summary != Some("Codex started working.")
            && event.value.update.value.summary != Some("Codex completed the turn.") then
      event.value.update.value.summary
    else None
  }

  /** What the last line that says something about it says. */
  ghost predicate IsLastGiven<T>(lines: seq<string>, given: string -> Option<T>, last: Option<T>) {
    match last
    case None => forall k :: 0 <= k < |lines| ==> given(lines[k]).None?
    case Some(_) =>
      exists k :: 0 <= k < |lines| && given(lines[k]) == last && forall m :: k < m < |lines| ==> given(lines[m]).None?
  }

  lemma LastGivenNext<T>(lines: seq<string>, line: string, given: string -> Option<T>, last: Option<T>)
    requires IsLastGiven(lines, given, last)
    ensures IsLastGiven(lines + [line], given, if given(line).Some? then given(line) else last)
  {
    var longer := lines + [line];
    if given(line).Some? {
      assert given(longer[|lines|]) == given(line);
    } else if last.Some? {
      var k :| 0 <= k < |lines| && given(lines[k]) == last && forall m :: k < m < |lines| ==> given(lines[m]).None?;
      assert longer[k] == lines[k];
    }
  }

  lemma HandledTexts(memory: Memory, line: string, decode: Decoder, accept: string -> bool)
    ensures var after := Handled(memory, line, decode, accept);
      && after.lastMessage == (if MessageOf(line, decode).Some? then MessageOf(line, decode) else memory.lastMessage)
      && after.tokens == (if TokensOf(line, decode).Some? then TokensOf(line, decode) else memory.tokens)
      && after.eventType == (if TypeOf(line, decode).Some? then TypeOf(line, decode) else memory.eventType)
      && after.eventText == (if TextOf(line, decode).Some? then TextOf(line, decode) else memory.eventText)
  {
  }

  /** The kept message, token count, event type and event text are those of the last line that gives one. */
  lemma {:induction false} LatestAreLast(lines: seq<string>, decode: Decoder, accept: string -> bool)
    ensures var memory := HandledAll(NOTHING, lines, decode, accept);
      && IsLastGiven(lines, (line: string) => MessageOf(line, decode), memory.lastMessage)
      && IsLastGiven(lines, (line: string) => TokensOf(line, decode), memory.tokens)
      && IsLastGiven(lines, (line: string) => TypeOf(line, decode), memory.eventType)
      && IsLastGiven(lines, (line: string) => TextOf(line, decode), memory.eventText)
  {
    if lines != [] {
      hide Handled, IsLastGiven, MessageOf, TokensOf, TypeOf, TextOf;
      var n := |lines| - 1;
      var before := HandledAll(NOTHING, lines[..n], decode, accept);
      LatestAreLast(lines[..n], decode, accept);
      assert lines == lines[..n] + [lines[n]];
      HandledTexts(before, lines[n], decode, accept);
      LastGivenNext(lines[..n], lines[n], (line: string) => MessageOf(line, decode), before.lastMessage);
      LastGivenNext(lines[..n], lines[n], (line: string) => TokensOf(line, decode), before.tokens);
      LastGivenNext(lines[..n], lines[n], (line: string) => TypeOf(line, decode), before.eventType);
      LastGivenNext(lines[..n], lines[n], (line: string) => TextOf(line, decode), before.eventText);
    }
  }

  /** If no command runs, the latest message, if acceptable, is also the last one queued for writing. */
  predicate Written(memory: Memory, accept: string -> bool) {
    memory.counts == map[] && Given(memory.lastMessage) && accept(memory.lastMessage.value) ==>
      memory.writes != [] && memory.writes[|memory.writes| - 1] == memory.lastMessage.value
  }

  lemma HandledWrites(memory: Memory, line: string, decode: Decoder, accept: string -> bool)
    requires Written(memory, accept)
    ensures Written(Handled(memory, line, decode, accept), accept)
  {
  }

  /** At any time: no message is lost for having arrived while a command ran. */
  lemma {:induction false} LatestMessageIsWritten(lines: seq<string>, decode: Decoder, accept: string -> bool)
    ensures Written(HandledAll(NOTHING, lines, decode, accept), accept)
  {
    if lines != [] {
      hide Handled, Written;
      var n := |lines| - 1;
      LatestMessageIsWritten(lines[..n], decode, accept);
      HandledWrites(HandledAll(NOTHING, lines[..n], decode, accept), lines[n], decode, accept);
    }
  }

  /** The line ends the execution of a command. */
  predicate EndsCommand(line: string, decode: Decoder) {
    var event := EventOf(line, decode);
    event.Some? && event.value.commandKey != None && event.value.commandKey != Some("")
    && event.value.eventType in {"item.completed", "item.failed"}
  }

  /** What the line adds to the messages queued for writing, by the message kept before it and whether nothing runs
      after it: the kept message when an execution ends, then its own message if acceptable, both only while idle. */
  function WritesOf(line: string, kept: Option<string>, idle: bool, decode: Decoder, accept: string -> bool)
    : seq<string>
  {
    var own := MessageOf(line, decode);
    (if idle && EndsCommand(line, decode) && kept.Some? && kept != Some("") then [kept.value] else [])
    + (if idle && own.Some? && accept(own.value) then [own.value] else [])
  }

  lemma HandledQueues(memory: Memory, line: string, decode: Decoder, accept: string -> bool)
    ensures var after := Handled(memory, line, decode, accept);
      after.writes == memory.writes + WritesOf(line, memory.lastMessage, after.counts == map[], decode, accept)
  {
  }

  lemma NothingRuns(counts: Counts, lines: seq<string>, decode: Decoder)
    requires Positive(counts) && forall key :: CountOf(counts, key) == Running(lines, key, decode)
    ensures counts == map[] <==> forall key :: Running(lines, key, decode) == 0
  {
    hide Running;
    if counts == map[] {
      forall key ensures Running(lines, key, decode) == 0 {
        assert CountOf(counts, key) == 0;
      }
    } else {
      var key :| key in counts;
      assert CountOf(counts, key) == Running(lines, key, decode) && CountOf(counts, key) > 0;
    }
  }

  /** Which messages one more line queues for writing, and in which order. */
  lemma QueuedForWriting(lines: seq<string>, line: string, decode: Decoder, accept: string -> bool)
    ensures var (before, after) := (HandledAll(NOTHING, lines, decode, accept),
                                    HandledAll(NOTHING, lines + [line], decode, accept));
      after.writes == before.writes + WritesOf(line, before.lastMessage,
                                               forall key :: Running(lines + [line], key, decode) == 0, decode, accept)
  {
    hide Handled, Running, WritesOf, Positive, CountOf;
    var longer := lines + [line];
    assert longer[..|longer| - 1] == lines;
    HandledQueues(HandledAll(NOTHING, lines, decode, accept), line, decode, accept);
    CountsAreRunning(longer, decode, accept);
    NothingRuns(HandledAll(NOTHING, longer, decode, accept).counts, longer, decode);
  }

  // ---------------------------------------------------------------------------------------------------------------
  // The consumer

  function Concat(chunks: seq<string>): string {
    if chunks == [] then "" else Concat(chunks[..|chunks| - 1]) + chunks[|chunks| - 1]
  }

  /** The lines the consumer sees of a whole output: a last line need not end with a newline. */
  function AllLines(text: string): seq<string> {
    Complete(text) + if Trim(Rest(text)) != "" then [Rest(text)] else []
  }

  class LineConsumer {
    const jsonOutput: bool
    const decode: Decoder
    const accept: string -> bool
    var buffer: string
    var counts: Counts
    var eventType: Option<string>
    var eventText: Option<string>
    var lastMessage: Option<string>
    var tokens: Option<int>
    var writes: seq<string>

    constructor (jsonOutput: bool, decode: Decoder, accept: string -> bool)
      ensures this.jsonOutput == jsonOutput && this.decode == decode && this.accept == accept
      ensures Valid() && buffer == "" && Remembered() == NOTHING
    {
      this.jsonOutput, this.decode, this.accept := jsonOutput, decode, accept;
      buffer, counts, eventType, eventText, lastMessage, tokens, writes := "", map[], None, None, None, None, [];
    }

    function Remembered(): Memory
      reads this
    {
      Memory(counts, eventType, eventText, lastMessage, tokens, writes)
    }

    /** The buffer never keeps a newline and stored counts are positive. */
    ghost predicate Valid()
      reads this
    {
      '\n' !in buffer && Positive(counts)
    }

    method ActiveCount() returns (n: int)
      ensures n == Total(counts, counts.Keys)
    {
      n := 0;
      var todo := counts.Keys;
      while todo != {}
        invariant todo <= counts.Keys && n + Total(counts, todo) == Total(counts, counts.Keys)
        decreases todo
      {
        var key :| key in todo;
        TotalSplits(counts, todo, key);
        n := n + counts[key];
        todo := todo - {key};
      }
    }

    method Idle() returns (idle: bool)
      requires Positive(counts)
      ensures idle <==> counts == map[]
    {
      var active := ActiveCount();
      TotalZero(counts, counts.Keys);
      idle := active == 0;
    }

    method NoteCommandActivity(event: Event)
      requires Positive(counts)
      modifies `counts, `writes
      ensures Positive(counts) && Remembered() == Noted(old(Remembered()), event)
    {
      if !Given(event.commandKey) {
        return;
      }
      var key := event.commandKey.value;
      if event.eventType == "item.started" {
        counts := counts[key := CountOf(counts, key) + 1];
      } else if event.eventType == "item.completed" || event.eventType == "item.failed" {
        var next := CountOf(counts, key) - 1;
        if next > 0 {
          counts := counts[key := next];
        } else {
          counts := counts - {key};
        }
        var idle := Idle();
        if idle && Given(lastMessage) {
          writes := writes + [lastMessage.value];
        }
      }
    }

    method HandleLine(text: string)
      requires Positive(counts)
      modifies `counts, `eventType, `eventText, `lastMessage, `tokens, `writes
      ensures Positive(counts) && Remembered() == Handled(old(Remembered()), text, decode, accept)
    {
      var line := Trim(text);
      if line == "" {
        return;
      }
      var parsed := decode(line);
      if parsed.None? {
        return;
      }
      NoteCommandActivity(parsed.value);
      if parsed.value.update.None? {
        return;
      }
      var update := parsed.value.update.value;
      eventType := Some(update.eventType);
      if Given(update.lastMessage) {
        eventText, lastMessage := update.lastMessage, update.lastMessage;
        var idle := Idle();
        if accept(update.lastMessage.value) && idle {
          writes := writes + [update.lastMessage.value];
        }
      } else if Given(update.summary) && update.summary.value !in STOCK_SUMMARIES {
        eventText := update.summary;
      }
      if update.tokens.Some? {
        tokens := update.tokens;
      }
    }

    /** consumeJsonStdout. */
    method Consume(chunk: string)
      requires Valid()
      modifies this
      ensures Valid()
      ensures !jsonOutput ==> unchanged(this)
      ensures jsonOutput ==>
        && buffer == Rest(old(buffer) + chunk)
        && Remembered() == HandledAll(old(Remembered()), Complete(old(buffer) + chunk), decode, accept)
    {
      if !jsonOutput {
        return;
      }
      hide Complete, Rest, Handled, HandledAll, IndexOfNewline;
      buffer := buffer + chunk;
      while '\n' in buffer
        invariant Positive(counts) && Rest(buffer) == Rest(old(buffer) + chunk)
        invariant HandledAll(Remembered(), Complete(buffer), decode, accept)
          == HandledAll(old(Remembered()), Complete(old(buffer) + chunk), decode, accept)
        decreases |buffer|
      {
        TakeLine(Remembered(), buffer, decode, accept);
        var newlineIndex := IndexOfNewline(buffer);
        var line := buffer[..newlineIndex];
        buffer := buffer[newlineIndex + 1..];
        HandleLine(line);
      }
      NoNewline(buffer);
      NoneHandled(Remembered(), decode, accept);
    }

    /** The data events of one process, then its close, which finishes an unfinished last line: whatever the chunks,
        the result is that of handling the lines of the whole text one by one. */
    method ConsumeAll(chunks: seq<string>)
      requires Valid() && jsonOutput && buffer == "" && Remembered() == NOTHING
      modifies this
      ensures Valid() && Remembered() == HandledAll(NOTHING, AllLines(Concat(chunks)), decode, accept)
    {
      for k := 0 to |chunks|
        invariant Valid() && buffer == Rest(Concat(chunks[..k]))
        invariant Remembered() == HandledAll(NOTHING, Complete(Concat(chunks[..k])), decode, accept)
      {
        ghost var before := Concat(chunks[..k]);
        assert chunks[..k + 1][..k] == chunks[..k];
        SplitInTwo(before, chunks[k]);
        HandledInTwo(NOTHING, Complete(before), Complete(Rest(before) + chunks[k]), decode, accept);
        Consume(chunks[k]);
      }
      assert chunks[..|chunks|] == chunks;
      assert Complete(Concat(chunks)) + [] == Complete(Concat(chunks));
      if Trim(buffer) != "" {
        FinishedLine(buffer);
        HandledInTwo(NOTHING, Complete(Concat(chunks)), [buffer], decode, accept);
        Consume("\n");
      }
    }
  }

  lemma FinishedLine(text: string)
    requires '\n' !in text
    ensures Complete(text + "\n") == [text] && Rest(text + "\n") == ""
  {
    FirstLine(text + "\n", |text|);
    assert (text + "\n")[..|text|] == text && (text + "\n")[|text| + 1..] == "";
    NoNewline("");
  }
}
