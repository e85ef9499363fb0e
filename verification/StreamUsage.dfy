/** Usage observed in a server-sent event stream while its bytes are forwarded unchanged. */
module StreamUsage {
  import opened Basics
  import opened JsonValues
  import opened Catalog

  newtype Byte = b: int | 0 <= b < 256

  type Bytes = seq<Byte>

  const NEWLINE: Byte := 10
  const MAX_BUFFER: nat := 4_000_000

  const DATA: Bytes := [100, 97, 116, 97, 58]
  const DONE: Bytes := [91, 68, 79, 78, 69, 93]

  /** What is not modelled of Python: `decode` is JSON decoding (absent when it fails), and `update` is
      `dict.update` with something that is not an object (absent when it raises). */
  datatype Codec = Codec(decode: Bytes -> Option<Json>, update: (Dict, Json) -> Option<Dict>)

  // ------------------------------------------------------------ usage in a payload

  /** A Python expression that may raise. */
  datatype Attempted<+T> = Raises | Value(value: T)

  predicate Numeric(v: Json) {
    v.Int? || v.Bool? || v.Real?
  }

  function AsInt(v: Json): int
    requires v.Int? || v.Bool?
  {
    if v.Int? then v.i else if v.b then 1 else 0
  }

  function AsReal(v: Json): real
    requires Numeric(v)
  {
    if v.Real? then v.r else AsInt(v) as real
  }

  /** `a - b`. */
  function Subtract(a: Json, b: Json): Attempted<Json> {
    if !Numeric(a) || !Numeric(b) then Raises
    else if a.Real? || b.Real? then Value(Real(AsReal(a) - AsReal(b)))
    else Value(Int(AsInt(a) - AsInt(b)))
  }

  function Counts(input: Json, output: Json, cacheRead: Json, cacheWrite: Json): Option<Usage> {
    if IntFrom(input, 0) && IntFrom(output, 0) && IntFrom(cacheRead, 0) && IntFrom(cacheWrite, 0)
    then Some(Usage(input.i, output.i, cacheRead.i, cacheWrite.i)) else None
  }

  function UsageObject(body: Dict): Json {
    var source := Get(body, "response", Obj(body));
    if source.Obj? then Get(source.fields, "usage", Null) else Null
  }

  /** Python's `or` of the two detail fields and an empty object. */
  function Details(usage: Dict): Json {
    if Truthy(Get(usage, "prompt_tokens_details", Null)) then usage["prompt_tokens_details"]
    else if Truthy(Get(usage, "input_tokens_details", Null)) then usage["input_tokens_details"]
    else Obj(map[])
  }

  function CachedIncluded(usage: Dict, inputKey: string, outputKey: string): Attempted<Option<Usage>>
    requires inputKey in usage && outputKey in usage
  {
    var details := Details(usage);
    if !details.Obj? then Raises
    else
      var cached := Get(details.fields, "cached_tokens", Int(0));
      match Subtract(usage[inputKey], cached)
      case Raises => Raises
      case Value(input) => Value(Counts(input, usage[outputKey], cached, Int(0)))
  }

  /** `usage_from_payload`. */
  function UsageFromPayload(body: Json, protocol: Protocol): Attempted<Option<Usage>> {
    if !body.Obj? then Value(None)
    else
      var usage := UsageObject(body.fields);
      if !usage.Obj? then Value(None)
      else if protocol.Messages? then
        if "input_tokens" !in usage.fields || "output_tokens" !in usage.fields then Value(None)
        else Value(Counts(usage.fields["input_tokens"], usage.fields["output_tokens"],
                          Get(usage.fields, "cache_read_input_tokens", Int(0)),
                          Get(usage.fields, "cache_creation_input_tokens", Int(0))))
      else
        var inputKey := if protocol.Chat? then "prompt_tokens" else "input_tokens";
        var outputKey := if protocol.Chat? then "completion_tokens" else "output_tokens";
        if inputKey !in usage.fields || outputKey !in usage.fields then Value(None)
        else CachedIncluded(usage.fields, inputKey, outputKey)
  }

  // ------------------------------------------------------------ one line

  /** `raised`: a malformed event made the parser raise, which ends the stream. */
  datatype Progress = Progress(usage: Option<Usage>, anthropic: Dict, complete: bool, failed: bool, raised: bool)

  const FRESH := Progress(None, map[], false, false, false)

  predicate Space(b: Byte) {
    b == 32 || 9 <= b <= 13
  }

  /** `bytes.strip()`. */
  function Strip(s: Bytes): Bytes
    decreases |s|
  {
    if s != [] && Space(s[0]) then Strip(s[1..])
    else if s != [] && Space(s[|s| - 1]) then Strip(s[..|s| - 1])
    else s
  }

  function Kind(event: Dict): string {
    if "type" in event && event["type"].Str? then event["type"].s else ""
  }

  function Update(codec: Codec, target: Dict, v: Json): Option<Dict> {
    if v.Obj? then Some(target + v.fields) else codec.update(target, v)
  }

  /** The merged usage fields of the messages protocol after one event. */
  function Merged(codec: Codec, anthropic: Dict, event: Dict): Option<Dict> {
    if Kind(event) == "message_start" then
      var message := Get(event, "message", Obj(map[]));
      if message.Obj? then Update(codec, anthropic, Get(message.fields, "usage", Obj(map[]))) else None
    else if Kind(event) == "message_delta" then Update(codec, anthropic, Get(event, "usage", Obj(map[])))
    else Some(anthropic)
  }

  /** The terminal markers of one event. */
  function Marked(p: Progress, event: Dict): Progress {
    p.(failed :=
         || p.failed
         || Truthy(Get(event, "error", Null))
         || Kind(event) in {"error", "response.failed", "response.incomplete"},
       complete := p.complete || Kind(event) in {"response.completed", "message_stop"})
  }

  function OnEvent(codec: Codec, protocol: Protocol, p: Progress, event: Dict): Progress {
    var marked := Marked(p, event);
    if protocol.Messages? then
      match Merged(codec, marked.anthropic, event)
      case None => marked.(raised := true)
      case Some(anthropic) =>
        match UsageFromPayload(Obj(map["usage" := Obj(anthropic)]), protocol)
        case Raises => marked.(anthropic := anthropic, raised := true)
        case Value(usage) => marked.(anthropic := anthropic, usage := usage)
    else
      match UsageFromPayload(Obj(event), protocol)
      case Raises => marked.(raised := true)
      case Value(usage) => if usage.Some? then marked.(usage := usage) else marked
  }

  function OnLine(codec: Codec, protocol: Protocol, p: Progress, line: Bytes): Progress {
    if p.raised || !(DATA <= line) then p
    else
      var value := Strip(line[5..]);
      if value == DONE then p.(complete := true)
      else
        var event := codec.decode(value);
        if event.Some? && event.value.Obj? then OnEvent(codec, protocol, p, event.value.fields) else p
  }

  // ------------------------------------------------------------ the whole stream, without chunks

  /** The index of the first line end, or the length. */
  function LineEnd(s: Bytes): (n: nat)
    ensures n <= |s| && NEWLINE !in s[..n] && (n < |s| ==> s[n] == NEWLINE)
  {
    if s == [] || s[0] == NEWLINE then 0
    else
      assert s[..LineEnd(s[1..]) + 1] == [s[0]] + s[1..][..LineEnd(s[1..])];
      1 + LineEnd(s[1..])
  }

  function Lines(s: Bytes): seq<Bytes> {
    var n := LineEnd(s);
    if n == |s| then [] else [s[..n]] + Lines(s[n + 1..])
  }

  /** What follows the last line end. */
  function Tail(s: Bytes): Bytes {
    var n := LineEnd(s);
    if n == |s| then s else Tail(s[n + 1..])
  }

  /** One fold over complete lines. */
  function Fold(codec: Codec, protocol: Protocol, p: Progress, lines: seq<Bytes>): Progress
    decreases |lines|
  {
    if lines == [] then p else Fold(codec, protocol, OnLine(codec, protocol, p, lines[0]), lines[1..])
  }

  lemma {:induction false} LineEndInFront(a: Bytes, b: Bytes)
    requires LineEnd(a) < |a|
    ensures LineEnd(a + b) == LineEnd(a)
  {
    if a[0] != NEWLINE {
      assert (a + b)[1..] == a[1..] + b;
      LineEndInFront(a[1..], b);
    }
  }

  /** Lines of a stream are the lines of its front, then those of the front's tail with the rest. */
  lemma {:induction false} LinesOfSplit(a: Bytes, b: Bytes)
    ensures Lines(a + b) == Lines(a) + Lines(Tail(a) + b)
    ensures Tail(a + b) == Tail(Tail(a) + b)
    decreases |a|
  {
    if LineEnd(a) < |a| {
      var n := LineEnd(a);
      FirstLineOfSplit(a, b, n);
      LinesOfSplit(a[n + 1..], b);
    }
  }

  lemma FirstLineOfSplit(a: Bytes, b: Bytes, n: nat)
    requires n == LineEnd(a) < |a|
    ensures Lines(a + b) == [a[..n]] + Lines(a[n + 1..] + b) && Lines(a) == [a[..n]] + Lines(a[n + 1..])
    ensures Tail(a + b) == Tail(a[n + 1..] + b) && Tail(a) == Tail(a[n + 1..])
  {
    LineEndInFront(a, b);
    assert (a + b)[n + 1..] == a[n + 1..] + b;
    assert (a + b)[..n] == a[..n];
  }

  lemma {:induction false} FoldOfSplit(codec: Codec, protocol: Protocol, p: Progress, a: seq<Bytes>, b: seq<Bytes>)
    ensures Fold(codec, protocol, p, a + b) == Fold(codec, protocol, Fold(codec, protocol, p, a), b)
    decreases |a|
  {
    if a == [] {
      assert a + b == b;
    } else {
      assert (a + b)[1..] == a[1..] + b;
      FoldOfSplit(codec, protocol, OnLine(codec, protocol, p, a[0]), a[1..], b);
    }
  }

  lemma {:induction false} FoldStopsAtRaise(codec: Codec, protocol: Protocol, p: Progress, lines: seq<Bytes>)
    requires p.raised
    ensures Fold(codec, protocol, p, lines) == p
    decreases |lines|
  {
    if lines != [] {
      FoldStopsAtRaise(codec, protocol, p, lines[1..]);
    }
  }

  lemma {:induction false} FoldKeepsFailed(codec: Codec, protocol: Protocol, p: Progress, lines: seq<Bytes>)
    requires p.failed
    ensures Fold(codec, protocol, p, lines).failed
    decreases |lines|
  {
    if lines != [] {
      FoldKeepsFailed(codec, protocol, OnLine(codec, protocol, p, lines[0]), lines[1..]);
    }
  }

  // ------------------------------------------------------------ the incremental observer

  datatype State = State(buffer: Bytes, progress: Progress)

  /** Consumes complete lines from the buffer until none is left or one raises. */
  function Drain(codec: Codec, protocol: Protocol, s: State): State
    decreases |s.buffer|
  {
    var n := LineEnd(s.buffer);
    if n == |s.buffer| || s.progress.raised then s
    else Drain(codec, protocol, State(s.buffer[n + 1..], OnLine(codec, protocol, s.progress, s.buffer[..n])))
  }

  predicate Overflows(s: State, chunk: Bytes) {
    |s.buffer| + |chunk| > MAX_BUFFER
  }

  function FeedOne(codec: Codec, protocol: Protocol, s: State, chunk: Bytes): State {
    if Overflows(s, chunk) then State([], s.progress.(failed := true))
    else Drain(codec, protocol, State(s.buffer + chunk, s.progress))
  }

  /** Chunks in turn; a raise ends the forwarding. */
  function FeedAll(codec: Codec, protocol: Protocol, s: State, chunks: seq<Bytes>): State
    decreases |chunks|
  {
    if chunks == [] || s.progress.raised then s
    else FeedAll(codec, protocol, FeedOne(codec, protocol, s, chunks[0]), chunks[1..])
  }

  function Concat(chunks: seq<Bytes>): Bytes {
    if chunks == [] then [] else chunks[0] + Concat(chunks[1..])
  }

  lemma LinesUnfold(s: Bytes, n: nat, line: Bytes, rest: Bytes)
    requires n == LineEnd(s) < |s| && line == s[..n] && rest == s[n + 1..]
    ensures Lines(s) == [line] + Lines(rest)
  {
  }

  lemma TailUnfold(s: Bytes, n: nat, rest: Bytes)
    requires n == LineEnd(s) < |s| && rest == s[n + 1..]
    ensures Tail(s) == Tail(rest)
  {
  }

  lemma FoldUnfold(codec: Codec, protocol: Protocol, p: Progress, line: Bytes, lines: seq<Bytes>)
    ensures Fold(codec, protocol, p, [line] + lines) == Fold(codec, protocol, OnLine(codec, protocol, p, line), lines)
  {
    assert ([line] + lines)[1..] == lines;
  }

  lemma DrainNothing(codec: Codec, protocol: Protocol, s: State)
    requires LineEnd(s.buffer) == |s.buffer| || s.progress.raised
    ensures Drain(codec, protocol, s) == s
  {
  }

  lemma {:induction false} DrainIsFold(codec: Codec, protocol: Protocol, s: State)
    ensures Drain(codec, protocol, s).progress == Fold(codec, protocol, s.progress, Lines(s.buffer))
    ensures !Drain(codec, protocol, s).progress.raised ==> Drain(codec, protocol, s).buffer == Tail(s.buffer)
    decreases |s.buffer|
  {
    var n := LineEnd(s.buffer);
    if s.progress.raised {
      DrainNothing(codec, protocol, s);
      FoldStopsAtRaise(codec, protocol, s.progress, Lines(s.buffer));
    } else if n == |s.buffer| {
      DrainNothing(codec, protocol, s);
    } else {
      var line := s.buffer[..n];
      var next := State(s.buffer[n + 1..], OnLine(codec, protocol, s.progress, line));
      DrainOne(codec, protocol, s, n, line, next);
      LinesUnfold(s.buffer, n, line, next.buffer);
      TailUnfold(s.buffer, n, next.buffer);
      FoldUnfold(codec, protocol, s.progress, line, Lines(next.buffer));
      DrainIsFold(codec, protocol, next);
    }
  }

  /** No feed of these chunks overflows, judged from the bytes alone. */
  predicate Fits(pending: Bytes, chunks: seq<Bytes>)
    decreases |chunks|
  {
    chunks == [] || (|pending| + |chunks[0]| <= 4_000_000 && Fits(Tail(pending + chunks[0]), chunks[1..]))
  }

  lemma FeedOneIsFold(codec: Codec, protocol: Protocol, s: State, chunk: Bytes)
    requires !s.progress.raised && |s.buffer| + |chunk| <= MAX_BUFFER
    ensures
      var next := FeedOne(codec, protocol, s, chunk);
      && next.progress == Fold(codec, protocol, s.progress, Lines(s.buffer + chunk))
      && (!next.progress.raised ==> next.buffer == Tail(s.buffer + chunk) && NEWLINE !in next.buffer)
  {
    DrainIsFold(codec, protocol, State(s.buffer + chunk, s.progress));
    TailHasNoNewline(s.buffer + chunk);
  }

  /** Folding over a stream is folding over its front, then over the rest with the front's tail. */
  lemma FoldInTwo(codec: Codec, protocol: Protocol, p: Progress, front: Bytes, rest: Bytes)
    ensures Fold(codec, protocol, p, Lines(front + rest)) ==
      Fold(codec, protocol, Fold(codec, protocol, p, Lines(front)), Lines(Tail(front) + rest))
    ensures Tail(front + rest) == Tail(Tail(front) + rest)
  {
    LinesOfSplit(front, rest);
    FoldOfSplit(codec, protocol, p, Lines(front), Lines(Tail(front) + rest));
  }

  lemma FeedAllStep(codec: Codec, protocol: Protocol, s: State, chunks: seq<Bytes>)
    requires chunks != [] && !s.progress.raised
    ensures FeedAll(codec, protocol, s, chunks) ==
      FeedAll(codec, protocol, FeedOne(codec, protocol, s, chunks[0]), chunks[1..])
    ensures FeedOne(codec, protocol, s, chunks[0]).progress.raised ==>
      FeedAll(codec, protocol, s, chunks) == FeedOne(codec, protocol, s, chunks[0])
  {
  }

  /** What a state is after a stream whose fold started at `p`. */
  ghost predicate IsFoldOf(codec: Codec, protocol: Protocol, end: State, p: Progress, stream: Bytes) {
    && end.progress == Fold(codec, protocol, p, Lines(stream))
    && (!end.progress.raised ==> end.buffer == Tail(stream))
  }

  lemma FeedRaised(codec: Codec, protocol: Protocol, s: State, chunk: Bytes, rest: Bytes)
    requires !s.progress.raised && |s.buffer| + |chunk| <= MAX_BUFFER
    requires FeedOne(codec, protocol, s, chunk).progress.raised
    ensures IsFoldOf(codec, protocol, FeedOne(codec, protocol, s, chunk), s.progress, s.buffer + chunk + rest)
  {
    var joined := s.buffer + chunk;
    var next := FeedOne(codec, protocol, s, chunk);
    FeedOneIsFold(codec, protocol, s, chunk);
    FoldInTwo(codec, protocol, s.progress, joined, rest);
    FoldStopsAtRaise(codec, protocol, next.progress, Lines(Tail(joined) + rest));
  }

  lemma FeedFolds(codec: Codec, protocol: Protocol, s: State, chunk: Bytes, rest: Bytes, end: State)
    requires !s.progress.raised && |s.buffer| + |chunk| <= MAX_BUFFER
    requires !FeedOne(codec, protocol, s, chunk).progress.raised
    requires IsFoldOf(codec, protocol, end, FeedOne(codec, protocol, s, chunk).progress,
                      FeedOne(codec, protocol, s, chunk).buffer + rest)
    ensures IsFoldOf(codec, protocol, end, s.progress, s.buffer + chunk + rest)
  {
    FeedOneIsFold(codec, protocol, s, chunk);
    FoldInTwo(codec, protocol, s.progress, s.buffer + chunk, rest);
  }

  /** Feeding chunks that fit is one fold over the lines of the whole stream. */
  lemma {:induction false} FeedIsFold(codec: Codec, protocol: Protocol, s: State, chunks: seq<Bytes>)
    requires NEWLINE !in s.buffer && !s.progress.raised && Fits(s.buffer, chunks)
    ensures IsFoldOf(codec, protocol, FeedAll(codec, protocol, s, chunks), s.progress, s.buffer + Concat(chunks))
    decreases |chunks|
  {
    if chunks == [] {
      NoLineInTail(s.buffer);
      assert s.buffer + Concat(chunks) == s.buffer;
    } else {
      var rest := Concat(chunks[1..]);
      assert s.buffer + Concat(chunks) == s.buffer + chunks[0] + rest;
      FeedAllStep(codec, protocol, s, chunks);
      FeedOneIsFold(codec, protocol, s, chunks[0]);
      var next := FeedOne(codec, protocol, s, chunks[0]);
      if next.progress.raised {
        FeedRaised(codec, protocol, s, chunks[0], rest);
      } else {
        FeedIsFold(codec, protocol, next, chunks[1..]);
        FeedFolds(codec, protocol, s, chunks[0], rest, FeedAll(codec, protocol, next, chunks[1..]));
      }
    }
  }

  lemma NoLineInTail(s: Bytes)
    requires NEWLINE !in s
    ensures LineEnd(s) == |s| && Lines(s) == [] && Tail(s) == s
  {
  }

  lemma {:induction false} TailHasNoNewline(s: Bytes)
    ensures NEWLINE !in Tail(s)
    decreases |s|
  {
    if LineEnd(s) < |s| {
      TailHasNoNewline(s[LineEnd(s) + 1..]);
    } else {
      assert s[..|s|] == s;
    }
  }

  /** Independence of chunking: two splits of the same bytes that fit reach the same usage, completion and
      failure, and, unless an event raised, the same buffer. */
  lemma ChunkingDoesNotMatter(codec: Codec, protocol: Protocol, a: seq<Bytes>, b: seq<Bytes>)
    requires Concat(a) == Concat(b) && Fits([], a) && Fits([], b)
    ensures
      var left := FeedAll(codec, protocol, State([], FRESH), a);
      var right := FeedAll(codec, protocol, State([], FRESH), b);
      && left.progress == right.progress
      && (!left.progress.raised ==> left.buffer == right.buffer)
  {
    FeedIsFold(codec, protocol, State([], FRESH), a);
    FeedIsFold(codec, protocol, State([], FRESH), b);
    assert [] + Concat(a) == Concat(a) && [] + Concat(b) == Concat(b);
  }

  lemma {:induction false} FailedForGood(codec: Codec, protocol: Protocol, s: State, chunks: seq<Bytes>)
    requires s.progress.failed
    ensures FeedAll(codec, protocol, s, chunks).progress.failed
    decreases |chunks|
  {
    if chunks != [] && !s.progress.raised {
      var joined := State(s.buffer + chunks[0], s.progress);
      DrainIsFold(codec, protocol, joined);
      FoldKeepsFailed(codec, protocol, s.progress, Lines(joined.buffer));
      FailedForGood(codec, protocol, FeedOne(codec, protocol, s, chunks[0]), chunks[1..]);
    }
  }

  /** Chunks that do not fit fail the stream for good, unless it raised before: they never look like the
      whole stream's success. */
  lemma {:induction false} OverflowFails(codec: Codec, protocol: Protocol, s: State, chunks: seq<Bytes>)
    requires NEWLINE !in s.buffer && !s.progress.raised && !Fits(s.buffer, chunks)
    ensures
      var end := FeedAll(codec, protocol, s, chunks);
      end.progress.failed || end.progress.raised
    decreases |chunks|
  {
    var next := FeedOne(codec, protocol, s, chunks[0]);
    if Overflows(s, chunks[0]) {
      FailedForGood(codec, protocol, next, chunks[1..]);
    } else {
      var joined := s.buffer + chunks[0];
      DrainIsFold(codec, protocol, State(joined, s.progress));
      if !next.progress.raised {
        TailHasNoNewline(joined);
        OverflowFails(codec, protocol, next, chunks[1..]);
      }
    }
  }

  predicate Successful(p: Progress) {
    p.complete && !p.failed && !p.raised
  }

  /** A stream counts as successful if and only if no feed of its chunks overflows and the fold over all its bytes
      is complete, not failed and not raised. */
  lemma SuccessExactly(codec: Codec, protocol: Protocol, chunks: seq<Bytes>)
    ensures
      Successful(FeedAll(codec, protocol, State([], FRESH), chunks).progress)
      <==> Fits([], chunks) && Successful(Fold(codec, protocol, FRESH, Lines(Concat(chunks))))
  {
    if Fits([], chunks) {
      FeedIsFold(codec, protocol, State([], FRESH), chunks);
      assert [] + Concat(chunks) == Concat(chunks);
    } else {
      OverflowFails(codec, protocol, State([], FRESH), chunks);
    }
  }

  /** Without the buffer bound the claim is false of the code: 4,000,001 empty lines fail in one chunk and
      pass in two. */
  lemma OneChunkTooMany(codec: Codec, protocol: Protocol)
    ensures
      var blank: Bytes := seq(MAX_BUFFER, _ => NEWLINE);
      var one, two := [blank + [NEWLINE]], [blank, [NEWLINE]];
      && Concat(one) == Concat(two)
      && FeedAll(codec, protocol, State([], FRESH), one).progress.failed
      && FeedAll(codec, protocol, State([], FRESH), two) == State([], FRESH)
  {
    var blank: Bytes := seq(MAX_BUFFER, _ => NEWLINE);
    var one: seq<Bytes>, two: seq<Bytes> := [blank + [NEWLINE]], [blank, [NEWLINE]];
    assert Concat([[NEWLINE]]) == [NEWLINE];
    assert one[1..] == [] && two[1..] == [[NEWLINE]];
    assert Concat(one) == blank + [NEWLINE] == Concat(two);
    var start := State([], FRESH);
    assert FeedAll(codec, protocol, start, one) ==
      FeedAll(codec, protocol, FeedOne(codec, protocol, start, one[0]), []);
    assert [] + blank == blank && [] + [NEWLINE] == [NEWLINE];
    BlankLines(codec, protocol, State(blank, FRESH));
    BlankLines(codec, protocol, State([NEWLINE], FRESH));
    assert FeedOne(codec, protocol, start, blank) == start;
    assert FeedOne(codec, protocol, start, [NEWLINE]) == start;
    assert FeedAll(codec, protocol, start, two) == FeedAll(codec, protocol, start, [[NEWLINE]]);
    assert FeedAll(codec, protocol, start, [[NEWLINE]]) == FeedAll(codec, protocol, start, []);
  }

  lemma BlankLine(codec: Codec, protocol: Protocol, s: State)
    requires s.buffer != [] && s.buffer[0] == NEWLINE && !s.progress.raised
    ensures Drain(codec, protocol, s) == Drain(codec, protocol, State(s.buffer[1..], s.progress))
  {
    EmptyLine(codec, protocol, s.progress);
    DrainOne(codec, protocol, s, 0, [], State(s.buffer[1..], s.progress));
  }

  lemma DrainOne(codec: Codec, protocol: Protocol, s: State, n: nat, line: Bytes, next: State)
    requires n < |s.buffer| && LineEnd(s.buffer) == n && !s.progress.raised && line == s.buffer[..n]
    requires next.buffer == s.buffer[n + 1..] && next.progress == OnLine(codec, protocol, s.progress, line)
    ensures Drain(codec, protocol, s) == Drain(codec, protocol, next)
  {
    DrainUnfold(codec, protocol, s);
    assert next == State(s.buffer[n + 1..], OnLine(codec, protocol, s.progress, s.buffer[..n]));
  }

  lemma DrainUnfold(codec: Codec, protocol: Protocol, s: State)
    requires LineEnd(s.buffer) < |s.buffer| && !s.progress.raised
    ensures
      var n := LineEnd(s.buffer);
      Drain(codec, protocol, s) ==
        Drain(codec, protocol, State(s.buffer[n + 1..], OnLine(codec, protocol, s.progress, s.buffer[..n])))
  {
  }

  lemma EmptyLine(codec: Codec, protocol: Protocol, p: Progress)
    ensures OnLine(codec, protocol, p, []) == p
  {
    assert |DATA| == 5;
  }

  lemma {:induction false} BlankLines(codec: Codec, protocol: Protocol, s: State)
    requires forall b | b in s.buffer :: b == NEWLINE
    requires !s.progress.raised
    ensures Drain(codec, protocol, s) == State([], s.progress)
    decreases |s.buffer|
  {
    if s.buffer != [] {
      assert s.buffer[0] in s.buffer;
      assert forall b | b in s.buffer[1..] :: b in s.buffer;
      BlankLine(codec, protocol, s);
      BlankLines(codec, protocol, State(s.buffer[1..], s.progress));
    }
  }

  // ------------------------------------------------------------ what a stream says

  predicate Blank(b: Byte) {
    b in {9, 10, 11, 12, 13, 32}
  }

  /** `v` is `s` without the blanks around it. */
  predicate Trims(s: Bytes, i: nat, j: nat, v: Bytes) {
    && i <= j <= |s| && v == s[i..j]
    && (forall k | 0 <= k < i :: Blank(s[k])) && (forall k | j <= k < |s| :: Blank(s[k]))
    && (v != [] ==> !Blank(v[0]) && !Blank(v[|v| - 1]))
  }

  predicate Trimmed(s: Bytes, v: Bytes) {
    exists i: nat, j: nat | i <= |s| && j <= |s| :: Trims(s, i, j, v)
  }

  /** The line is `data:` and, between blanks, the value. */
  predicate DataLine(line: Bytes, value: Bytes) {
    && |line| >= 5 && line[0] == 100 && line[1] == 97 && line[2] == 116 && line[3] == 97 && line[4] == 58
    && Trimmed(line[5..], value)
  }

  /** `[DONE]`. */
  predicate IsDone(value: Bytes) {
    && |value| == 6 && value[0] == 91 && value[1] == 68 && value[2] == 79 && value[3] == 78 && value[4] == 69
    && value[5] == 93
  }

  ghost predicate Ends(line: Bytes) {
    exists value :: DataLine(line, value) && IsDone(value)
  }

  /** The line carries the event. */
  ghost predicate CarriesEvent(codec: Codec, line: Bytes, event: Dict) {
    exists value :: DataLine(line, value) && !IsDone(value) && codec.decode(value) == Some(Obj(event))
  }

  predicate IsOfType(event: Dict, kind: string) {
    Says(event, "type", Str(kind))
  }

  predicate Finishes(event: Dict) {
    IsOfType(event, "response.completed") || IsOfType(event, "message_stop")
  }

  predicate TellsFailure(event: Dict) {
    || Affirms(event, "error") || IsOfType(event, "error")
    || IsOfType(event, "response.failed") || IsOfType(event, "response.incomplete")
  }

  ghost predicate Completing(codec: Codec, line: Bytes) {
    Ends(line) || exists event :: CarriesEvent(codec, line, event) && Finishes(event)
  }

  ghost predicate Failing(codec: Codec, line: Bytes) {
    exists event :: CarriesEvent(codec, line, event) && TellsFailure(event)
  }

  /** The event's usage object: its own, or that of the response it wraps. */
  predicate HasUsage(event: Dict, usage: Dict) {
    if "response" in event then event["response"].Obj? && Says(event["response"].fields, "usage", Obj(usage))
    else Says(event, "usage", Obj(usage))
  }

  /** A whole number; Python counts truth values as numbers when it subtracts. */
  predicate SaysWhole(d: Dict, key: string, n: nat) {
    Says(d, key, Int(n)) || (n == 0 && Says(d, key, Bool(false))) || (n == 1 && Says(d, key, Bool(true)))
  }

  predicate SaysOrZero(d: Dict, key: string, n: nat) {
    if key in d then d[key] == Int(n) else n == 0
  }

  /** The details of the input tokens, if any are given, are not an object. */
  predicate BadDetails(usage: Dict) {
    if Affirms(usage, "prompt_tokens_details") then !usage["prompt_tokens_details"].Obj?
    else Affirms(usage, "input_tokens_details") && !usage["input_tokens_details"].Obj?
  }

  /** The details speak of so many tokens from the cache. */
  predicate SaysCached(usage: Dict, n: nat) {
    && !BadDetails(usage)
    && if Affirms(usage, "prompt_tokens_details")
       then SaysOrZero(usage["prompt_tokens_details"].fields, "cached_tokens", n)
       else if Affirms(usage, "input_tokens_details")
       then SaysOrZero(usage["input_tokens_details"].fields, "cached_tokens", n)
       else n == 0
  }

  predicate IsNumber(v: Json) {
    v.Int? || v.Real? || v.Bool?
  }

  predicate BadCached(usage: Dict) {
    if Affirms(usage, "prompt_tokens_details") then
      usage["prompt_tokens_details"].Obj? && "cached_tokens" in usage["prompt_tokens_details"].fields
      && !IsNumber(usage["prompt_tokens_details"].fields["cached_tokens"])
    else
      Affirms(usage, "input_tokens_details") && usage["input_tokens_details"].Obj?
      && "cached_tokens" in usage["input_tokens_details"].fields
      && !IsNumber(usage["input_tokens_details"].fields["cached_tokens"])
  }

  /** The cached tokens are part of the input count, and are told apart from it. */
  predicate SaysTokens(usage: Dict, inputKey: string, outputKey: string, u: Usage) {
    && SaysWhole(usage, inputKey, u.input + u.cacheRead) && Says(usage, outputKey, Int(u.output))
    && SaysCached(usage, u.cacheRead) && u.cacheWrite == 0
  }

  /** Both counts are there, but the cached tokens cannot be subtracted. */
  predicate BadTokens(usage: Dict, inputKey: string, outputKey: string) {
    && inputKey in usage && outputKey in usage
    && (BadDetails(usage) || BadCached(usage) || !IsNumber(usage[inputKey]))
  }

  predicate SaysMessageTokens(usage: Dict, u: Usage) {
    && Says(usage, "input_tokens", Int(u.input)) && Says(usage, "output_tokens", Int(u.output))
    && SaysOrZero(usage, "cache_read_input_tokens", u.cacheRead)
    && SaysOrZero(usage, "cache_creation_input_tokens", u.cacheWrite)
  }

  ghost predicate SaysUsage(protocol: Protocol, event: Dict, u: Usage)
    requires !protocol.Messages?
  {
    exists usage :: HasUsage(event, usage) &&
      if protocol.Chat? then SaysTokens(usage, "prompt_tokens", "completion_tokens", u)
      else SaysTokens(usage, "input_tokens", "output_tokens", u)
  }

  ghost predicate BadUsage(protocol: Protocol, event: Dict)
    requires !protocol.Messages?
  {
    exists usage :: HasUsage(event, usage) &&
      if protocol.Chat? then BadTokens(usage, "prompt_tokens", "completion_tokens")
      else BadTokens(usage, "input_tokens", "output_tokens")
  }

  // ------------------------------------------------------------ and what the parser makes of it

  lemma {:induction false} StripTrims(s: Bytes)
    ensures Trimmed(s, Strip(s))
    decreases |s|
  {
    if s != [] && Space(s[0]) {
      StripTrims(s[1..]);
      TrimmedAfter(s, Strip(s));
    } else if s != [] && Space(s[|s| - 1]) {
      StripTrims(s[..|s| - 1]);
      TrimmedBefore(s, Strip(s));
    } else {
      assert Trims(s, 0, |s|, s);
    }
  }

  lemma TrimmedAfter(s: Bytes, v: Bytes)
    requires s != [] && Blank(s[0]) && Trimmed(s[1..], v)
    ensures Trimmed(s, v)
  {
    var t := s[1..];
    var i: nat, j: nat :| i <= |t| && j <= |t| && Trims(t, i, j, v);
    assert forall k | 0 < k < |s| :: s[k] == t[k - 1];
    assert t[i..j] == s[i + 1..j + 1];
    assert Trims(s, i + 1, j + 1, v);
  }

  lemma TrimmedBefore(s: Bytes, v: Bytes)
    requires s != [] && Blank(s[|s| - 1]) && Trimmed(s[..|s| - 1], v)
    ensures Trimmed(s, v)
  {
    var t := s[..|s| - 1];
    var i: nat, j: nat :| i <= |t| && j <= |t| && Trims(t, i, j, v);
    assert forall k | 0 <= k < |t| :: s[k] == t[k];
    assert t[i..j] == s[i..j];
    assert Trims(s, i, j, v);
  }

  lemma TrimsOnce(s: Bytes, v: Bytes, w: Bytes)
    requires Trimmed(s, v) && Trimmed(s, w)
    ensures v == w
  {
    var i: nat, j: nat :| i <= |s| && j <= |s| && Trims(s, i, j, v);
    var m: nat, n: nat :| m <= |s| && n <= |s| && Trims(s, m, n, w);
    TrimsInside(s, i, j, v, m, n, w);
    TrimsInside(s, m, n, w, i, j, v);
  }

  /** What is left between blanks lies between any other blanks too. */
  lemma TrimsInside(s: Bytes, i: nat, j: nat, v: Bytes, m: nat, n: nat, w: Bytes)
    requires Trims(s, i, j, v) && Trims(s, m, n, w)
    ensures v != [] ==> w != [] && m <= i && j <= n
  {
    if v != [] {
      assert v[0] == s[i] && v[|v| - 1] == s[j - 1];
    }
  }

  /** Stripping leaves exactly what is between the blanks. */
  lemma StripExactly(s: Bytes, v: Bytes)
    ensures Strip(s) == v <==> Trimmed(s, v)
  {
    StripTrims(s);
    if Trimmed(s, v) {
      TrimsOnce(s, v, Strip(s));
    }
  }

  lemma DataExactly(line: Bytes, value: Bytes)
    ensures DataLine(line, value) <==> DATA <= line && value == Strip(line[5..])
  {
    assert |DATA| == 5;
    if DATA <= line {
      assert forall k | 0 <= k < 5 :: line[k] == DATA[k];
    }
    if |line| >= 5 {
      StripExactly(line[5..], value);
    }
  }

  lemma DoneExactly(value: Bytes)
    ensures IsDone(value) <==> value == DONE
  {
  }

  /** What a line is. */
  lemma LineExactly(codec: Codec, line: Bytes)
    ensures Ends(line) <==> DATA <= line && Strip(line[5..]) == DONE
    ensures forall event :: CarriesEvent(codec, line, event) <==>
      DATA <= line && Strip(line[5..]) != DONE && codec.decode(Strip(line[5..])) == Some(Obj(event))
  {
    forall value ensures DataLine(line, value) <==> DATA <= line && value == Strip(line[5..]) {
      DataExactly(line, value);
    }
    forall value ensures IsDone(value) <==> value == DONE {
      DoneExactly(value);
    }
    if DATA <= line {
      assert DataLine(line, Strip(line[5..]));
    }
  }

  lemma UsageObjectExactly(event: Dict, usage: Dict)
    ensures HasUsage(event, usage) <==> UsageObject(event) == Obj(usage)
  {
  }

  lemma TokensExactly(usage: Dict, inputKey: string, outputKey: string, u: Usage)
    requires inputKey in usage && outputKey in usage
    ensures CachedIncluded(usage, inputKey, outputKey) == Value(Some(u)) <==> SaysTokens(usage, inputKey, outputKey, u)
  {
  }

  lemma BadTokensExactly(usage: Dict, inputKey: string, outputKey: string)
    requires inputKey in usage && outputKey in usage
    ensures CachedIncluded(usage, inputKey, outputKey).Raises? <==> BadTokens(usage, inputKey, outputKey)
  {
  }

  /** Which usage an event of the chat and responses protocols tells, and when the parser breaks on it. */
  lemma PayloadExactly(event: Dict, protocol: Protocol)
    requires !protocol.Messages?
    ensures forall u :: UsageFromPayload(Obj(event), protocol) == Value(Some(u)) <==> SaysUsage(protocol, event, u)
    ensures UsageFromPayload(Obj(event), protocol).Raises? <==> BadUsage(protocol, event)
  {
    var found := UsageObject(event);
    forall usage ensures HasUsage(event, usage) <==> found == Obj(usage) {
      UsageObjectExactly(event, usage);
    }
    if found.Obj? {
      PayloadOf(event, protocol, found.fields);
    }
  }

  lemma PayloadOf(event: Dict, protocol: Protocol, usage: Dict)
    requires !protocol.Messages? && UsageObject(event) == Obj(usage)
    ensures forall u :: UsageFromPayload(Obj(event), protocol) == Value(Some(u)) <==>
      if protocol.Chat? then SaysTokens(usage, "prompt_tokens", "completion_tokens", u)
      else SaysTokens(usage, "input_tokens", "output_tokens", u)
    ensures UsageFromPayload(Obj(event), protocol).Raises? <==>
      if protocol.Chat? then BadTokens(usage, "prompt_tokens", "completion_tokens")
      else BadTokens(usage, "input_tokens", "output_tokens")
  {
    var inputKey := if protocol.Chat? then "prompt_tokens" else "input_tokens";
    var outputKey := if protocol.Chat? then "completion_tokens" else "output_tokens";
    if inputKey in usage && outputKey in usage {
      BadTokensExactly(usage, inputKey, outputKey);
      forall u ensures CachedIncluded(usage, inputKey, outputKey) == Value(Some(u)) <==>
        SaysTokens(usage, inputKey, outputKey, u)
      {
        TokensExactly(usage, inputKey, outputKey, u);
      }
    }
  }

  lemma MarkedExactly(p: Progress, event: Dict)
    ensures Marked(p, event).complete <==> p.complete || Finishes(event)
    ensures Marked(p, event).failed <==> p.failed || TellsFailure(event)
    ensures Marked(p, event).(complete := p.complete, failed := p.failed) == p
  {
  }

  // ------------------------------------------------------------ lines and what they add

  ghost predicate LineSays(codec: Codec, protocol: Protocol, line: Bytes, u: Usage)
    requires !protocol.Messages?
  {
    exists event :: CarriesEvent(codec, line, event) && SaysUsage(protocol, event, u)
  }

  ghost predicate SaysNothing(codec: Codec, protocol: Protocol, line: Bytes)
    requires !protocol.Messages?
  {
    forall u :: !LineSays(codec, protocol, line, u)
  }

  ghost predicate BreaksParser(codec: Codec, protocol: Protocol, line: Bytes)
    requires !protocol.Messages?
  {
    exists event :: CarriesEvent(codec, line, event) && BadUsage(protocol, event)
  }

  /** `after` is `before` with the other object's values in place of its own. */
  predicate Overlaid(before: Dict, with: Dict, after: Dict) {
    && after.Keys == before.Keys + with.Keys
    && forall key | key in after :: after[key] == if key in with then with[key] else before[key]
  }

  predicate MergesUsage(codec: Codec, holder: Dict, before: Dict, after: Dict) {
    if "usage" !in holder then after == before
    else if holder["usage"].Obj? then Overlaid(before, holder["usage"].fields, after)
    else codec.update(before, holder["usage"]) == Some(after)
  }

  /** What an event of the messages protocol adds to the usage fields; nothing fits if it breaks the parser. */
  predicate MergesEvent(codec: Codec, event: Dict, before: Dict, after: Dict) {
    if IsOfType(event, "message_start") then
      if "message" !in event then after == before
      else event["message"].Obj? && MergesUsage(codec, event["message"].fields, before, after)
    else if IsOfType(event, "message_delta") then MergesUsage(codec, event, before, after)
    else after == before
  }

  ghost predicate MergesLine(codec: Codec, line: Bytes, before: Dict, after: Dict) {
    && (forall event | CarriesEvent(codec, line, event) :: MergesEvent(codec, event, before, after))
    && ((forall event :: !CarriesEvent(codec, line, event)) ==> after == before)
  }

  /** The usage fields after all the lines of a messages stream. */
  ghost predicate MergedTo(codec: Codec, lines: seq<Bytes>, after: Dict)
    decreases |lines|
  {
    if lines == [] then after == map[]
    else
      var front, last := lines[..|lines| - 1], lines[|lines| - 1];
      exists before :: MergedTo(codec, front, before) && MergesLine(codec, last, before, after)
  }

  lemma OverlaidExactly(before: Dict, with: Dict, after: Dict)
    ensures Overlaid(before, with, after) <==> after == before + with
  {
  }

  lemma MergesUsageExactly(codec: Codec, holder: Dict, before: Dict, after: Dict)
    ensures MergesUsage(codec, holder, before, after) <==>
      Update(codec, before, Get(holder, "usage", Obj(map[]))) == Some(after)
  {
    if "usage" !in holder {
      assert before + map[] == before;
    } else if holder["usage"].Obj? {
      OverlaidExactly(before, holder["usage"].fields, after);
    }
  }

  lemma MergesExactly(codec: Codec, event: Dict, before: Dict, after: Dict)
    ensures MergesEvent(codec, event, before, after) <==> Merged(codec, before, event) == Some(after)
  {
    MergesUsageExactly(codec, event, before, after);
    var none: Dict := map[];
    MergesUsageExactly(codec, none, before, after);
    if "message" in event && event["message"].Obj? {
      MergesUsageExactly(codec, event["message"].fields, before, after);
    }
  }

  lemma MessageTokensExactly(anthropic: Dict, u: Usage)
    ensures UsageFromPayload(Obj(map["usage" := Obj(anthropic)]), Messages) == Value(Some(u)) <==>
      SaysMessageTokens(anthropic, u)
    ensures UsageFromPayload(Obj(map["usage" := Obj(anthropic)]), Messages).Value?
  {
    var body: Dict := map["usage" := Obj(anthropic)];
    assert UsageObject(body) == Obj(anthropic);
  }

  /** The markers after one line. */
  lemma LineMarks(codec: Codec, protocol: Protocol, p: Progress, line: Bytes)
    requires !p.raised
    ensures OnLine(codec, protocol, p, line).complete <==> p.complete || Completing(codec, line)
    ensures OnLine(codec, protocol, p, line).failed <==> p.failed || Failing(codec, line)
  {
    LineExactly(codec, line);
    EventExactly(codec, line);
    OnLineMarks(codec, protocol, p, line);
  }

  lemma OnLineMarks(codec: Codec, protocol: Protocol, p: Progress, line: Bytes)
    requires !p.raised
    ensures
      var q, event := OnLine(codec, protocol, p, line), LineEvent(codec, line);
      && (q.complete <==> || p.complete || (DATA <= line && Strip(line[5..]) == DONE)
                          || (event.Some? && Finishes(event.value)))
      && (q.failed <==> p.failed || (event.Some? && TellsFailure(event.value)))
  {
    if LineEvent(codec, line).Some? {
      MarkedExactly(p, LineEvent(codec, line).value);
    }
  }

  /** The event a line carries, and the usage in it. */
  function LineEvent(codec: Codec, line: Bytes): Option<Dict> {
    if DATA <= line && Strip(line[5..]) != DONE then
      var event := codec.decode(Strip(line[5..]));
      if event.Some? && event.value.Obj? then Some(event.value.fields) else None
    else None
  }

  function LineUsage(codec: Codec, protocol: Protocol, line: Bytes): Option<Usage> {
    var event := LineEvent(codec, line);
    if event.None? then None
    else
      var found := UsageFromPayload(Obj(event.value), protocol);
      if found.Value? then found.value else None
  }

  lemma EventExactly(codec: Codec, line: Bytes)
    ensures forall event :: CarriesEvent(codec, line, event) <==> LineEvent(codec, line) == Some(event)
  {
    LineExactly(codec, line);
  }

  lemma SaysExactly(codec: Codec, protocol: Protocol, line: Bytes, u: Usage)
    requires !protocol.Messages?
    ensures LineSays(codec, protocol, line, u) <==> LineUsage(codec, protocol, line) == Some(u)
  {
    EventExactly(codec, line);
    if LineEvent(codec, line).Some? {
      PayloadExactly(LineEvent(codec, line).value, protocol);
    }
  }

  /** The usage after one line of the chat and responses protocols. */
  lemma LineUses(codec: Codec, protocol: Protocol, p: Progress, line: Bytes)
    requires !p.raised && !protocol.Messages?
    ensures OnLine(codec, protocol, p, line).raised ==> LineUsage(codec, protocol, line).None?
    ensures !OnLine(codec, protocol, p, line).raised ==>
      OnLine(codec, protocol, p, line).usage ==
        if LineUsage(codec, protocol, line).Some? then LineUsage(codec, protocol, line) else p.usage
  {
    if LineEvent(codec, line).Some? {
      MarkedExactly(p, LineEvent(codec, line).value);
    }
  }

  lemma LineBreaks(codec: Codec, protocol: Protocol, p: Progress, line: Bytes)
    requires !p.raised && !protocol.Messages?
    ensures OnLine(codec, protocol, p, line).raised <==> BreaksParser(codec, protocol, line)
  {
    EventExactly(codec, line);
    if LineEvent(codec, line).Some? {
      MarkedExactly(p, LineEvent(codec, line).value);
      PayloadExactly(LineEvent(codec, line).value, protocol);
    }
  }

  /** The merged fields, and the usage they tell, after one line of the messages protocol. */
  lemma LineMerges(codec: Codec, p: Progress, line: Bytes)
    requires !p.raised
    ensures
      var q := OnLine(codec, Messages, p, line);
      forall after :: MergesLine(codec, line, p.anthropic, after) <==> !q.raised && q.anthropic == after
  {
    LineExactly(codec, line);
    var q := OnLine(codec, Messages, p, line);
    forall after ensures MergesLine(codec, line, p.anthropic, after) <==> !q.raised && q.anthropic == after {
      if event :| CarriesEvent(codec, line, event) {
        MarkedExactly(p, event);
        MergesExactly(codec, event, p.anthropic, after);
        if Merged(codec, p.anthropic, event).Some? {
          EventMerges(codec, p, event);
        }
      }
    }
  }

  lemma EventMerges(codec: Codec, p: Progress, event: Dict)
    requires !p.raised && Merged(codec, p.anthropic, event).Some?
    ensures
      var q := OnEvent(codec, Messages, p, event);
      && !q.raised && q.anthropic == Merged(codec, p.anthropic, event).value
      && UsageFromPayload(Obj(map["usage" := Obj(q.anthropic)]), Messages) == Value(q.usage)
  {
    MarkedExactly(p, event);
    var anthropic := Merged(codec, p.anthropic, event).value;
    MessageTokensExactly(anthropic, Usage(0, 0, 0, 0));
  }

  // ------------------------------------------------------------ the whole stream

  ghost predicate Completes(codec: Codec, lines: seq<Bytes>) {
    exists line | line in lines :: Completing(codec, line)
  }

  ghost predicate Fails(codec: Codec, lines: seq<Bytes>) {
    exists line | line in lines :: Failing(codec, line)
  }

  /** Line `k` tells the usage, and no later line tells one. */
  ghost predicate SaidLast(codec: Codec, protocol: Protocol, lines: seq<Bytes>, k: int, u: Usage)
    requires !protocol.Messages?
  {
    && 0 <= k < |lines| && LineSays(codec, protocol, lines[k], u)
    && forall j | k < j < |lines| :: SaysNothing(codec, protocol, lines[j])
  }

  /** The parser breaks on some line. */
  ghost predicate Breaks(codec: Codec, protocol: Protocol, lines: seq<Bytes>) {
    if protocol.Messages? then forall after :: !MergedTo(codec, lines, after)
    else exists line | line in lines :: BreaksParser(codec, protocol, line)
  }

  /** The usage a stream tells: the last one told, or what its merged fields tell. */
  ghost predicate UsageSaid(codec: Codec, protocol: Protocol, lines: seq<Bytes>, usage: Option<Usage>) {
    if protocol.Messages? then
      forall after | MergedTo(codec, lines, after) ::
        && (usage.Some? ==> SaysMessageTokens(after, usage.value))
        && (usage.None? ==> forall u :: !SaysMessageTokens(after, u))
    else
      && (usage.Some? ==> exists k :: SaidLast(codec, protocol, lines, k, usage.value))
      && (usage.None? ==> forall line | line in lines :: SaysNothing(codec, protocol, line))
  }

  lemma FoldNext(codec: Codec, protocol: Protocol, lines: seq<Bytes>)
    requires lines != []
    ensures
      var front := Fold(codec, protocol, FRESH, lines[..|lines| - 1]);
      Fold(codec, protocol, FRESH, lines) == OnLine(codec, protocol, front, lines[|lines| - 1])
  {
    var last := lines[|lines| - 1];
    assert lines == lines[..|lines| - 1] + [last];
    FoldOfSplit(codec, protocol, FRESH, lines[..|lines| - 1], [last]);
    var front := Fold(codec, protocol, FRESH, lines[..|lines| - 1]);
    assert [last] + [] == [last];
    FoldUnfold(codec, protocol, front, last, []);
  }

  lemma RaisedStays(codec: Codec, protocol: Protocol, lines: seq<Bytes>)
    requires lines != [] && !Fold(codec, protocol, FRESH, lines).raised
    ensures !Fold(codec, protocol, FRESH, lines[..|lines| - 1]).raised
  {
    FoldNext(codec, protocol, lines);
  }

  /** A stream that the parser gets through is complete if a line completes it, and failed if a line tells a failure. */
  lemma {:induction false} FoldMarks(codec: Codec, protocol: Protocol, lines: seq<Bytes>)
    requires !Fold(codec, protocol, FRESH, lines).raised
    ensures Fold(codec, protocol, FRESH, lines).complete <==> Completes(codec, lines)
    ensures Fold(codec, protocol, FRESH, lines).failed <==> Fails(codec, lines)
    decreases |lines|
  {
    if lines != [] {
      var front, last := lines[..|lines| - 1], lines[|lines| - 1];
      RaisedStays(codec, protocol, lines);
      FoldMarks(codec, protocol, front);
      FoldNext(codec, protocol, lines);
      LineMarks(codec, protocol, Fold(codec, protocol, FRESH, front), last);
      assert forall line :: line in lines <==> line in front || line == last;
    }
  }

  /** In the chat and responses protocols the parser breaks on a line whatever the others are. */
  lemma {:induction false} FoldBreaks(codec: Codec, protocol: Protocol, lines: seq<Bytes>)
    requires !protocol.Messages?
    ensures Fold(codec, protocol, FRESH, lines).raised <==> Breaks(codec, protocol, lines)
    decreases |lines|
  {
    if lines != [] {
      var front, last := lines[..|lines| - 1], lines[|lines| - 1];
      FoldBreaks(codec, protocol, front);
      FoldNext(codec, protocol, lines);
      if !Fold(codec, protocol, FRESH, front).raised {
        LineBreaks(codec, protocol, Fold(codec, protocol, FRESH, front), last);
      }
      assert forall line :: line in lines <==> line in front || line == last;
    }
  }

  lemma {:induction false} FoldUses(codec: Codec, protocol: Protocol, lines: seq<Bytes>)
    requires !protocol.Messages? && !Fold(codec, protocol, FRESH, lines).raised
    ensures Fold(codec, protocol, FRESH, lines).usage == LastOf(UsagesOf(codec, protocol, lines))
    decreases |lines|
  {
    if lines != [] {
      var front, last := lines[..|lines| - 1], lines[|lines| - 1];
      var p := Fold(codec, protocol, FRESH, front);
      RaisedStays(codec, protocol, lines);
      FoldUses(codec, protocol, front);
      FoldNext(codec, protocol, lines);
      LineUses(codec, protocol, p, last);
      UsagesNext(codec, protocol, lines);
    }
  }

  /** The last one there is. */
  function LastOf<T>(s: seq<Option<T>>): Option<T>
    decreases |s|
  {
    if s == [] then None
    else if s[|s| - 1].Some? then s[|s| - 1]
    else LastOf(s[..|s| - 1])
  }

  lemma {:induction false} LastOfExactly<T>(s: seq<Option<T>>) returns (k: int)
    ensures -1 <= k < |s|
    ensures forall j | k < j < |s| :: s[j] == None
    ensures LastOf(s) == (if k < 0 then None else s[k]) && (0 <= k ==> s[k].Some?)
    decreases |s|
  {
    if s == [] {
      k := -1;
    } else if s[|s| - 1].Some? {
      k := |s| - 1;
    } else {
      k := LastOfExactly(s[..|s| - 1]);
    }
  }

  function UsagesOf(codec: Codec, protocol: Protocol, lines: seq<Bytes>): (r: seq<Option<Usage>>)
    ensures |r| == |lines| && forall k | 0 <= k < |lines| :: r[k] == LineUsage(codec, protocol, lines[k])
  {
    seq(|lines|, k requires 0 <= k < |lines| => LineUsage(codec, protocol, lines[k]))
  }

  lemma UsagesNext(codec: Codec, protocol: Protocol, lines: seq<Bytes>)
    requires lines != []
    ensures
      var s, front := UsagesOf(codec, protocol, lines), UsagesOf(codec, protocol, lines[..|lines| - 1]);
      s[..|s| - 1] == front && s[|s| - 1] == LineUsage(codec, protocol, lines[|lines| - 1])
  {
    var front := lines[..|lines| - 1];
    assert forall k | 0 <= k < |front| :: front[k] == lines[k];
  }

  lemma LastIsSaid(codec: Codec, protocol: Protocol, lines: seq<Bytes>)
    requires !protocol.Messages?
    ensures UsageSaid(codec, protocol, lines, LastOf(UsagesOf(codec, protocol, lines)))
  {
    var k := LastOfExactly(UsagesOf(codec, protocol, lines));
    forall j | k < j < |lines| ensures SaysNothing(codec, protocol, lines[j]) {
      SaysNothingExactly(codec, protocol, lines[j]);
    }
    if k >= 0 {
      SaysExactly(codec, protocol, lines[k], LineUsage(codec, protocol, lines[k]).value);
      assert SaidLast(codec, protocol, lines, k, LineUsage(codec, protocol, lines[k]).value);
    }
  }

  lemma SaysNothingExactly(codec: Codec, protocol: Protocol, line: Bytes)
    requires !protocol.Messages?
    ensures SaysNothing(codec, protocol, line) <==> LineUsage(codec, protocol, line).None?
  {
    forall u ensures LineSays(codec, protocol, line, u) <==> LineUsage(codec, protocol, line) == Some(u) {
      SaysExactly(codec, protocol, line, u);
    }
  }

  /** The merged fields of a messages stream are those of the fold, unless it raised. */
  lemma {:induction false} FoldMerges(codec: Codec, lines: seq<Bytes>, after: Dict)
    ensures MergedTo(codec, lines, after) <==>
      !Fold(codec, Messages, FRESH, lines).raised && Fold(codec, Messages, FRESH, lines).anthropic == after
    decreases |lines|
  {
    if lines != [] {
      var front, last := lines[..|lines| - 1], lines[|lines| - 1];
      var p := Fold(codec, Messages, FRESH, front);
      forall before ensures MergedTo(codec, front, before) <==> !p.raised && p.anthropic == before {
        FoldMerges(codec, front, before);
      }
      FoldNext(codec, Messages, lines);
      if !p.raised {
        LineMerges(codec, p, last);
        assert MergedTo(codec, front, p.anthropic);
      }
    }
  }

  lemma {:induction false} FoldTellsTokens(codec: Codec, lines: seq<Bytes>)
    requires !Fold(codec, Messages, FRESH, lines).raised
    ensures
      var p := Fold(codec, Messages, FRESH, lines);
      UsageFromPayload(Obj(map["usage" := Obj(p.anthropic)]), Messages) == Value(p.usage)
    decreases |lines|
  {
    if lines != [] {
      var front, last := lines[..|lines| - 1], lines[|lines| - 1];
      RaisedStays(codec, Messages, lines);
      FoldTellsTokens(codec, front);
      FoldNext(codec, Messages, lines);
      LineTellsTokens(codec, Fold(codec, Messages, FRESH, front), last);
    }
  }

  lemma LineTellsTokens(codec: Codec, p: Progress, line: Bytes)
    requires !p.raised && !OnLine(codec, Messages, p, line).raised
    requires UsageFromPayload(Obj(map["usage" := Obj(p.anthropic)]), Messages) == Value(p.usage)
    ensures
      var q := OnLine(codec, Messages, p, line);
      UsageFromPayload(Obj(map["usage" := Obj(q.anthropic)]), Messages) == Value(q.usage)
  {
    LineExactly(codec, line);
    if event :| CarriesEvent(codec, line, event) {
      MarkedExactly(p, event);
      EventMerges(codec, p, event);
    }
  }

  /** What forwarding must make of the lines of a stream whose chunks fit. */
  ghost predicate EndsAsSaid(codec: Codec, protocol: Protocol, lines: seq<Bytes>, cut: bool, ending: Ending) {
    if Breaks(codec, protocol, lines) then ending == Broken
    else
      && !ending.Broken? && UsageSaid(codec, protocol, lines, ending.usage) && (ending.Cut? <==> cut)
      && (!cut ==> (ending.successful <==> Completes(codec, lines) && !Fails(codec, lines)))
  }

  /** The fold over the lines ends as they say. */
  lemma FoldEndsAsSaid(codec: Codec, protocol: Protocol, lines: seq<Bytes>, cut: bool)
    ensures
      var whole := Fold(codec, protocol, FRESH, lines);
      EndsAsSaid(codec, protocol, lines, cut,
                 if whole.raised then Broken
                 else if cut then Cut(whole.usage)
                 else Finalize(whole.complete && !whole.failed, whole.usage))
  {
    var whole := Fold(codec, protocol, FRESH, lines);
    if protocol.Messages? {
      MessagesEnd(codec, lines);
    } else {
      FoldBreaks(codec, protocol, lines);
      if !whole.raised {
        FoldUses(codec, protocol, lines);
        LastIsSaid(codec, protocol, lines);
      }
    }
    if !whole.raised {
      FoldMarks(codec, protocol, lines);
    }
  }

  lemma MessagesEnd(codec: Codec, lines: seq<Bytes>)
    ensures Fold(codec, Messages, FRESH, lines).raised <==> Breaks(codec, Messages, lines)
    ensures UsageSaid(codec, Messages, lines, Fold(codec, Messages, FRESH, lines).usage)
  {
    var whole := Fold(codec, Messages, FRESH, lines);
    forall after ensures MergedTo(codec, lines, after) <==> !whole.raised && whole.anthropic == after {
      FoldMerges(codec, lines, after);
    }
    if !whole.raised {
      FoldTellsTokens(codec, lines);
      assert MergedTo(codec, lines, whole.anthropic);
      forall u ensures whole.usage == Some(u) <==> SaysMessageTokens(whole.anthropic, u) {
        MessageTokensExactly(whole.anthropic, u);
      }
    }
  }

  /** The lines of a stream, each with its end, and the tail make it up. */
  lemma {:induction false} LinesExactly(s: Bytes)
    ensures Joined(Lines(s)) + Tail(s) == s
    decreases |s|
  {
    var n := LineEnd(s);
    if n < |s| {
      var line, rest := s[..n], s[n + 1..];
      LinesExactly(rest);
      LinesUnfold(s, n, line, rest);
      TailUnfold(s, n, rest);
      JoinedInFront(s, n, line, rest, Lines(rest), Tail(rest));
    } else {
      NoLineInTail(s);
    }
  }

  lemma JoinedInFront(s: Bytes, n: nat, line: Bytes, rest: Bytes, lines: seq<Bytes>, tail: Bytes)
    requires n == LineEnd(s) < |s| && line == s[..n] && rest == s[n + 1..] && Joined(lines) + tail == rest
    ensures Joined([line] + lines) + tail == s
  {
    JoinedUnfold(line, lines);
    InFront(line, Joined(lines), tail);
    SplitAt(s, n, 10);
  }

  lemma SplitAt<T>(s: seq<T>, n: nat, x: T)
    requires n < |s| && s[n] == x
    ensures s[..n] + [x] + s[n + 1..] == s
  {
  }

  lemma InFront(line: Bytes, a: Bytes, b: Bytes)
    ensures line + [10] + a + b == line + [10] + (a + b)
  {
  }

  lemma {:induction false} LinesHaveNoNewline(s: Bytes)
    ensures forall line | line in Lines(s) :: NEWLINE !in line
    decreases |s|
  {
    var n := LineEnd(s);
    if n < |s| {
      LinesHaveNoNewline(s[n + 1..]);
      LinesUnfold(s, n, s[..n], s[n + 1..]);
    } else {
      assert Lines(s) == [];
    }
  }

  lemma JoinedUnfold(line: Bytes, lines: seq<Bytes>)
    ensures Joined([line] + lines) == line + [10] + Joined(lines)
  {
    assert ([line] + lines)[1..] == lines;
  }

  function Joined(lines: seq<Bytes>): Bytes {
    if lines == [] then [] else lines[0] + [10] + Joined(lines[1..])
  }

  // ------------------------------------------------------------ the object

  class Observer {
    const codec: Codec
    const protocol: Protocol
    var buffer: Bytes
    var usage: Option<Usage>
    var anthropic: Dict
    var complete: bool
    var failed: bool
    var raised: bool

    function Current(): State
      reads this
    {
      State(buffer, Progress(usage, anthropic, complete, failed, raised))
    }

    constructor (codec: Codec, protocol: Protocol)
      ensures this.codec == codec && this.protocol == protocol && Current() == State([], FRESH)
    {
      this.codec, this.protocol := codec, protocol;
      buffer, usage, anthropic := [], None, map[];
      complete, failed, raised := false, false, false;
    }

    /** The effects of one line, branch by branch as the source applies them. */
    method Consume(line: Bytes)
      requires !raised
      modifies this`usage, this`anthropic, this`complete, this`failed, this`raised
      ensures Current().progress == OnLine(codec, protocol, old(Current()).progress, line)
    {
      if !(DATA <= line) {
        return;
      }
      var value := Strip(line[5..]);
      if value == DONE {
        complete := true;
        return;
      }
      var decoded := codec.decode(value);
      if decoded.None? || !decoded.value.Obj? {
        return;
      }
      var event := decoded.value.fields;
      ghost var start := Current().progress;
      if Truthy(Get(event, "error", Null)) || Kind(event) in {"error", "response.failed", "response.incomplete"} {
        failed := true;
      }
      if Kind(event) in {"response.completed", "message_stop"} {
        complete := true;
      }
      assert Current().progress == Marked(start, event);
      if protocol.Messages? {
        var merged := Merged(codec, anthropic, event);
        if merged.None? {
          raised := true;
          return;
        }
        anthropic := merged.value;
        var found := UsageFromPayload(Obj(map["usage" := Obj(anthropic)]), protocol);
        if found.Raises? {
          raised := true;
          return;
        }
        usage := found.value;
      } else {
        var found := UsageFromPayload(Obj(event), protocol);
        if found.Raises? {
          raised := true;
          return;
        }
        if found.value.Some? {
          usage := found.value;
        }
      }
    }

    method Feed(chunk: Bytes)
      requires !raised
      modifies this
      ensures Current() == FeedOne(codec, protocol, old(Current()), chunk)
    {
      buffer := buffer + chunk;
      if |buffer| > 4_000_000 {
        failed := true;
        buffer := [];
        return;
      }
      ghost var start := Current();
      while LineEnd(buffer) < |buffer| && !raised
        invariant Drain(codec, protocol, Current()) == Drain(codec, protocol, start)
        decreases |buffer|
      {
        var n := LineEnd(buffer);
        var line := buffer[..n];
        ghost var before := Current();
        buffer := buffer[n + 1..];
        Consume(line);
        DrainOne(codec, protocol, before, n, line, Current());
      }
    }
  }

  /** How a forwarded stream ends: cut by the transport or the client, broken by a malformed event, or
      finalized with its verdict. */
  datatype Ending = Cut(usage: Option<Usage>) | Broken | Finalize(successful: bool, usage: Option<Usage>)

  /** `cut`: forwarding stopped after these chunks instead of reaching the end of the answer. */
  method Forward(codec: Codec, protocol: Protocol, chunks: seq<Bytes>, cut: bool) returns (ending: Ending)
    ensures
      var whole := Fold(codec, protocol, FRESH, Lines(Concat(chunks)));
      && (ending.Finalize? && ending.successful <==> !cut && Fits([], chunks) && Successful(whole))
      && (Fits([], chunks) ==>
            (ending == if whole.raised then Broken
                       else if cut then Cut(whole.usage)
                       else Finalize(whole.complete && !whole.failed, whole.usage)))
      && (!Fits([], chunks) ==> ending.Broken? || (if cut then ending.Cut? else ending.Finalize? && !ending.successful))
    ensures Fits([], chunks) ==> EndsAsSaid(codec, protocol, Lines(Concat(chunks)), cut, ending)
  {
    var observer := new Observer(codec, protocol);
    ghost var start := State([], FRESH);
    var i := 0;
    while i < |chunks| && !observer.raised
      invariant 0 <= i <= |chunks|
      invariant observer.codec == codec && observer.protocol == protocol && fresh(observer)
      invariant FeedAll(codec, protocol, observer.Current(), chunks[i..]) == FeedAll(codec, protocol, start, chunks)
    {
      observer.Feed(chunks[i]);
      i := i + 1;
    }
    assert FeedAll(codec, protocol, start, chunks) == observer.Current();
    SuccessExactly(codec, protocol, chunks);
    if Fits([], chunks) {
      FeedIsFold(codec, protocol, start, chunks);
      assert [] + Concat(chunks) == Concat(chunks);
    }
    FoldEndsAsSaid(codec, protocol, Lines(Concat(chunks)), cut);
    if observer.raised {
      return Broken;
    }
    if cut {
      return Cut(observer.usage);
    }
    return Finalize(observer.complete && !observer.failed, observer.usage);
  }
}
