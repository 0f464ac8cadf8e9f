/**
 The reader that passes a streamed completion through while it inspects the
 stream line by line for output times and token usage. What JSON decoding does
 to a payload is left open; the lemmas hold for any trimming too.
 */
module SseLedger {
  import opened Wrappers
  import opened WhiteSpace

  type Line = seq<byte>

  const NEWLINE: byte := 10

  /** The most bytes of one line that are kept for inspection. */
  const MAX_LINE := 0x10_0000

  datatype Choice = Choice(
    text: string,
    content: string,
    reasoningContent: string,
    reasoning: string,
    toolCalls: string)

  datatype Usage = Usage(model: string, prompt: int, cached: int, completion: int)

  datatype Chunk = Chunk(choices: seq<Choice>, usage: Option<Usage>)

  /** What the ledger learns from a stream. */
  datatype Record = Record(firstOutput: Option<int>, lastOutput: Option<int>, usage: Option<Usage>)

  /** How a line is trimmed, and its payload decoded. */
  datatype Codec = Codec(trim: Line -> Line, decode: Line -> Option<Chunk>)

  /** A line handed over for inspection, and when. */
  datatype Delivery = Delivery(line: Line, at: int)

  /** One Read of the body: the bytes it gave, whether the stream ended there,
      and what the clock said. */
  datatype Input = Input(bytes: seq<byte>, eof: bool, now: int, later: int)

  // ---- lines ----

  /** What follows the last newline. */
  function Rest(s: seq<byte>): Line {
    if |s| == 0 || s[|s| - 1] == NEWLINE then [] else Rest(s[..|s| - 1]) + [s[|s| - 1]]
  }

  /** The lines ended by a newline. */
  function Lines(s: seq<byte>): seq<Line> {
    if |s| == 0 then [] else
    var before := s[..|s| - 1];
    if s[|s| - 1] == NEWLINE then Lines(before) + [Rest(before)] else Lines(before)
  }

  function Clip(line: Line): Line {
    if |line| > MAX_LINE then [] else line
  }

  function Join(lines: seq<Line>): seq<byte> {
    if |lines| == 0 then [] else Join(lines[..|lines| - 1]) + lines[|lines| - 1] + [NEWLINE]
  }

  /** The lines are the pieces between the newlines: put together again with a
      newline after each, they are the stream, and they hold none. */
  lemma {:induction false} LinesJoin(s: seq<byte>)
    ensures Join(Lines(s)) + Rest(s) == s && NEWLINE !in Rest(s)
    ensures forall line | line in Lines(s) :: NEWLINE !in line
  {
    if |s| > 0 {
      var before := s[..|s| - 1];
      LinesJoin(before);
      assert s == before + [s[|s| - 1]];
      if s[|s| - 1] == NEWLINE {
        assert Lines(s)[..|Lines(s)| - 1] == Lines(before);
        assert Join(Lines(s)) == Join(Lines(before)) + Rest(before) + [NEWLINE];
      } else {
        assert Join(Lines(s)) + Rest(s) == Join(Lines(before)) + Rest(before) + [s[|s| - 1]];
      }
    }
  }

  lemma {:induction false} LinesAppend(s: seq<byte>, piece: seq<byte>)
    requires NEWLINE !in piece
    ensures Rest(s + piece) == Rest(s) + piece && Lines(s + piece) == Lines(s)
  {
    if |piece| == 0 {
      assert s + piece == s;
    } else {
      var n := |piece| - 1;
      assert (s + piece)[..|s + piece| - 1] == s + piece[..n];
      assert piece == piece[..n] + [piece[n]];
      LinesAppend(s, piece[..n]);
    }
  }

  lemma {:induction false} LinesEnd(s: seq<byte>)
    ensures Rest(s + [NEWLINE]) == [] && Lines(s + [NEWLINE]) == Lines(s) + [Rest(s)]
  {
    assert (s + [NEWLINE])[..|s|] == s;
  }

  lemma {:induction false} LinesGrow(s: seq<byte>, more: seq<byte>)
    ensures Lines(s) <= Lines(s + more)
  {
    if |more| == 0 {
      assert s + more == s;
    } else {
      assert (s + more)[..|s + more| - 1] == s + more[..|more| - 1];
      LinesGrow(s, more[..|more| - 1]);
    }
  }

  // ---- what a line tells ----

  const DATA: Line := [100, 97, 116, 97, 58]
  const DONE: Line := [91, 68, 79, 78, 69, 93]

  /** The decoded event of a line, if it is one. */
  function Event(codec: Codec, line: Line): Option<Chunk> {
    var trimmed := codec.trim(line);
    if !(DATA <= trimmed) then None else
    var payload := codec.trim(trimmed[|DATA|..]);
    if |payload| == 0 || payload == DONE then None else codec.decode(payload)
  }

  /** The bytes spell the ASCII text. */
  predicate Spell(bytes: Bytes, text: string) {
    |bytes| == |text| && forall i | 0 <= i < |text| :: bytes[i] as int == text[i] as int
  }

  /** A line is an event iff it begins, trimmed, with `data:` and the rest,
      trimmed, is neither empty nor `[DONE]`; then that rest is decoded. */
  lemma {:induction false} EventIff(codec: Codec, line: Line, mark: Bytes, payload: Line)
    requires Spell(mark, "data:")
    ensures codec.trim(line) == mark + payload ==>
              Event(codec, line) ==
              if |codec.trim(payload)| == 0 || Spell(codec.trim(payload), "[DONE]") then None
              else codec.decode(codec.trim(payload))
    ensures Event(codec, line).Some? ==> mark <= codec.trim(line)
  {
    assert mark == DATA;
    var rest := codec.trim(payload);
    assert Spell(rest, "[DONE]") <==> rest == DONE;
    if codec.trim(line) == mark + payload {
      assert codec.trim(line)[|DATA|..] == payload;
    }
  }

  /** A choice carries no output exactly if its texts are all empty and it makes
      no tool calls: none given, null, or an empty list. */
  lemma {:induction false} SilentIff(c: Choice)
    ensures !Speaks(c) <==>
            c.text == c.content == c.reasoningContent == c.reasoning == "" && c.toolCalls in {"", "null", "[]"}
  {}

  predicate Speaks(c: Choice) {
    || c.text != "" || c.content != "" || c.reasoningContent != "" || c.reasoning != ""
    || (c.toolCalls != "" && c.toolCalls != "null" && c.toolCalls != "[]")
  }

  ghost predicate HasOutput(codec: Codec, line: Line) {
    var ev := Event(codec, line);
    ev.Some? && exists c :: c in ev.value.choices && Speaks(c)
  }

  function UsageIn(codec: Codec, line: Line): Option<Usage> {
    var ev := Event(codec, line);
    if ev.Some? then ev.value.usage else None
  }

  ghost function Noted(codec: Codec, r: Record, d: Delivery): Record {
    var r := if HasOutput(codec, d.line)
             then r.(firstOutput := if r.firstOutput.None? then Some(d.at) else r.firstOutput, lastOutput := Some(d.at))
             else r;
    if UsageIn(codec, d.line).Some? then r.(usage := UsageIn(codec, d.line)) else r
  }

  ghost function RecordOf(codec: Codec, ds: seq<Delivery>): Record {
    if |ds| == 0 then Record(None, None, None) else Noted(codec, RecordOf(codec, ds[..|ds| - 1]), ds[|ds| - 1])
  }

  lemma {:induction false} RecordSnoc(codec: Codec, ds: seq<Delivery>, d: Delivery)
    ensures RecordOf(codec, ds + [d]) == Noted(codec, RecordOf(codec, ds), d)
  {
    assert (ds + [d])[..|ds|] == ds;
  }

  // ---- the reader ----

  lemma {:induction false} Assoc<T>(a: seq<T>, b: seq<T>, c: seq<T>)
    ensures a + b + c == a + (b + c) && a + [] == a && b + [] == b
  {}

  lemma {:induction false} Shift(done: seq<byte>, chunk: seq<byte>, i: nat)
    requires i < |chunk| && chunk[i] == NEWLINE
    ensures done + chunk == done + chunk[..i] + [NEWLINE] + chunk[i + 1..]
  {}

  function IndexByte(s: seq<byte>): (i: int)
    ensures -1 <= i < |s|
    ensures i < 0 <==> NEWLINE !in s
    ensures i >= 0 ==> s[i] == NEWLINE && NEWLINE !in s[..i]
  {
    if |s| == 0 then -1
    else if s[0] == NEWLINE then 0
    else
      var i := IndexByte(s[1..]);
      if i < 0 then -1 else
      assert s[..i + 1] == [s[0]] + s[1..][..i];
      i + 1
  }

  class Reader {
    const codec: Codec
    var line: Line
    var skipping: bool
    var record: Record
    /** All bytes read, the end of the stream counting as a newline. */
    ghost var fed: seq<byte>
    /** The lines inspected so far. */
    ghost var deliveries: seq<Delivery>

    /** The buffer holds the unfinished line, unless that is already too long. */
    ghost predicate Valid()
      reads this
    {
      && skipping == (|Rest(fed)| > MAX_LINE)
      && line == Clip(Rest(fed))
      && record == RecordOf(codec, deliveries)
    }

    /** The reader of the program: only the decoding of payloads is left open. */
    constructor (decode: Line -> Option<Chunk>)
      ensures Valid() && fed == [] && deliveries == [] && codec == Codec(Trim, decode)
    {
      codec := Codec(Trim, decode);
      line, skipping, record := [], false, Record(None, None, None);
      fed, deliveries := [], [];
    }

    /** One Read: the bytes come out as they came in. */
    method Read(input: Input) returns (out: seq<byte>, eof: bool)
      requires Valid()
      modifies this
      ensures Valid()
      ensures out == input.bytes && eof == input.eof
      ensures fed == old(fed) + Fed(input)
      ensures deliveries == old(deliveries) + Delivered(old(fed), input)
    {
      ghost var lines := InspectChunk(input.bytes, input.now);
      DeliveredIs(old(fed), input, lines);
      ghost var last := Delivery(Clip(Rest(fed)), input.later);
      if input.eof {
        InspectLine(input.later);
        Assoc(old(fed), input.bytes, [NEWLINE]);
        Assoc(old(deliveries), Stamped(lines, input.now), [last]);
      }
      return input.bytes, input.eof;
    }

    /** The loop of Read over the bytes it got. */
    method InspectChunk(bytes: seq<byte>, now: int) returns (ghost lines: seq<Line>)
      requires Valid()
      modifies this
      ensures Valid()
      ensures fed == old(fed) + bytes
      ensures Lines(fed) == Lines(old(fed)) + lines
      ensures deliveries == old(deliveries) + Stamped(lines, now)
    {
      var chunk := bytes;
      lines := [];
      Assoc(old(fed), [], []);
      while |chunk| > 0
        invariant Valid()
        invariant fed + chunk == old(fed) + bytes
        invariant Lines(fed) == Lines(old(fed)) + lines
        invariant deliveries == old(deliveries) + Stamped(lines, now)
        decreases |chunk|
      {
        var i := IndexByte(chunk);
        if i < 0 {
          Buffer(chunk);
          break;
        }
        Shift(fed, chunk, i);
        Buffer(chunk[..i]);
        StampedStep(lines, Rest(fed), now);
        lines := lines + [Rest(fed)];
        InspectLine(now);
        chunk := chunk[i + 1..];
      }
    }

    method Buffer(b: seq<byte>)
      requires Valid() && NEWLINE !in b
      modifies this`line, this`skipping, this`fed
      ensures Valid() && fed == old(fed) + b && Lines(fed) == Lines(old(fed))
    {
      LinesAppend(fed, b);
      fed := fed + b;
      if skipping {
        return;
      }
      if |line| + |b| > MAX_LINE {
        line, skipping := [], true;
        return;
      }
      line := line + b;
    }

    /** Inspects the buffered line and begins the next one. */
    method InspectLine(now: int)
      requires Valid()
      modifies this
      ensures Valid()
      ensures fed == old(fed) + [NEWLINE] && Lines(fed) == Lines(old(fed)) + [Rest(old(fed))]
      ensures deliveries == old(deliveries) + [Delivery(Clip(Rest(old(fed))), now)]
    {
      LinesEnd(fed);
      ghost var d := Delivery(line, now);
      RecordSnoc(codec, deliveries, d);
      fed := fed + [NEWLINE];
      deliveries := deliveries + [d];
      var trimmed := codec.trim(line);
      line, skipping := [], false;
      if !(DATA <= trimmed) {
        return;
      }
      var payload := codec.trim(trimmed[|DATA|..]);
      if |payload| == 0 || payload == DONE {
        return;
      }
      var ev := codec.decode(payload);
      if ev.None? {
        return;
      }
      assert Event(codec, d.line) == ev;
      ghost var before := record;
      var choices := ev.value.choices;
      var k := 0;
      while k < |choices|
        modifies this`record
        invariant 0 <= k <= |choices|
        invariant record == before
        invariant forall j | 0 <= j < k :: !Speaks(choices[j])
      {
        if Speaks(choices[k]) {
          if record.firstOutput.None? {
            record := record.(firstOutput := Some(now));
          }
          record := record.(lastOutput := Some(now));
          break;
        }
        k := k + 1;
      }
      assert k < |choices| <==> HasOutput(codec, d.line) by {
        if k < |choices| {
          assert choices[k] in choices;
        }
      }
      if ev.value.usage.Some? {
        record := record.(usage := ev.value.usage);
      }
    }
  }

  // ---- any number of reads ----

  function Fed(input: Input): seq<byte> {
    if input.eof then input.bytes + [NEWLINE] else input.bytes
  }

  function Stamped(lines: seq<Line>, at: int): seq<Delivery> {
    if |lines| == 0 then [] else Stamped(lines[..|lines| - 1], at) + [Delivery(Clip(lines[|lines| - 1]), at)]
  }

  lemma {:induction false} StampedStep(lines: seq<Line>, line: Line, at: int)
    ensures Stamped(lines + [line], at) == Stamped(lines, at) + [Delivery(Clip(line), at)]
  {
    assert (lines + [line])[..|lines|] == lines;
  }

  /** The lines one Read completes. */
  function Delivered(fed: seq<byte>, input: Input): seq<Delivery> {
    var after := fed + input.bytes;
    (if |Lines(fed)| <= |Lines(after)| then Stamped(Lines(after)[|Lines(fed)|..], input.now) else []) +
    if input.eof then [Delivery(Clip(Rest(after)), input.later)] else []
  }

  lemma {:induction false} DeliveredIs(fed: seq<byte>, input: Input, lines: seq<Line>)
    requires Lines(fed + input.bytes) == Lines(fed) + lines
    ensures Delivered(fed, input) ==
            if input.eof then Stamped(lines, input.now) + [Delivery(Clip(Rest(fed + input.bytes)), input.later)]
            else Stamped(lines, input.now)
  {
    assert Lines(fed + input.bytes)[|Lines(fed)|..] == lines;
  }

  function FedBy(inputs: seq<Input>): seq<byte> {
    if |inputs| == 0 then [] else FedBy(inputs[..|inputs| - 1]) + Fed(inputs[|inputs| - 1])
  }

  /** What a reader has inspected after these Reads. */
  function DeliveredBy(inputs: seq<Input>): seq<Delivery> {
    if |inputs| == 0 then [] else
    var before := inputs[..|inputs| - 1];
    DeliveredBy(before) + Delivered(FedBy(before), inputs[|inputs| - 1])
  }

  /** The deliveries are these lines in order, those of more than 2^20 bytes as
      empty. */
  ghost predicate Deliver(ds: seq<Delivery>, lines: seq<Line>) {
    |ds| == |lines| && forall i | 0 <= i < |ds| :: ds[i].line == if |lines[i]| <= 0x10_0000 then lines[i] else []
  }

  lemma {:induction false} StampedDelivers(lines: seq<Line>, at: int)
    ensures Deliver(Stamped(lines, at), lines) && forall i | 0 <= i < |lines| :: Stamped(lines, at)[i].at == at
  {
    if |lines| > 0 {
      StampedDelivers(lines[..|lines| - 1], at);
    }
  }

  lemma {:induction false} DeliverAppend(ds: seq<Delivery>, lines: seq<Line>, more: seq<Delivery>, moreLines: seq<Line>)
    requires Deliver(ds, lines) && Deliver(more, moreLines)
    ensures Deliver(ds + more, lines + moreLines)
  {}

  /** One Read delivers the lines it completes. */
  lemma {:induction false} ReadDelivers(fed: seq<byte>, input: Input) returns (more: seq<Line>)
    ensures Lines(fed + Fed(input)) == Lines(fed) + more && Deliver(Delivered(fed, input), more)
  {
    var after := fed + input.bytes;
    LinesGrow(fed, input.bytes);
    more := Lines(after)[|Lines(fed)|..];
    StampedDelivers(more, input.now);
    DeliveredIs(fed, input, more);
    if input.eof {
      LinesEnd(after);
      Assoc(fed, input.bytes, [NEWLINE]);
      Assoc(Lines(fed), more, [Rest(after)]);
      var last := Delivery(Clip(Rest(after)), input.later);
      DeliverAppend(Stamped(more, input.now), more, [last], [Rest(after)]);
      more := more + [Rest(after)];
    }
  }

  /** However the bytes were cut into reads, what has been inspected is the
      lines of the bytes, each longer than the limit as empty. */
  lemma {:induction false} ReadsDeliverLines(inputs: seq<Input>)
    ensures Deliver(DeliveredBy(inputs), Lines(FedBy(inputs)))
  {
    if |inputs| > 0 {
      var n := |inputs| - 1;
      ReadsDeliverLines(inputs[..n]);
      var fed := FedBy(inputs[..n]);
      var more := ReadDelivers(fed, inputs[n]);
      DeliverAppend(DeliveredBy(inputs[..n]), Lines(fed), Delivered(fed, inputs[n]), more);
      assert FedBy(inputs) == fed + Fed(inputs[n]);
    }
  }

  function BytesOf(inputs: seq<Input>): seq<byte> {
    if |inputs| == 0 then [] else BytesOf(inputs[..|inputs| - 1]) + inputs[|inputs| - 1].bytes
  }

  lemma {:induction false} FedUntilEnd(inputs: seq<Input>)
    requires forall i | 0 <= i < |inputs| :: !inputs[i].eof
    ensures FedBy(inputs) == BytesOf(inputs)
  {
    if |inputs| > 0 {
      FedUntilEnd(inputs[..|inputs| - 1]);
    }
  }

  /** A stream read to its end in any pieces: the lines inspected are those of
      the whole stream and what follows its last newline. */
  lemma {:induction false} ChunkingInvariance(inputs: seq<Input>)
    requires |inputs| > 0 && inputs[|inputs| - 1].eof
    requires forall i | 0 <= i < |inputs| - 1 :: !inputs[i].eof
    ensures var stream := BytesOf(inputs); Deliver(DeliveredBy(inputs), Lines(stream) + [Rest(stream)])
  {
    var n := |inputs| - 1;
    ReadsDeliverLines(inputs);
    FedUntilEnd(inputs[..n]);
    Assoc(BytesOf(inputs[..n]), inputs[n].bytes, [NEWLINE]);
    LinesEnd(BytesOf(inputs));
  }

  // ---- what the record holds ----

  ghost predicate HasUsage(codec: Codec, line: Line) {
    UsageIn(codec, line).Some?
  }

  /** `u` is the usage of the last line that has one. */
  ghost predicate LastUsage(codec: Codec, ds: seq<Delivery>, u: Option<Usage>) {
    if u.None? then forall i | 0 <= i < |ds| :: !HasUsage(codec, ds[i].line)
    else exists i :: 0 <= i < |ds| && UsageIn(codec, ds[i].line) == u && forall j | i < j < |ds| ::
      !HasUsage(codec, ds[j].line)
  }

  lemma {:induction false} LastUsageStep(codec: Codec, ds: seq<Delivery>, d: Delivery, u: Option<Usage>)
    requires LastUsage(codec, ds, u)
    ensures LastUsage(codec, ds + [d], if HasUsage(codec, d.line) then UsageIn(codec, d.line) else u)
  {
    var all := ds + [d];
    assert all[|ds|] == d;
    if !HasUsage(codec, d.line) && u.Some? {
      var i :| 0 <= i < |ds| && UsageIn(codec, ds[i].line) == u && forall j | i < j < |ds| ::
               !HasUsage(codec, ds[j].line);
      assert UsageIn(codec, all[i].line) == u;
    }
  }

  lemma {:induction false} UsageIsLast(codec: Codec, ds: seq<Delivery>)
    ensures LastUsage(codec, ds, RecordOf(codec, ds).usage)
  {
    if |ds| > 0 {
      var n := |ds| - 1;
      UsageIsLast(codec, ds[..n]);
      assert ds == ds[..n] + [ds[n]];
      LastUsageStep(codec, ds[..n], ds[n], RecordOf(codec, ds[..n]).usage);
      RecordSnoc(codec, ds[..n], ds[n]);
    }
  }

  /** The first and the last line with output. */
  ghost predicate Ends(codec: Codec, ds: seq<Delivery>, i: int, k: int) {
    && 0 <= i <= k < |ds| && HasOutput(codec, ds[i].line) && HasOutput(codec, ds[k].line)
    && forall j | 0 <= j < |ds| && HasOutput(codec, ds[j].line) :: i <= j <= k
  }

  ghost predicate OutputSpan(codec: Codec, ds: seq<Delivery>, first: Option<int>, last: Option<int>) {
    if first.None? then last.None? && forall i | 0 <= i < |ds| :: !HasOutput(codec, ds[i].line)
    else exists i, k :: Ends(codec, ds, i, k) && first == Some(ds[i].at) && last == Some(ds[k].at)
  }

  lemma {:induction false} OutputSpanStep(codec: Codec, ds: seq<Delivery>, d: Delivery, r: Record)
    requires OutputSpan(codec, ds, r.firstOutput, r.lastOutput)
    ensures var s := Noted(codec, r, d); OutputSpan(codec, ds + [d], s.firstOutput, s.lastOutput)
  {
    var all, n, s := ds + [d], |ds|, Noted(codec, r, d);
    assert all[n] == d;
    if r.firstOutput.None? {
      if HasOutput(codec, d.line) {
        assert Ends(codec, all, n, n);
      }
    } else {
      var i, k :| Ends(codec, ds, i, k) && r.firstOutput == Some(ds[i].at) && r.lastOutput == Some(ds[k].at);
      var last := if HasOutput(codec, d.line) then n else k;
      assert Ends(codec, all, i, last);
      assert s.firstOutput == Some(all[i].at) && s.lastOutput == Some(all[last].at);
    }
  }

  /** The output times are those of the first and the last line with output. */
  lemma {:induction false} OutputTimes(codec: Codec, ds: seq<Delivery>)
    ensures OutputSpan(codec, ds, RecordOf(codec, ds).firstOutput, RecordOf(codec, ds).lastOutput)
  {
    if |ds| > 0 {
      var n := |ds| - 1;
      OutputTimes(codec, ds[..n]);
      assert ds == ds[..n] + [ds[n]];
      OutputSpanStep(codec, ds[..n], ds[n], RecordOf(codec, ds[..n]));
      RecordSnoc(codec, ds[..n], ds[n]);
    }
  }

  ghost predicate Monotone(inputs: seq<Input>) {
    && (forall i | 0 <= i < |inputs| :: inputs[i].now <= inputs[i].later)
    && (forall i, j | 0 <= i < j < |inputs| :: inputs[i].later <= inputs[j].now)
  }

  ghost predicate InOrder(ds: seq<Delivery>, until: int) {
    && (forall i, j | 0 <= i <= j < |ds| :: ds[i].at <= ds[j].at)
    && (forall i | 0 <= i < |ds| :: ds[i].at <= until)
  }

  lemma {:induction false} InOrderAppend(a: seq<Delivery>, b: seq<Delivery>, mid: int, until: int)
    requires InOrder(a, mid) && InOrder(b, until) && mid <= until
    requires forall i | 0 <= i < |b| :: mid <= b[i].at
    ensures InOrder(a + b, until)
  {}

  lemma {:induction false} ReadInOrder(fed: seq<byte>, input: Input)
    requires input.now <= input.later
    ensures InOrder(Delivered(fed, input), input.later)
    ensures forall i | 0 <= i < |Delivered(fed, input)| :: input.now <= Delivered(fed, input)[i].at
  {
    LinesGrow(fed, input.bytes);
    StampedDelivers(Lines(fed + input.bytes)[|Lines(fed)|..], input.now);
  }

  lemma {:induction false} DeliveredInOrder(inputs: seq<Input>)
    requires Monotone(inputs) && |inputs| > 0
    ensures InOrder(DeliveredBy(inputs), inputs[|inputs| - 1].later)
  {
    var n := |inputs| - 1;
    var before, fed := DeliveredBy(inputs[..n]), FedBy(inputs[..n]);
    if n > 0 {
      DeliveredInOrder(inputs[..n]);
      assert inputs[n - 1].later <= inputs[n].now;
    }
    ReadInOrder(fed, inputs[n]);
    InOrderAppend(before, Delivered(fed, inputs[n]), inputs[n].now, inputs[n].later);
  }

  /** With a clock that never runs backwards, the first output is no later than
      the last. */
  lemma {:induction false} FirstBeforeLast(codec: Codec, inputs: seq<Input>)
    requires Monotone(inputs)
    ensures var r := RecordOf(codec, DeliveredBy(inputs));
            r.firstOutput.Some? ==> r.lastOutput.Some? && r.firstOutput.value <= r.lastOutput.value
  {
    OutputTimes(codec, DeliveredBy(inputs));
    if |inputs| > 0 {
      DeliveredInOrder(inputs);
    }
  }
}
