/**
 Which pushes the credential gateway lets through. A push opens with the refs
 it wants to move, one pkt-line each (gitprotocol-common(5)) up to a flush; the
 verdict rests on these alone. Bodies are already uncompressed.
 */
module PushParser {
  import opened Wrappers
  import opened WhiteSpace
  import opened LineFields

  /** No command may begin this far into a push. */
  const MAX_COMMANDS := 0x10_0000

  datatype Refusal = Malformed | Unsupported | Denied(ref: Bytes) | TooLarge

  // ---- headers ----

  function HexDigit(b: byte): (r: Option<nat>)
    ensures r.Some? ==> r.value < 16
  {
    var x := b as int;
    if 48 <= x <= 57 then Some(x - 48)
    else if 97 <= x <= 102 then Some(x - 87)
    else if 65 <= x <= 70 then Some(x - 55)
    else None
  }

  /** The value of four hexadecimal digits, of either case. */
  function HexValue(h: Bytes): (r: Option<nat>)
    requires |h| == 4
    ensures r.Some? ==> r.value < 0x1_0000
  {
    match (HexDigit(h[0]), HexDigit(h[1]), HexDigit(h[2]), HexDigit(h[3]))
    case (Some(a), Some(b), Some(c), Some(d)) => Some(4096 * a + 256 * b + 16 * c + d)
    case _ => None
  }

  const LOWER: Bytes := [48, 49, 50, 51, 52, 53, 54, 55, 56, 57, 97, 98, 99, 100, 101, 102]
  const UPPER: Bytes := [48, 49, 50, 51, 52, 53, 54, 55, 56, 57, 65, 66, 67, 68, 69, 70]

  /** The digits are 0-9, a-f and A-F, in this order, and nothing else. */
  lemma {:induction false} HexDigitIs(b: byte, v: nat)
    ensures HexDigit(b) == Some(v) <==> v < 16 && (LOWER[v] == b || UPPER[v] == b)
  {}

  /** A header is worth what its digits say, the first weighing most. */
  lemma {:induction false} HexValueIs(h: Bytes, n: nat)
    requires |h| == 4
    ensures HexValue(h) == Some(n) <==>
            n < 0x1_0000 &&
            HexDigit(h[0]) == Some(n / 0x1000) && HexDigit(h[1]) == Some(n / 0x100 % 0x10) &&
            HexDigit(h[2]) == Some(n / 0x10 % 0x10) && HexDigit(h[3]) == Some(n % 0x10)
  {
    DigitsOf(n);
    match (HexDigit(h[0]), HexDigit(h[1]), HexDigit(h[2]), HexDigit(h[3]))
    case (Some(a), Some(b), Some(c), Some(d)) => DigitsBack(a, b, c, d);
    case _ =>
  }

  lemma {:induction false} DigitsBack(a: nat, b: nat, c: nat, d: nat)
    requires a < 16 && b < 16 && c < 16 && d < 16
    ensures var n := 4096 * a + 256 * b + 16 * c + d;
            n / 0x1000 == a && n / 0x100 % 0x10 == b && n / 0x10 % 0x10 == c && n % 0x10 == d
  {
    var n := 4096 * a + 256 * b + 16 * c + d;
    assert n / 16 == 256 * a + 16 * b + c && n / 256 == 16 * a + b && n / 4096 == a;
  }

  function Digit(n: nat): byte
    requires n < 16
  {
    if n < 10 then (48 + n) as byte else (87 + n) as byte
  }

  function Hex4(n: nat): (h: Bytes)
    requires n < 0x1_0000
    ensures |h| == 4
  {
    [Digit(n / 4096), Digit(n / 256 % 16), Digit(n / 16 % 16), Digit(n % 16)]
  }

  lemma {:induction false} DigitRoundTrip(n: nat)
    requires n < 16
    ensures HexDigit(Digit(n)) == Some(n)
  {}

  lemma {:induction false} DigitsOf(n: nat)
    ensures n == 4096 * (n / 4096) + 256 * (n / 256 % 16) + 16 * (n / 16 % 16) + n % 16
  {
    assert n == 16 * (n / 16) + n % 16;
    assert n / 16 / 16 == n / 256 && n / 256 / 16 == n / 4096;
  }

  /** A header that was written reads as the number it was written for. */
  lemma {:induction false} HexRoundTrip(n: nat)
    requires n < 0x1_0000
    ensures HexValue(Hex4(n)) == Some(n)
  {
    DigitRoundTrip(n / 4096);
    DigitRoundTrip(n / 256 % 16);
    DigitRoundTrip(n / 16 % 16);
    DigitRoundTrip(n % 16);
    DigitsOf(n);
  }

  // ---- words ----

  /** What comes before the first NUL. */
  function CutAtNul(s: Bytes): Bytes {
    if |s| == 0 || s[0] == 0 then [] else [s[0]] + CutAtNul(s[1..])
  }

  /** The ref a command line updates, if it has its three fields. */
  function Target(line: Bytes): Option<Bytes> {
    var f := Fields(CutAtNul(line));
    if |f| == 3 then Some(f[2]) else None
  }

  // ---- what a request says ----

  /** The four digits at a position, if there are that many bytes. */
  function HeaderAt(body: Bytes, p: nat): Option<nat> {
    if p + 4 <= |body| then HexValue(body[p..p + 4]) else None
  }

  /** A whole pkt-line from p to q holding a command for a ref not denied. */
  predicate CommandAt(body: Bytes, deny: set<Bytes>, p: nat, q: nat) {
    && p + 4 <= q <= |body| && HeaderAt(body, p) == Some(q - p)
    && Target(body[p + 4..q]).Some? && Target(body[p + 4..q]).value !in deny
  }

  /** The positions at which the first commands begin, and at which the last
      of them ends; all begin within the limit. */
  ghost predicate Commands(body: Bytes, deny: set<Bytes>, cuts: seq<nat>) {
    && |cuts| > 0 && cuts[0] == 0
    && forall i | 0 <= i < |cuts| - 1 :: cuts[i] < MAX_COMMANDS && CommandAt(body, deny, cuts[i], cuts[i + 1])
  }

  /** Why reading stops at a position, if it does not stop at a flush. */
  ghost predicate StopsAt(body: Bytes, deny: set<Bytes>, p: nat, why: Option<Refusal>) {
    var size := HeaderAt(body, p);
    match why
    case None => p < MAX_COMMANDS && size == Some(0)
    case Some(TooLarge) => p >= MAX_COMMANDS
    case Some(Malformed) => p < MAX_COMMANDS && (size.None? || 0 < size.value < 4
      || (size.value >= 4 && p + size.value > |body|))
    case Some(Unsupported) => p < MAX_COMMANDS && size.Some? && 4 <= size.value <= |body| - p
      && Target(body[p + 4..p + size.value]).None?
    case Some(Denied(ref)) => p < MAX_COMMANDS && size.Some? && 4 <= size.value <= |body| - p &&
                              Target(body[p + 4..p + size.value]) == Some(ref) && ref in deny
  }

  /** The request holds these commands and then what `why` says. */
  ghost predicate Says(body: Bytes, deny: set<Bytes>, cuts: seq<nat>, why: Option<Refusal>) {
    Commands(body, deny, cuts) && StopsAt(body, deny, cuts[|cuts| - 1], why)
  }

  lemma {:induction false} CommandsGrow(body: Bytes, deny: set<Bytes>, cuts: seq<nat>, q: nat)
    requires Commands(body, deny, cuts)
    requires cuts[|cuts| - 1] < MAX_COMMANDS && CommandAt(body, deny, cuts[|cuts| - 1], q)
    ensures Commands(body, deny, cuts + [q])
  {}

  // ---- the check ----

  /** The body to pass on: what was buffered, then what was not read. */
  datatype Replay = Replay(head: Bytes, rest: Bytes)

  function Why(r: Result<Replay, Refusal>): Option<Refusal> {
    match r case Ok(_) => None case Err(e) => Some(e)
  }

  /** Reads a request: its body to pass on, or why not; and how much was buffered. */
  method CheckPush(body: Bytes, deny: set<Bytes>)
    returns (r: Result<Replay, Refusal>, buffered: nat, ghost cuts: seq<nat>)
    ensures Says(body, deny, cuts, Why(r))
    ensures r.Ok? ==> r.value.head + r.value.rest == body && |r.value.head| == buffered
    ensures buffered <= 0x10_0000 - 1 + 0xFFFF && buffered <= |body|
  {
    var head: Bytes := [];
    var at := 0;
    cuts := [0];
    while |head| < MAX_COMMANDS
      invariant at == |head| <= |body| && head == body[..at]
      invariant at <= MAX_COMMANDS - 1 + 0xFFFF
      invariant Commands(body, deny, cuts) && cuts[|cuts| - 1] == at
      decreases |body| - at
    {
      if |body| < at + 4 {
        assert StopsAt(body, deny, at, Some(Malformed));
        return Err(Malformed), |head|, cuts;
      }
      var n := body[at..at + 4];
      head := head + n;
      assert head == body[..at + 4];
      var size := HexValue(n);
      assert HeaderAt(body, at) == size;
      if size.None? {
        assert StopsAt(body, deny, at, Some(Malformed));
        return Err(Malformed), |head|, cuts;
      }
      if size.value == 0 {
        assert StopsAt(body, deny, at, None);
        assert head + body[at + 4..] == body;
        return Ok(Replay(head, body[at + 4..])), |head|, cuts;
      }
      if size.value < 4 {
        assert StopsAt(body, deny, at, Some(Malformed));
        return Err(Malformed), |head|, cuts;
      }
      var next := at + size.value;
      if |body| < next {
        assert StopsAt(body, deny, at, Some(Malformed));
        return Err(Malformed), |head|, cuts;
      }
      var line := body[at + 4..next];
      head := head + line;
      assert head == body[..next];
      var f := Fields(CutAtNul(line));
      if |f| != 3 {
        assert StopsAt(body, deny, at, Some(Unsupported));
        return Err(Unsupported), |head|, cuts;
      }
      if f[2] in deny {
        assert StopsAt(body, deny, at, Some(Denied(f[2])));
        return Err(Denied(f[2])), |head|, cuts;
      }
      CommandsGrow(body, deny, cuts, next);
      cuts := cuts + [next];
      at := next;
    }
    return Err(TooLarge), |head|, cuts;
  }

  // ---- there is one answer ----

  lemma {:induction false} StopsOnce(body: Bytes, deny: set<Bytes>, p: nat, q: nat, why: Option<Refusal>,
                                     other: Option<Refusal>)
    requires StopsAt(body, deny, p, why)
    ensures StopsAt(body, deny, p, other) ==> other == why
    ensures p < MAX_COMMANDS ==> !CommandAt(body, deny, p, q)
  {}

  lemma {:induction false} CutsAgree(body: Bytes, deny: set<Bytes>, a: seq<nat>, b: seq<nat>, k: nat)
    requires Commands(body, deny, a) && Commands(body, deny, b) && k < |a| && k < |b|
    ensures a[k] == b[k]
  {
    if k > 0 {
      CutsAgree(body, deny, a, b, k - 1);
      var j := k - 1;
      assert CommandAt(body, deny, a[j], a[j + 1]) && CommandAt(body, deny, b[j], b[j + 1]);
    }
  }

  /** A request can be read in one way only, so what the check answers is what
      the request says. */
  lemma {:induction false} OneReading(body: Bytes, deny: set<Bytes>, a: seq<nat>, b: seq<nat>, why: Option<Refusal>,
                                      other: Option<Refusal>)
    requires Says(body, deny, a, why) && Says(body, deny, b, other)
    ensures a == b && why == other
  {
    var k := if |a| < |b| then |a| - 1 else |b| - 1;
    CutsAgree(body, deny, a, b, k);
    if k < |b| - 1 {
      StopsOnce(body, deny, a[k], b[k + 1], why, other);
    } else if k < |a| - 1 {
      StopsOnce(body, deny, b[k], a[k + 1], other, why);
    } else {
      StopsOnce(body, deny, a[k], 0, why, other);
    }
    forall i | 0 <= i < |a|
      ensures a[i] == b[i]
    {
      CutsAgree(body, deny, a, b, i);
    }
  }

  /** A request is passed exactly when it reads as allowed commands and a
      flush, and refused for exactly what it says. */
  lemma {:induction false} AnswerIff(body: Bytes, deny: set<Bytes>, cuts: seq<nat>, answer: Option<Refusal>,
                                     why: Option<Refusal>)
    requires Says(body, deny, cuts, answer)
    ensures (exists c :: Says(body, deny, c, why)) <==> why == answer
  {
    if c :| Says(body, deny, c, why) {
      OneReading(body, deny, cuts, c, answer, why);
    }
  }

  // ---- written requests ----

  /** One ref update: old and new object and ref, perhaps with capabilities. */
  datatype Update = Update(from: Bytes, to: Bytes, ref: Bytes, caps: Option<Bytes>)

  /** A word of a command: not empty, without white space or NUL. */
  ghost predicate Word(w: Bytes) {
    Solid(w) && 0 !in w
  }

  function Names(u: Update): Bytes {
    u.from + ([32] + (u.to + ([32] + u.ref)))
  }

  function Text(u: Update): Bytes {
    Names(u) + match u.caps case None => [] case Some(c) => [0] + c
  }

  function PktLine(s: Bytes): Bytes
    requires |s| + 5 < 0x1_0000
  {
    Hex4(|s| + 5) + (s + [10])
  }

  ghost predicate Writable(us: seq<Update>) {
    forall i | 0 <= i < |us| :: Word(us[i].from) && Word(us[i].to) && Word(us[i].ref) && |Text(us[i])| + 5 < 0x1_0000
  }

  /** The first n commands as pkt-lines. */
  function Written(us: seq<Update>, n: nat): Bytes
    requires n <= |us| && forall i | 0 <= i < |us| :: |Text(us[i])| + 5 < 0x1_0000
  {
    if n == 0 then [] else Written(us, n - 1) + PktLine(Text(us[n - 1]))
  }

  const FLUSH: Bytes := [48, 48, 48, 48]

  lemma {:induction false} CutScan(s: Bytes, rest: Bytes)
    requires 0 !in s
    ensures CutAtNul(s + rest) == s + CutAtNul(rest)
  {
    if |s| == 0 {
      assert s + rest == rest;
    } else {
      assert (s + rest)[1..] == s[1..] + rest;
      CutScan(s[1..], rest);
      assert s + CutAtNul(rest) == [s[0]] + (s[1..] + CutAtNul(rest));
    }
  }

  lemma {:induction false} NamesFields(u: Update, end: Bytes)
    requires Word(u.from) && Word(u.to) && Word(u.ref) && (end == [] || end == [10])
    ensures Fields(Names(u) + end) == [u.from, u.to, u.ref]
  {
    var words, blanks := [u.from, u.to, u.ref], [[], [32], [32], end];
    assert Weave([], [end]) == end;
    assert words[1..] == [u.to, u.ref] && blanks[1..] == [[32], [32], end];
    assert [u.to, u.ref][1..] == [u.ref] && [[32], [32], end][1..] == [[32], end];
    assert [u.ref][1..] == [] && [[32], end][1..] == [end];
    assert Weave([u.ref], [[32], end]) == [32] + (u.ref + end);
    assert Weave([u.to, u.ref], [[32], [32], end]) == [32] + (u.to + ([32] + (u.ref + end)));
    assert Weave(words, blanks) == Names(u) + end;
    BlankBytes(end);
    BlankBytes([32]);
    LayoutFields(words, blanks);
  }

  lemma {:induction false} BlankBytes(b: Bytes)
    requires b == [] || b == [32] || b == [10]
    ensures Blanks(b)
  {
    if b != [] {
      assert b[1..] == [];
    }
  }

  /** A command line reads as the three names it was written with. */
  lemma {:induction false} TextFields(u: Update)
    requires Word(u.from) && Word(u.to) && Word(u.ref)
    ensures Fields(CutAtNul(Text(u) + [10])) == [u.from, u.to, u.ref]
  {
    var names := Names(u);
    assert 0 !in names;
    match u.caps
    case None =>
      assert Text(u) + [10] == names + [10];
      CutScan(names, [10]);
      assert CutAtNul([10]) == [10];
      NamesFields(u, [10]);
    case Some(c) =>
      assert Text(u) + [10] == names + ([0] + c + [10]);
      CutScan(names, [0] + c + [10]);
      assert names + [] == names;
      NamesFields(u, []);
  }

  lemma {:induction false} WrittenGrows(us: seq<Update>, k: nat, n: nat)
    requires Writable(us) && k <= n <= |us|
    ensures Written(us, k) <= Written(us, n)
  {
    if k < n {
      WrittenGrows(us, k, n - 1);
    }
  }

  lemma {:induction false} PktLineReads(body: Bytes, p: nat, q: nat, text: Bytes)
    requires |text| + 5 < 0x1_0000 && p <= q <= |body| && body[p..q] == PktLine(text)
    ensures q == p + |text| + 5 && HeaderAt(body, p) == Some(q - p) && body[p + 4..q] == text + [10]
  {
    assert |PktLine(text)| == |text| + 5;
    assert body[p..p + 4] == body[p..q][..4] == Hex4(|text| + 5);
    assert body[p + 4..q] == body[p..q][4..] == text + [10];
    HexRoundTrip(|text| + 5);
  }

  lemma {:induction false} WrittenAt(us: seq<Update>, tail: Bytes, k: nat)
    requires Writable(us) && k < |us|
    ensures var body, p, q := Written(us, |us|) + tail, |Written(us, k)|, |Written(us, k + 1)|;
            p <= q <= |body| && body[p..q] == PktLine(Text(us[k]))
  {
    WrittenGrows(us, k + 1, |us|);
    var body, start, line := Written(us, |us|) + tail, Written(us, k), PktLine(Text(us[k]));
    assert Written(us, k + 1) == start + line;
    assert body[..|start + line|] == start + line;
  }

  ghost predicate CommandIs(body: Bytes, p: nat, q: nat, u: Update) {
    && p + 4 <= q <= |body| && HeaderAt(body, p) == Some(q - p)
    && Fields(CutAtNul(body[p + 4..q])) == [u.from, u.to, u.ref]
  }

  lemma {:induction false} CommandReads(body: Bytes, p: nat, q: nat, u: Update)
    requires Word(u.from) && Word(u.to) && Word(u.ref) && |Text(u)| + 5 < 0x1_0000
    requires p <= q <= |body| && body[p..q] == PktLine(Text(u))
    ensures CommandIs(body, p, q, u)
  {
    PktLineReads(body, p, q, Text(u));
    TextFields(u);
  }

  /** Each written command is found where it was put. */
  lemma {:induction false} CommandFound(us: seq<Update>, tail: Bytes, k: nat)
    requires Writable(us) && k < |us|
    ensures CommandIs(Written(us, |us|) + tail, |Written(us, k)|, |Written(us, k + 1)|, us[k])
  {
    WrittenAt(us, tail, k);
    CommandReads(Written(us, |us|) + tail, |Written(us, k)|, |Written(us, k + 1)|, us[k]);
  }

  lemma {:induction false} CommandAllowed(body: Bytes, deny: set<Bytes>, p: nat, q: nat, u: Update)
    requires CommandIs(body, p, q, u)
    ensures if u.ref in deny then p < MAX_COMMANDS ==> StopsAt(body, deny, p, Some(Denied(u.ref)))
            else CommandAt(body, deny, p, q)
  {
    assert Target(body[p + 4..q]) == Some(u.ref);
  }

  function CutsOf(us: seq<Update>, n: nat): (cuts: seq<nat>)
    requires n <= |us| && forall i | 0 <= i < |us| :: |Text(us[i])| + 5 < 0x1_0000
    ensures |cuts| == n + 1 && forall i: nat | i <= n :: cuts[i] == |Written(us, i)|
  {
    seq(n + 1, i requires 0 <= i <= n => |Written(us, i)|)
  }

  lemma {:induction false} CommandsFound(us: seq<Update>, tail: Bytes, deny: set<Bytes>, n: nat)
    requires Writable(us) && n <= |us| && forall i | 0 <= i < n :: us[i].ref !in deny
    requires forall i: nat | i < n :: |Written(us, i)| < MAX_COMMANDS
    ensures Commands(Written(us, |us|) + tail, deny, CutsOf(us, n))
  {
    forall i | 0 <= i < n
      ensures CommandAt(Written(us, |us|) + tail, deny, CutsOf(us, n)[i], CutsOf(us, n)[i + 1])
    {
      CommandFound(us, tail, i);
      CommandAllowed(Written(us, |us|) + tail, deny, |Written(us, i)|, |Written(us, i + 1)|, us[i]);
    }
  }

  lemma {:induction false} FlushFound(start: Bytes, pack: Bytes)
    ensures HeaderAt(start + (FLUSH + pack), |start|) == Some(0)
  {
    assert (start + (FLUSH + pack))[|start|..|start| + 4] == FLUSH;
  }

  /** Written with pkt-lines and ended by a flush, commands within the limit
      none of which is denied are read back and passed. */
  lemma {:induction false} AllowedPushPasses(us: seq<Update>, pack: Bytes, deny: set<Bytes>)
    requires Writable(us) && forall u | u in us :: u.ref !in deny
    requires |Written(us, |us|)| < 0x10_0000
    ensures Says(Written(us, |us|) + (FLUSH + pack), deny, CutsOf(us, |us|), None)
  {
    forall i: nat | i < |us|
      ensures |Written(us, i)| < 0x10_0000
    {
      WrittenGrows(us, i, |us|);
    }
    CommandsFound(us, FLUSH + pack, deny, |us|);
    FlushFound(Written(us, |us|), pack);
  }

  /** A denied ref within the limit is refused by name, the first one there is. */
  lemma {:induction false} DeniedPushRefused(us: seq<Update>, tail: Bytes, deny: set<Bytes>, k: nat)
    requires Writable(us) && k < |us| && us[k].ref in deny && forall i | 0 <= i < k :: us[i].ref !in deny
    requires |Written(us, k)| < 0x10_0000
    ensures Says(Written(us, |us|) + tail, deny, CutsOf(us, k), Some(Denied(us[k].ref)))
  {
    forall i: nat | i < k
      ensures |Written(us, i)| < 0x10_0000
    {
      WrittenGrows(us, i, k);
    }
    CommandsFound(us, tail, deny, k);
    CommandFound(us, tail, k);
    CommandAllowed(Written(us, |us|) + tail, deny, |Written(us, k)|, |Written(us, k + 1)|, us[k]);
  }

  /** Commands that reach the limit before a denied ref or a flush are too much. */
  lemma {:induction false} LongPushRefused(us: seq<Update>, tail: Bytes, deny: set<Bytes>, k: nat)
    requires Writable(us) && k <= |us| && forall i | 0 <= i < k :: us[i].ref !in deny
    requires |Written(us, k)| >= 0x10_0000 && forall i: nat | i < k :: |Written(us, i)| < 0x10_0000
    ensures Says(Written(us, |us|) + tail, deny, CutsOf(us, k), Some(TooLarge))
  {
    CommandsFound(us, tail, deny, k);
  }

  /** Only what comes before the first NUL counts. */
  lemma {:induction false} LineWords(text: Bytes, caps: Bytes, words: seq<Bytes>, blanks: seq<Bytes>)
    requires Layout(text, words, blanks) && 0 !in text && (|caps| > 0 ==> caps[0] == 0)
    ensures Fields(CutAtNul(text + caps)) == words
  {
    CutScan(text, caps);
    assert text + [] == text;
    LayoutIsFields(text, words, blanks);
  }

  /** After commands that are allowed the verdict rests on what follows. */
  lemma {:induction false} VerdictAfter(us: seq<Update>, rest: Bytes, deny: set<Bytes>, why: Option<Refusal>)
    requires Writable(us) && (forall i | 0 <= i < |us| :: us[i].ref !in deny) && |Written(us, |us|)| < 0x10_0000
    requires StopsAt(Written(us, |us|) + rest, deny, |Written(us, |us|)|, why)
    ensures Says(Written(us, |us|) + rest, deny, CutsOf(us, |us|), why)
  {
    forall i: nat | i < |us|
      ensures |Written(us, i)| < 0x10_0000
    {
      WrittenGrows(us, i, |us|);
    }
    CommandsFound(us, rest, deny, |us|);
  }

  lemma {:induction false} OddLineStops(start: Bytes, line: Bytes, tail: Bytes, deny: set<Bytes>)
    requires |start| < 0x10_0000 && |Fields(CutAtNul(line))| != 3 && |line| + 4 < 0x1_0000
    ensures StopsAt(start + (Hex4(|line| + 4) + line + tail), deny, |start|, Some(Unsupported))
  {
    LineFound(start, line, tail);
    StopsUnsupported(start + (Hex4(|line| + 4) + line + tail), deny, |start|, |start| + |line| + 4);
  }

  /** A line of any number of words but three, before its NUL, is refused as
      unsupported: a push certificate, a shallow line, an empty line. */
  lemma {:induction false} UnsupportedPushRefused(us: seq<Update>, text: Bytes, caps: Bytes, words: seq<Bytes>,
                                                  blanks: seq<Bytes>, line: Bytes, tail: Bytes, deny: set<Bytes>)
    requires Writable(us) && (forall i | 0 <= i < |us| :: us[i].ref !in deny) && |Written(us, |us|)| < 0x10_0000
    requires Layout(text, words, blanks) && |words| != 3 && 0 !in text
    requires line == text + caps && (|caps| > 0 ==> caps[0] == 0) && |line| + 4 < 0x1_0000
    ensures Says(Written(us, |us|) + (Hex4(|line| + 4) + line + tail), deny, CutsOf(us, |us|), Some(Unsupported))
  {
    LineWords(text, caps, words, blanks);
    OddLineStops(Written(us, |us|), line, tail, deny);
    VerdictAfter(us, Hex4(|line| + 4) + line + tail, deny, Some(Unsupported));
  }

  lemma {:induction false} LineFound(start: Bytes, line: Bytes, tail: Bytes)
    requires |line| + 4 < 0x1_0000
    ensures var body, p := start + (Hex4(|line| + 4) + line + tail), |start|;
            HeaderAt(body, p) == Some(|line| + 4) && body[p + 4..p + 4 + |line|] == line
  {
    var body, p := start + (Hex4(|line| + 4) + line + tail), |start|;
    assert body[p..p + 4] == Hex4(|line| + 4) && body[p + 4..p + 4 + |line|] == line;
    HexRoundTrip(|line| + 4);
  }

  lemma {:induction false} StopsUnsupported(body: Bytes, deny: set<Bytes>, p: nat, q: nat)
    requires p < 0x10_0000 && p + 4 <= q <= |body| && HeaderAt(body, p) == Some(q - p)
    requires |Fields(CutAtNul(body[p + 4..q]))| != 3
    ensures StopsAt(body, deny, p, Some(Unsupported))
  {}
}
