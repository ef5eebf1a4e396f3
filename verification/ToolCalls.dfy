/** Finding a tool call in a model reply, and the bounded tool loop around the gateway. */
module ToolCalls {
  import opened Prelude

  type Byte = b: int | 0 <= b < 256

  const OPEN: Byte := 0x7B
  const CLOSE: Byte := 0x7D

  /** A decoded tool request: its name and the text of its arguments. */
  datatype Call = Call(tool: string, args: string)

  // ---- The span a scan is looking for ----

  function Delta(b: Byte): int { if b == OPEN then 1 else if b == CLOSE then -1 else 0 }

  /** Opening minus closing braces in `s[i..j]`. */
  function Depth(s: seq<Byte>, i: nat, j: nat): int
    requires i <= j <= |s|
    decreases j
  {
    if i == j then 0 else Depth(s, i, j - 1) + Delta(s[j - 1])
  }

  /** `s[i..j]` starts with an opening brace, every proper non-empty prefix of it has positive depth, and the whole
      has depth zero. */
  ghost predicate IsSpan(s: seq<Byte>, i: nat, j: nat) {
    && i < j <= |s|
    && s[i] == '{' as int
    && (forall k :: i < k < j ==> Depth(s, i, k) > 0)
    && Depth(s, i, j) == 0
  }

  /** Some brace at `i` opens a span that decodes to a tool call. */
  ghost predicate CallsAt(s: seq<Byte>, decode: seq<Byte> -> Option<Call>, i: nat, call: Call) {
    exists j: nat :: IsSpan(s, i, j) && decode(s[i..j]) == Some(call)
  }

  /** A brace opens at most one span. */
  lemma SpanUnique(s: seq<Byte>, i: nat, j: nat, k: nat)
    requires IsSpan(s, i, j) && IsSpan(s, i, k)
    ensures j == k
  {
  }

  /** A span is closed by a closing brace, so both its ends are ASCII bytes. */
  lemma SpanEndsInBrace(s: seq<Byte>, i: nat, j: nat)
    requires IsSpan(s, i, j)
    ensures j >= i + 2 && s[j - 1] == '}' as int
  {
    assert Depth(s, i, i + 1) == Depth(s, i, i) + 1;
    assert Depth(s, i, j) == Depth(s, i, j - 1) + Delta(s[j - 1]);
  }

  predicate IsContinuation(b: Byte) { 0x80 <= b < 0xC0 }

  /** In UTF-8 a continuation byte never follows an ASCII one. */
  ghost predicate AsciiStandsAlone(s: seq<Byte>) {
    forall k, l :: 0 <= k && l == k + 1 && l < |s| && s[k] < 0x80 ==> !IsContinuation(s[l])
  }

  predicate IsCharBoundary(s: seq<Byte>, k: nat) { k == 0 || k == |s| || (k < |s| && !IsContinuation(s[k])) }

  /** Slicing text at the ends of a span never splits a character. */
  lemma SpanIsSliceable(s: seq<Byte>, i: nat, j: nat)
    requires AsciiStandsAlone(s) && IsSpan(s, i, j)
    ensures IsCharBoundary(s, i) && IsCharBoundary(s, j)
  {
    SpanEndsInBrace(s, i, j);
    assert j < |s| ==> !IsContinuation(s[j]);
  }

  /** `decode` stands for parsing the slice as JSON and finding a string under "tool". */
  type Decoder = seq<Byte> -> Option<Call>

  /** The call of the leftmost brace at or after `i` that opens a decodable span. */
  ghost function CallFrom(s: seq<Byte>, decode: Decoder, i: nat): Option<Call>
    requires i <= |s|
    decreases |s| - i
  {
    if i == |s| then None
    else if call :| CallsAt(s, decode, i, call) then Some(call) else CallFrom(s, decode, i + 1)
  }

  lemma {:induction false} CallFromIs(s: seq<Byte>, decode: Decoder, i: nat)
    requires i <= |s|
    ensures var found := CallFrom(s, decode, i);
            if found.None? then forall h, call :: h >= i ==> !CallsAt(s, decode, h, call)
            else exists h :: h >= i && CallsAt(s, decode, h, found.value) && forall g, call :: i <= g < h ==>
                !CallsAt(s, decode, g, call)
    decreases |s| - i
  {
    if i < |s| && !exists call :: CallsAt(s, decode, i, call) { CallFromIs(s, decode, i + 1); }
  }

  ghost function CallIn(s: seq<Byte>, decode: Decoder): Option<Call> { CallFrom(s, decode, 0) }

  lemma CallUnique(s: seq<Byte>, decode: Decoder, i: nat, a: Call, b: Call)
    requires CallsAt(s, decode, i, a) && CallsAt(s, decode, i, b)
    ensures a == b
  {
  }

  /** The end of the span a brace opens, if it closes at all. */
  method ScanSpan(s: seq<Byte>, i: nat) returns (end: Option<nat>)
    requires i < |s| && s[i] == OPEN
    ensures end.Some? ==> IsSpan(s, i, end.value)
    ensures end.None? ==> forall j :: !IsSpan(s, i, j)
  {
    var depth := 0;
    var j := i;
    while j < |s|
      invariant i <= j <= |s|
      invariant depth == Depth(s, i, j)
      invariant forall k :: i < k <= j ==> Depth(s, i, k) > 0
    {
      if s[j] == OPEN {
        depth := depth + 1;
      } else if s[j] == CLOSE {
        depth := depth - 1;
        if depth == 0 { return Some(j + 1); }
      }
      j := j + 1;
    }
    return None;
  }

  /** Returns the call of the leftmost brace that opens a decodable span, and none exactly when no brace does. */
  method ParseToolCall(s: seq<Byte>, decode: Decoder) returns (found: Option<Call>)
    ensures found.None? <==> forall i, call :: !CallsAt(s, decode, i, call)
    ensures found.Some? ==> exists i :: CallsAt(s, decode, i, found.value) && forall h, call :: h < i ==>
            !CallsAt(s, decode, h, call)
    ensures found == CallIn(s, decode)
  {
    CallFromIs(s, decode, 0);
    var i := 0;
    while i < |s|
      invariant 0 <= i <= |s|
      invariant CallIn(s, decode) == CallFrom(s, decode, i)
    {
      if s[i] == OPEN {
        var end := ScanSpan(s, i);
        if end.Some? {
          var call := decode(s[i..end.value]);
          if call.Some? {
            assert CallsAt(s, decode, i, call.value);
            forall other | CallsAt(s, decode, i, other) { CallUnique(s, decode, i, call.value, other); }
            return call;
          }
          forall k | IsSpan(s, i, k) ensures k == end.value { SpanUnique(s, i, end.value, k); }
        }
      }
      i := i + 1;
    }
    return None;
  }

  // ---- The tool loop ----

  datatype Role = User | Assistant

  datatype Message = Message(role: Role, content: seq<Byte>)

  /** What the governed completion of one round returns. */
  datatype Reply = Refused(error: string) | Answered(content: seq<Byte>, cost: real)

  datatype Outcome = Outcome(answer: seq<Byte>, cost: real)

  /** What surrounds the loop: the decoder, the replies and tool results (or tool errors) of consecutive rounds as
      texts, and the wording of the push-back. */
  datatype World = World(decode: Decoder, replies: nat -> Reply, results: (nat, Call) -> seq<Byte>,
                         pushBack: string -> seq<Byte>)

  ghost function CallOf(w: World, r: nat): Option<Call> {
    if w.replies(r).Answered? then CallIn(w.replies(r).content, w.decode) else None
  }

  /** The required tool, if any, was called in one of the first `n` rounds. */
  ghost predicate Satisfied(w: World, n: nat, required: Option<string>) {
    required.Some? ==> exists r: nat :: r < n && CallOf(w, r).Some? && CallOf(w, r).value.tool == required.value
  }

  /** A round that does not end the loop: it called a tool, or answered too early. */
  ghost predicate Continues(w: World, r: nat, required: Option<string>) {
    w.replies(r).Answered? && (CallOf(w, r).Some? || !Satisfied(w, r, required))
  }

  function CostSum(w: World, n: nat): real {
    if n == 0 then 0.0 else CostSum(w, n - 1) + if w.replies(n - 1).Answered? then w.replies(n - 1).cost else 0.0
  }

  /** What the first `n` rounds cost, one by one. */
  function CostsOf(w: World, n: nat): seq<real> {
    seq(n, r requires 0 <= r < n => if w.replies(r).Answered? then w.replies(r).cost else 0.0)
  }

  function Itself(x: real): real { x }

  lemma {:induction false} CostSumIs(w: World, n: nat)
    ensures CostSum(w, n) == Total(CostsOf(w, n), Itself)
  {
    if n > 0 {
      var last := if w.replies(n - 1).Answered? then w.replies(n - 1).cost else 0.0;
      CostSumIs(w, n - 1);
      TotalAppend(CostsOf(w, n - 1), last, Itself);
      assert CostsOf(w, n) == CostsOf(w, n - 1) + [last];
    }
  }

  function ContentOf(reply: Reply): seq<Byte> { if reply.Answered? then reply.content else [] }

  /** The user message that follows a round which does not end the loop: the tool's result, or a push-back. */
  ghost function FollowUp(w: World, r: nat, required: Option<string>): seq<Byte> {
    if CallOf(w, r).Some? then w.results(r, CallOf(w, r).value)
        else w.pushBack(if required.Some? then required.value else "")
  }

  /** The conversation after `n` rounds that did not end the loop. */
  ghost function Transcript(w: World, prompt: seq<Byte>, n: nat, required: Option<string>): seq<Message> {
    if n == 0 then [Message(User, prompt)]
    else
      Transcript(w, prompt, n - 1, required)
      + [Message(Assistant, ContentOf(w.replies(n - 1))), Message(User, FollowUp(w, n - 1, required))]
  }

  /** `t` has 1 + 2n messages of alternating roles: round r is message 2r + 1, its follow-up message 2r + 2. */
  ghost predicate Alternates(t: seq<Message>, w: World, n: nat, required: Option<string>) {
    && |t| == 1 + 2 * n
    && (forall k :: 0 <= k < |t| ==> t[k].role == if k % 2 == 0 then User else Assistant)
    && (forall r: nat :: r < n ==>
        t[2 * r + 1].content == ContentOf(w.replies(r)) && t[2 * r + 2].content == FollowUp(w, r, required))
  }

  lemma OneMoreRound(t: seq<Message>, w: World, n: nat, required: Option<string>)
    requires Alternates(t, w, n, required)
    ensures Alternates(t + [Message(Assistant, ContentOf(w.replies(n))), Message(User, FollowUp(w, n, required))], w,
                       n + 1, required)
  {
  }

  /** The transcript of n such rounds alternates between replies and follow-ups. */
  lemma {:induction false} TranscriptAlternates(w: World, prompt: seq<Byte>, n: nat, required: Option<string>)
    ensures Alternates(Transcript(w, prompt, n, required), w, n, required)
  {
    if n > 0 {
      TranscriptAlternates(w, prompt, n - 1, required);
      OneMoreRound(Transcript(w, prompt, n - 1, required), w, n - 1, required);
    }
  }

  /** The loop over consecutive rounds. Returns the number of completions made and the transcript. */
  method RunToolLoop(w: World, prompt: seq<Byte>, maxRounds: nat, required: Option<string>)
    returns (outcome: Result<Outcome, string>, rounds: nat, transcript: seq<Message>)
    ensures 1 <= rounds <= Max(1, maxRounds)
    ensures forall r: nat :: r < rounds - 1 ==> Continues(w, r, required)
    ensures rounds < Max(1, maxRounds) ==> !Continues(w, rounds - 1, required)
    ensures outcome.Ok? <==> w.replies(rounds - 1).Answered? && Satisfied(w, rounds, required)
    ensures outcome.Ok? ==> outcome.value.answer == w.replies(rounds - 1).content
                            && outcome.value.cost == Total(CostsOf(w, rounds), Itself)
    ensures outcome.Err? ==> outcome.error == if w.replies(rounds - 1).Refused? then w.replies(rounds - 1).error
                                              else "required tool was not called"
    ensures var n := if Continues(w, rounds - 1, required) then rounds else rounds - 1;
            transcript == Transcript(w, prompt, n, required)
  {
    transcript := [Message(User, prompt)];
    var last: seq<Byte>, cost := [], 0.0;
    var satisfied := required.None?;
    rounds := 0;
    while rounds < Max(1, maxRounds)
      invariant rounds <= Max(1, maxRounds)
      invariant forall r: nat :: r < rounds ==> Continues(w, r, required)
      invariant satisfied <==> Satisfied(w, rounds, required)
      invariant cost == CostSum(w, rounds)
      invariant rounds > 0 ==> w.replies(rounds - 1).Answered? && last == w.replies(rounds - 1).content
      invariant transcript == Transcript(w, prompt, rounds, required)
    {
      var reply := w.replies(rounds);
      rounds := rounds + 1;
      if reply.Refused? { return Err(reply.error), rounds, transcript; }
      cost := cost + reply.cost;
      last := reply.content;
      var call := ParseToolCall(reply.content, w.decode);
      assert call == CallOf(w, rounds - 1);
      if call.Some? {
        if required == Some(call.value.tool) { satisfied := true; }
        transcript := transcript
            + [Message(Assistant, reply.content), Message(User, w.results(rounds - 1, call.value))];
      } else if !satisfied {
        transcript := transcript + [Message(Assistant, reply.content), Message(User, w.pushBack(required.value))];
      } else {
        CostSumIs(w, rounds);
        return Ok(Outcome(reply.content, cost)), rounds, transcript;
      }
    }
    if !satisfied { return Err("required tool was not called"), rounds, transcript; }
    CostSumIs(w, rounds);
    return Ok(Outcome(last, cost)), rounds, transcript;
  }
}
