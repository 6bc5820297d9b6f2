/**
 The streaming token counter of proxy.go and its hand-written integer scanner, on bytes.
 */
module Tokens {
  import opened Options
  import opened Quotients

  newtype Byte = x: int | 0 <= x < 256

  type Bytes = seq<Byte>

  const NEWLINE: Byte := 10
  const QUOTE: Byte := 34
  const SPACE: Byte := 32
  const COLON: Byte := 58
  const TAIL_MAX := 2048
  const MAX_INT := 0x7FFF_FFFF_FFFF_FFFF
  const NS_PER_MS := 1_000_000

  // The field names and the event marker in ASCII.
  const DATA_MARK: Bytes := [100, 97, 116, 97, 58]
  const EVAL_COUNT: Bytes := [101, 118, 97, 108, 95, 99, 111, 117, 110, 116]
  const PROMPT_EVAL_COUNT: Bytes := [112, 114, 111, 109, 112, 116, 95] + EVAL_COUNT
  const COMPLETION_TOKENS: Bytes := [99, 111, 109, 112, 108, 101, 116, 105, 111, 110, 95, 116, 111, 107, 101, 110, 115]
  const EVAL_DURATION: Bytes := [101, 118, 97, 108, 95, 100, 117, 114, 97, 116, 105, 111, 110]

  function Ascii(s: string): (b: Bytes)
    requires forall i | 0 <= i < |s| :: s[i] <= '~'
    ensures |b| == |s| && forall i | 0 <= i < |s| :: b[i] as int == s[i] as int
  {
    seq(|s|, i requires 0 <= i < |s| => (s[i] as int) as Byte)
  }

  lemma EvalAsWritten()
    ensures EVAL_COUNT == Ascii("eval_count") && EVAL_DURATION == Ascii("eval_duration")
  {
  }

  lemma LongNamesAsWritten()
    ensures COMPLETION_TOKENS == Ascii("completion_tokens")
    ensures PROMPT_EVAL_COUNT == Ascii("prompt_eval_count")
  {
  }

  /** The names and the marker as they are written. */
  lemma KeysAsWritten()
    ensures DATA_MARK == Ascii("data:")
    ensures EVAL_COUNT == Ascii("eval_count") && EVAL_DURATION == Ascii("eval_duration")
    ensures COMPLETION_TOKENS == Ascii("completion_tokens") && PROMPT_EVAL_COUNT == Ascii("prompt_eval_count")
    ensures Needle(EVAL_COUNT) == Ascii("\"eval_count\"")
  {
    EvalAsWritten();
    LongNamesAsWritten();
  }

  // ---- Searching ----

  predicate OccursAt(b: Bytes, needle: Bytes, i: int) {
    0 <= i && i + |needle| <= |b| && b[i..i + |needle|] == needle
  }

  /** The last occurrence that starts before position n; -1 if there is none. */
  function LastBefore(b: Bytes, needle: Bytes, n: nat): (i: int)
    ensures i == -1 || (0 <= i < n && OccursAt(b, needle, i))
    ensures forall k | i < k < n :: !OccursAt(b, needle, k)
  {
    if n == 0 then -1 else if OccursAt(b, needle, n - 1) then n - 1 else LastBefore(b, needle, n - 1)
  }

  function LastIndex(b: Bytes, needle: Bytes): int {
    LastBefore(b, needle, |b| + 1)
  }

  predicate Contains(b: Bytes, needle: Bytes) {
    LastIndex(b, needle) >= 0
  }

  lemma ContainsMeans(b: Bytes, needle: Bytes)
    ensures Contains(b, needle) <==> exists i :: OccursAt(b, needle, i)
  {
  }

  // ---- Digits ----

  predicate IsDigit(c: Byte) {
    48 <= c <= 57
  }

  predicate IsSeparator(c: Byte) {
    c == SPACE || c == COLON
  }

  /** The value of a run of decimal digits. */
  function Value(digits: Bytes): nat
    requires forall c | c in digits :: IsDigit(c)
  {
    if digits == [] then 0
    else
      var n := |digits| - 1;
      assert digits[n] in digits && IsDigit(digits[n]);
      assert forall c | c in digits[..n] :: c in digits;
      Value(digits[..n]) * 10 + (digits[n] as int - 48)
  }

  /** The decimal print of a number. */
  function Decimal(n: nat): (digits: Bytes)
    ensures digits != [] && forall c | c in digits :: IsDigit(c)
  {
    var last: Bytes := [(n % 10 + 48) as Byte];
    if n < 10 then last else Decimal(n / 10) + last
  }

  /** The print is positional: the last digit stands for the ones, what is before it for the tens. */
  lemma DecimalIsPositional(tens: nat, ones: nat)
    requires ones <= 9
    ensures Decimal(10 * tens + ones) == (if tens == 0 then [] else Decimal(tens)) + [(48 + ones) as Byte]
  {
  }

  lemma {:induction false} ValueOfDecimal(n: nat)
    ensures Value(Decimal(n)) == n
  {
    var digits := Decimal(n);
    if n < 10 {
      assert digits[..0] == [];
    } else {
      ValueOfDecimal(n / 10);
      assert digits[..|digits| - 1] == Decimal(n / 10);
    }
  }

  // ---- The scanner ----

  /** How far a run of bytes of one class reaches from position j. */
  function SkipSeparators(b: Bytes, j: nat): (k: nat)
    requires j <= |b|
    ensures j <= k <= |b|
    ensures forall i | j <= i < k :: IsSeparator(b[i])
    ensures k < |b| ==> !IsSeparator(b[k])
    decreases |b| - j
  {
    if j < |b| && IsSeparator(b[j]) then SkipSeparators(b, j + 1) else j
  }

  function SkipDigits(b: Bytes, j: nat): (k: nat)
    requires j <= |b|
    ensures j <= k <= |b|
    ensures forall i | j <= i < k :: IsDigit(b[i])
    ensures k < |b| ==> !IsDigit(b[k])
    decreases |b| - j
  {
    if j < |b| && IsDigit(b[j]) then SkipDigits(b, j + 1) else j
  }

  function Needle(key: Bytes): Bytes {
    [QUOTE] + key + [QUOTE]
  }

  /** The integer after the last occurrence of the quoted key; None if there is none in range. */
  function IntField(b: Bytes, key: Bytes): Option<nat> {
    var i := LastIndex(b, Needle(key));
    if i < 0 then None
    else
      var start := SkipSeparators(b, i + |Needle(key)|);
      var end := SkipDigits(b, start);
      if end == start then None
      else if Value(b[start..end]) > MAX_INT then None
      else Some(Value(b[start..end]))
  }

  method JsonIntField(b: Bytes, key: Bytes) returns (n: Option<nat>)
    ensures n == IntField(b, key)
  {
    var needle := [QUOTE] + key + [QUOTE];
    var i := LastIndex(b, needle);
    if i < 0 { return None; }
    var j := i + |needle|;
    while j < |b| && (b[j] == SPACE || b[j] == COLON)
      invariant i + |needle| <= j <= |b|
      invariant SkipSeparators(b, i + |needle|) == SkipSeparators(b, j)
    {
      j := j + 1;
    }
    var start := j;
    while j < |b| && 48 <= b[j] <= 57
      invariant start <= j <= |b|
      invariant SkipDigits(b, start) == SkipDigits(b, j)
    {
      j := j + 1;
    }
    if j == start { return None; }
    if Value(b[start..j]) > MAX_INT { return None; }
    return Some(Value(b[start..j]));
  }

  /** After pre the bytes hold the quoted key, separators and a printed number; the key does not occur again. */
  ghost predicate FieldAt(b: Bytes, key: Bytes, pre: Bytes, seps: Bytes, n: nat, post: Bytes) {
    && b == pre + ([34] + key + [34]) + seps + Decimal(n) + post
    && (forall c | c in seps :: c == 32 || c == 58)
    && (post == [] || post[0] < 48 || post[0] > 57)
    && (forall k | k > |pre| :: !OccursAt(b, [34] + key + [34], k))
  }

  /** The last field of that name has the value n, which is in range. */
  ghost predicate Holds(b: Bytes, key: Bytes, n: nat) {
    n <= 9_223_372_036_854_775_807 && exists pre, seps, post :: FieldAt(b, key, pre, seps, n, post)
  }

  /** The stream ends with a field of that name and value, all within its last 2048 bytes. */
  ghost predicate EndsWithField(whole: Bytes, key: Bytes, n: nat) {
    n <= 9_223_372_036_854_775_807 &&
    exists pre, seps, post :: FieldAt(whole, key, pre, seps, n, post) && |whole| - |pre| <= 2048
  }

  lemma SeparatorsEnd(b: Bytes, j: nat, k: nat)
    requires j <= k < |b| && !IsSeparator(b[k]) && forall i | j <= i < k :: IsSeparator(b[i])
    ensures SkipSeparators(b, j) == k
  {
  }

  lemma DigitsEnd(b: Bytes, j: nat, k: nat)
    requires j <= k <= |b| && (k < |b| ==> !IsDigit(b[k])) && forall i | j <= i < k :: IsDigit(b[i])
    ensures SkipDigits(b, j) == k
  {
  }

  /** Where the separators and the digits of a printed field stand. */
  lemma FieldParts(b: Bytes, key: Bytes, pre: Bytes, seps: Bytes, n: nat, post: Bytes)
    requires FieldAt(b, key, pre, seps, n, post)
    ensures var j := |pre| + |key| + 2;
      var start, end := j + |seps|, j + |seps| + |Decimal(n)|;
      && j <= start < end <= |b| && b[|pre|..j] == Needle(key) && b[start..end] == Decimal(n)
      && (forall i | j <= i < start :: IsSeparator(b[i])) && !IsSeparator(b[start])
      && (forall i | start <= i < end :: IsDigit(b[i])) && (end < |b| ==> !IsDigit(b[end]))
  {
    hide OccursAt, Decimal;
    var digits := Decimal(n);
    var j := |pre| + |key| + 2;
    forall i | j <= i < j + |seps| ensures IsSeparator(b[i]) {
      assert b[i] == seps[i - j] && seps[i - j] in seps;
    }
    forall i | j + |seps| <= i < j + |seps| + |digits| ensures IsDigit(b[i]) {
      assert b[i] == digits[i - j - |seps|] && digits[i - j - |seps|] in digits;
    }
    if post != [] { assert b[j + |seps| + |digits|] == post[0]; }
  }

  lemma LastIsAt(b: Bytes, needle: Bytes, i: nat)
    requires OccursAt(b, needle, i) && forall k | k > i :: !OccursAt(b, needle, k)
    ensures LastIndex(b, needle) == i
  {
  }

  lemma NotRepeated(b: Bytes, key: Bytes, pre: Bytes, seps: Bytes, n: nat, post: Bytes)
    requires FieldAt(b, key, pre, seps, n, post)
    ensures forall k | k > |pre| :: !OccursAt(b, Needle(key), k)
  {
  }

  /** Scanning what was printed: the field is found whatever stands before and after it. */
  lemma FieldRoundTrip(b: Bytes, key: Bytes, n: nat)
    requires Holds(b, key, n)
    ensures IntField(b, key) == Some(n)
  {
    hide FieldAt, SkipSeparators, SkipDigits, Decimal, Value, LastIndex;
    var pre, seps, post :| FieldAt(b, key, pre, seps, n, post);
    FieldParts(b, key, pre, seps, n, post);
    NotRepeated(b, key, pre, seps, n, post);
    LastIsAt(b, Needle(key), |pre|);
    var j := |pre| + |key| + 2;
    SeparatorsEnd(b, j, j + |seps|);
    DigitsEnd(b, j + |seps|, j + |seps| + |Decimal(n)|);
    ValueOfDecimal(n);
  }

  /**
   Nothing is invented: a number that the scanner returns stands in the text as a run of digits, after
   nothing but separators after the last occurrence of the quoted key, and it is in range.
   */
  lemma FieldStands(b: Bytes, key: Bytes) returns (i: int, start: nat, end: nat)
    ensures IntField(b, key).Some? ==>
              && OccursAt(b, [34] + key + [34], i) && (forall k | k > i :: !OccursAt(b, [34] + key + [34], k))
              && i + |key| + 2 <= start < end <= |b|
              && (forall k | i + |key| + 2 <= k < start :: b[k] == 32 || b[k] == 58)
              && (forall k | start <= k < end :: 48 <= b[k] <= 57)
              && (end < |b| ==> b[end] < 48 || b[end] > 57)
              && (forall c | c in b[start..end] :: IsDigit(c))
              && IntField(b, key).value == Value(b[start..end]) <= 9_223_372_036_854_775_807
    ensures (forall k :: !OccursAt(b, [34] + key + [34], k)) ==> IntField(b, key) == None
  {
    i, start, end := LastIndex(b, Needle(key)), 0, 0;
    assert Needle(key) == [34] + key + [34];
    assert forall k :: OccursAt(b, Needle(key), k) ==> 0 <= k < |b| + 1;
    if i >= 0 {
      start := SkipSeparators(b, i + |Needle(key)|);
      end := SkipDigits(b, start);
      assert forall c | c in b[start..end] :: IsDigit(c);
    }
  }

  /**
   The count of prompt tokens is not mistaken for the count of answer tokens: no occurrence of the
   "eval_count" needle lies inside a quoted "prompt_eval_count", unless it begins with the quote
   that closes it.
   */
  lemma PromptKeyNeverMatches(pre: Bytes, post: Bytes, i: nat)
    requires OccursAt(pre + Needle(PROMPT_EVAL_COUNT) + post, Needle(EVAL_COUNT), i)
    ensures i + |Needle(EVAL_COUNT)| <= |pre| + 1 || i >= |pre| + |Needle(PROMPT_EVAL_COUNT)| - 1
    ensures (post == [] || post[0] != EVAL_COUNT[0]) ==>
              i + |Needle(EVAL_COUNT)| <= |pre| + 1 || i >= |pre| + |Needle(PROMPT_EVAL_COUNT)|
  {
    var key, needle := Needle(PROMPT_EVAL_COUNT), Needle(EVAL_COUNT);
    var b := pre + key + post;
    assert b[i] == b[i..i + |needle|][0] == QUOTE;
    assert b[i + 11] == b[i..i + |needle|][11] == QUOTE;
    assert forall k | 0 < k < |key| - 1 :: key[k] != QUOTE;
    assert forall k | 0 <= k < |key| :: b[|pre| + k] == key[k];
    // Neither quote of the needle can be an inner byte of the key.
    if i + |needle| > |pre| + 1 && i < |pre| + |key| - 1 {
      assert false;
    }
    if i == |pre| + |key| - 1 && post != [] {
      assert b[i + 1] == b[i..i + |needle|][1] == EVAL_COUNT[0];
      assert b[i + 1] == post[0];
    }
  }

  // ---- The counter ----

  function Newlines(b: Bytes): nat {
    if b == [] then 0 else Newlines(b[..|b| - 1]) + if b[|b| - 1] == NEWLINE then 1 else 0
  }

  /** The last bytes of a stream, as many as the tail keeps. */
  function Tail(b: Bytes): Bytes {
    if |b| > TAIL_MAX then b[|b| - TAIL_MAX..] else b
  }

  /** The newlines of a text are the bytes 10 in it. */
  lemma {:induction false} NewlinesMean(b: Bytes)
    ensures Newlines(b) == multiset(b)[10]
  {
    if b != [] {
      NewlinesMean(b[..|b| - 1]);
      assert b == b[..|b| - 1] + [b[|b| - 1]];
    }
  }

  /** The tail is as long as the stream, up to 2048 bytes, and ends as the stream ends. */
  lemma TailIsEnd(pre: Bytes, last: Bytes)
    requires |last| <= 2048
    ensures var b := pre + last;
      && |Tail(b)| == (if |b| < 2048 then |b| else 2048)
      && Tail(b)[|Tail(b)| - |last|..] == last
      && Tail(b) == b[|b| - |Tail(b)|..]
  {
  }

  /** What occurs in the rest of a text occurs in the text. */
  lemma OccursShifted(whole: Bytes, cut: nat, needle: Bytes, k: int)
    requires cut <= |whole| && OccursAt(whole[cut..], needle, k)
    ensures OccursAt(whole, needle, k + cut)
  {
    assert whole[k + cut..k + cut + |needle|] == whole[cut..][k..k + |needle|];
  }

  lemma CutBeforeField(pre: Bytes, needle: Bytes, seps: Bytes, digits: Bytes, post: Bytes, cut: nat)
    requires cut <= |pre|
    ensures (pre + needle + seps + digits + post)[cut..] == pre[cut..] + needle + seps + digits + post
  {
  }

  lemma AbsentFromRest(whole: Bytes, cut: nat, needle: Bytes, i: int)
    requires cut <= |whole| && forall k | k > i :: !OccursAt(whole, needle, k)
    ensures forall k | k > i - cut :: !OccursAt(whole[cut..], needle, k)
  {
    forall k | k > i - cut ensures !OccursAt(whole[cut..], needle, k) {
      assert !OccursAt(whole, needle, k + cut);
      if OccursAt(whole[cut..], needle, k) { OccursShifted(whole, cut, needle, k); }
    }
  }

  lemma FieldInRest(whole: Bytes, cut: nat, key: Bytes, pre: Bytes, seps: Bytes, n: nat, post: Bytes)
    requires FieldAt(whole, key, pre, seps, n, post) && cut <= |pre|
    ensures |pre| <= |whole| && FieldAt(whole[cut..], key, pre[cut..], seps, n, post)
  {
    hide OccursAt;
    var needle := [34] + key + [34];
    CutBeforeField(pre, needle, seps, Decimal(n), post, cut);
    AbsentFromRest(whole, cut, needle, |pre|);
  }

  /** A field in the last 2048 bytes of a stream is in its tail. */
  lemma TailHoldsField(whole: Bytes, key: Bytes, n: nat)
    requires EndsWithField(whole, key, n)
    ensures Holds(Tail(whole), key, n)
  {
    hide FieldAt, Tail;
    var pre, seps, post :| FieldAt(whole, key, pre, seps, n, post) && |whole| - |pre| <= 2048;
    FieldInRest(whole, 0, key, pre, seps, n, post);
    TailIsEnd(whole, []);
    assert whole + [] == whole;
    FieldInRest(whole, |whole| - |Tail(whole)|, key, pre, seps, n, post);
  }

  function CountFrom(tail: Bytes, newlines: nat, sse: bool): nat {
    var eval := IntField(tail, EVAL_COUNT);
    var completion := IntField(tail, COMPLETION_TOKENS);
    if eval.Some? && eval.value > 0 then eval.value
    else if completion.Some? && completion.value > 0 then completion.value
    else if sse && newlines > 1 then newlines / 2
    else if newlines > 0 then newlines
    else 1
  }

  /** The order of preference, with the names as they are written. */
  lemma CountMeans(tail: Bytes, newlines: nat, sse: bool)
    ensures var eval, completion := IntField(tail, Ascii("eval_count")), IntField(tail, Ascii("completion_tokens"));
      var n := CountFrom(tail, newlines, sse);
      && (Positive(eval) ==> n == eval.value)
      && (!Positive(eval) && Positive(completion) ==> n == completion.value)
      && (!Positive(eval) && !Positive(completion) && sse && newlines >= 2 ==> 2 * n <= newlines <= 2 * n + 1)
      && (!Positive(eval) && !Positive(completion) && !sse && newlines >= 1 ==> n == newlines)
      && (!Positive(eval) && !Positive(completion) && newlines <= 1 ==> n == 1)
  {
    KeysAsWritten();
  }

  /** From what the fields say; elapsedMs is the time since the first byte, None if there was none. */
  function DecodeMs(duration: Option<nat>, eval: Option<nat>, tokens: nat, chunks: nat, elapsedMs: Option<nat>): nat
    requires tokens > 0
  {
    if duration.Some? && duration.value > 0 then
      var ms := duration.value / (if eval.Some? && eval.value > 0 then eval.value else tokens) / NS_PER_MS;
      if ms < 1 then 1 else ms
    else if chunks > 1 && elapsedMs.Some? then
      if elapsedMs.value / tokens < 1 then 1 else elapsedMs.value / tokens
    else 0
  }

  function PerTokenMs(tail: Bytes, tokens: nat, chunks: nat, elapsedMs: Option<nat>): nat
    requires tokens > 0
  {
    DecodeMs(IntField(tail, EVAL_DURATION), IntField(tail, EVAL_COUNT), tokens, chunks, elapsedMs)
  }

  predicate Positive(field: Option<nat>) {
    field.Some? && field.value > 0
  }

  /**
   What the latency means. It is 0 exactly when there is nothing to go by: no positive duration, and
   at most one read or no first byte. Otherwise it is the largest number of whole milliseconds that
   fit into the time for each token, but at least 1: the engine's own time over the engine's own
   count if it reports them, else the time since the first byte over the estimated count.
   */
  lemma DecodeMsMeaning(
    duration: Option<nat>, eval: Option<nat>, tokens: nat, chunks: nat, elapsedMs: Option<nat>, n: nat)
    requires tokens > 0 && n > 1
    ensures var ms := DecodeMs(duration, eval, tokens, chunks, elapsedMs);
      && (ms == 0 <==> !Positive(duration) && (chunks <= 1 || elapsedMs.None?))
      && (Positive(duration) && Positive(eval) ==> (n <= ms <==> n * 1_000_000 * eval.value <= duration.value))
      && (Positive(duration) && !Positive(eval) ==> (n <= ms <==> n * 1_000_000 * tokens <= duration.value))
      && (!Positive(duration) && ms > 0 ==> (n <= ms <==> n * tokens <= elapsedMs.value))
  {
    if Positive(duration) {
      NestedQuotientFits(duration.value, if Positive(eval) then eval.value else tokens, NS_PER_MS, n);
    } else if chunks > 1 && elapsedMs.Some? {
      QuotientFits(elapsedMs.value, tokens, n);
    }
  }

  class TokenCounter {
    var newlines: nat
    var chunks: nat
    var sse: bool
    var tail: Bytes

    constructor ()
      ensures newlines == 0 && chunks == 0 && !sse && tail == []
    {
      newlines, chunks, sse, tail := 0, 0, false, [];
    }

    method Observe(b: Bytes)
      modifies this
      ensures chunks == old(chunks) + 1
      ensures newlines == old(newlines) + Newlines(b) == old(newlines) + multiset(b)[10]
      ensures sse == (old(sse) || Contains(b, DATA_MARK))
      ensures sse <==> old(sse) || exists i :: OccursAt(b, Ascii("data:"), i)
      ensures tail == Tail(old(tail) + b)
      ensures tail == if |old(tail) + b| <= 2048 then old(tail) + b else (old(tail) + b)[|old(tail) + b| - 2048..]
    {
      hide Contains, OccursAt, Ascii, LastIndex;
      NewlinesMean(b);
      ContainsMeans(b, DATA_MARK);
      KeysAsWritten();
      chunks := chunks + 1;
      for i := 0 to |b|
        invariant newlines == old(newlines) + Newlines(b[..i])
        invariant chunks == old(chunks) + 1 && sse == old(sse) && tail == old(tail)
      {
        assert b[..i + 1][..i] == b[..i];
        if b[i] == NEWLINE {
          newlines := newlines + 1;
        }
      }
      assert b[..|b|] == b;
      if !sse && Contains(b, DATA_MARK) {
        sse := true;
      }
      tail := tail + b;
      if |tail| > TAIL_MAX {
        tail := tail[|tail| - TAIL_MAX..];
      }
    }

    method Count() returns (n: nat)
      ensures n == CountFrom(tail, newlines, sse) && n >= 1
    {
      var eval := JsonIntField(tail, EVAL_COUNT);
      if eval.Some? && eval.value > 0 { return eval.value; }
      var completion := JsonIntField(tail, COMPLETION_TOKENS);
      if completion.Some? && completion.value > 0 { return completion.value; }
      if sse && newlines > 1 { return newlines / 2; }
      if newlines > 0 { return newlines; }
      return 1;
    }

    method Result(elapsedMs: Option<nat>) returns (tokens: nat, perTokenMs: nat)
      ensures tokens == CountFrom(tail, newlines, sse) && tokens >= 1
      ensures perTokenMs == PerTokenMs(tail, tokens, chunks, elapsedMs)
    {
      tokens := Count();
      var evalNs := JsonIntField(tail, EVAL_DURATION);
      var ec := JsonIntField(tail, EVAL_COUNT);
      perTokenMs := DecodeLatency(evalNs, ec, tokens, elapsedMs);
    }

    method DecodeLatency(evalNs: Option<nat>, ec: Option<nat>, tokens: nat, elapsedMs: Option<nat>) returns (ms: nat)
      requires tokens > 0
      ensures ms == DecodeMs(evalNs, ec, tokens, chunks, elapsedMs)
    {
      ms := 0;
      if evalNs.Some? && evalNs.value > 0 {
        var denom := tokens;
        if ec.Some? && ec.value > 0 { denom := ec.value; }
        ms := evalNs.value / denom / NS_PER_MS;
        if ms < 1 { ms := 1; }
      } else if chunks > 1 && elapsedMs.Some? && tokens > 0 {
        ms := elapsedMs.value / tokens;
        if ms < 1 { ms := 1; }
      }
    }
  }

  // ---- Streams ----

  function Concat(chunks: seq<Bytes>): Bytes {
    if chunks == [] then [] else Concat(chunks[..|chunks| - 1]) + chunks[|chunks| - 1]
  }

  /** Some piece contains an event marker of its own; a marker cut in two is missed. */
  predicate SawEvent(pieces: seq<Bytes>) {
    exists i :: 0 <= i < |pieces| && Contains(pieces[i], DATA_MARK)
  }

  lemma SawEventSnoc(pieces: seq<Bytes>, last: Bytes)
    ensures SawEvent(pieces + [last]) <==> SawEvent(pieces) || Contains(last, DATA_MARK)
  {
    var all := pieces + [last];
    if Contains(last, DATA_MARK) { assert Contains(all[|pieces|], DATA_MARK); }
    if SawEvent(pieces) {
      var i :| 0 <= i < |pieces| && Contains(pieces[i], DATA_MARK);
      assert Contains(all[i], DATA_MARK);
    }
  }

  lemma {:induction false} NewlinesConcat(a: Bytes, b: Bytes)
    ensures Newlines(a + b) == Newlines(a) + Newlines(b)
  {
    if b == [] {
      assert a + b == a;
    } else {
      var n := |b| - 1;
      assert (a + b)[..|a + b| - 1] == a + b[..n];
      NewlinesConcat(a, b[..n]);
    }
  }

  /** Cutting to the tail early loses nothing that the final tail needs. */
  lemma TailAbsorbs(a: Bytes, b: Bytes)
    ensures Tail(Tail(a) + b) == Tail(a + b)
  {
    if |a| > TAIL_MAX {
      assert (Tail(a) + b)[|Tail(a) + b| - TAIL_MAX..] == (a + b)[|a + b| - TAIL_MAX..];
    }
  }

  /** The time since the first byte, if there was one. */
  function SinceFirstByte(observed: seq<Bytes>, elapsedMs: nat): Option<nat> {
    if observed == [] then None else Some(elapsedMs)
  }

  /**
   The copy loop. The pieces are what reading the body returned, empty ones among them; the client
   takes the first accepted non-empty ones and then disconnects. The counter ends up with the tail
   and the newlines of everything observed, however it was cut.
   */
  method Stream(pieces: seq<Bytes>, accepted: nat, elapsedMs: nat)
    returns (tokens: nat, perTokenMs: nat, observed: seq<Bytes>)
    ensures observed == Observed(pieces, accepted)
    ensures tokens == CountFrom(Tail(Concat(observed)), Newlines(Concat(observed)), SawEvent(observed))
    ensures tokens >= 1
    ensures perTokenMs ==
            PerTokenMs(Tail(Concat(observed)), tokens, |observed|, SinceFirstByte(observed, elapsedMs))
  {
    hide *;
    var tc := new TokenCounter();
    observed := [];
    NothingObserved(pieces, accepted);
    for i := 0 to |pieces|
      invariant observed == Observed(pieces[..i], accepted) && |observed| <= accepted
      invariant Reflects(tc.tail, tc.newlines, tc.sse, tc.chunks, observed) && fresh(tc)
    {
      ObservedNext(pieces, i, accepted);
      if |pieces[i]| > 0 {
        ReflectsMore(tc.tail, tc.newlines, tc.sse, tc.chunks, observed, pieces[i]);
        tc.Observe(pieces[i]);
        observed := observed + [pieces[i]];
        if |observed| > accepted {
          ObservedStops(pieces, i + 1, accepted);
          break;
        }
      }
    }
    assert |observed| <= accepted ==> pieces[..|pieces|] == pieces;
    ReflectedFields(tc.tail, tc.newlines, tc.sse, tc.chunks, observed);
    tokens, perTokenMs := tc.Result(SinceFirstByte(observed, elapsedMs));
  }

  lemma ObservedNext(pieces: seq<Bytes>, i: nat, accepted: nat)
    requires i < |pieces| && |Observed(pieces[..i], accepted)| <= accepted
    ensures var seen := Observed(pieces[..i], accepted);
      Observed(pieces[..i + 1], accepted) == if pieces[i] == [] then seen else seen + [pieces[i]]
  {
    assert pieces[..i + 1][..i] == pieces[..i];
  }

  lemma ReflectedFields(tail: Bytes, newlines: nat, sse: bool, chunks: nat, observed: seq<Bytes>)
    requires Reflects(tail, newlines, sse, chunks, observed)
    ensures tail == Tail(Concat(observed)) && newlines == Newlines(Concat(observed))
    ensures sse == SawEvent(observed) && chunks == |observed|
  {
  }

  /** The fields of the counter after the given pieces. */
  ghost predicate Reflects(tail: Bytes, newlines: nat, sse: bool, chunks: nat, observed: seq<Bytes>) {
    && tail == Tail(Concat(observed)) && newlines == Newlines(Concat(observed))
    && sse == SawEvent(observed) && chunks == |observed|
  }

  lemma NothingObserved(pieces: seq<Bytes>, accepted: nat)
    ensures Reflects([], 0, false, 0, []) && Observed(pieces[..0], accepted) == []
  {
  }

  lemma ReflectsMore(tail: Bytes, newlines: nat, sse: bool, chunks: nat, observed: seq<Bytes>, piece: Bytes)
    requires Reflects(tail, newlines, sse, chunks, observed)
    ensures Reflects(Tail(tail + piece), newlines + Newlines(piece), sse || Contains(piece, DATA_MARK), chunks + 1,
                     observed + [piece])
  {
    hide Tail, Newlines, Contains, SawEvent;
    TailAbsorbs(Concat(observed), piece);
    NewlinesConcat(Concat(observed), piece);
    SawEventSnoc(observed, piece);
    assert (observed + [piece])[..|observed|] == observed;
  }

  /** The pieces that reach the counter: the non-empty ones up to the first the client does not take. */
  function Observed(pieces: seq<Bytes>, accepted: nat): (out: seq<Bytes>)
    ensures |out| <= accepted + 1
  {
    if pieces == [] then []
    else
      var front, last := Observed(pieces[..|pieces| - 1], accepted), pieces[|pieces| - 1];
      if last == [] || |front| > accepted then front else front + [last]
  }

  lemma {:induction false} ObservedStops(pieces: seq<Bytes>, i: nat, accepted: nat)
    requires i <= |pieces| && |Observed(pieces[..i], accepted)| > accepted
    ensures Observed(pieces, accepted) == Observed(pieces[..i], accepted)
  {
    if i < |pieces| {
      var front := pieces[..|pieces| - 1];
      assert front[..i] == pieces[..i];
      ObservedStops(front, i, accepted);
    } else {
      assert pieces[..i] == pieces;
    }
  }

  lemma {:induction false} ObservedAll(pieces: seq<Bytes>, accepted: nat)
    requires |pieces| <= accepted
    ensures |Observed(pieces, accepted)| <= |pieces|
    ensures Concat(Observed(pieces, accepted)) == Concat(pieces)
  {
    if pieces != [] {
      var front, last := pieces[..|pieces| - 1], pieces[|pieces| - 1];
      ObservedAll(front, accepted);
      var seen := Observed(front, accepted);
      if last != [] {
        assert (seen + [last])[..|seen|] == seen;
      }
    }
  }

  /**
   Chunk independence. If the last 2048 bytes of a stream hold the "eval_count" field with a
   positive number in range, and its name does not occur again, then the count is that number for
   every way of cutting the stream into reads.
   */
  lemma CountIsChunkIndependent(whole: Bytes, pieces: seq<Bytes>, accepted: nat, n: nat, sse: bool)
    requires Concat(pieces) == whole && |pieces| <= accepted
    requires EndsWithField(whole, Ascii("eval_count"), n) && n > 0
    ensures var observed := Concat(Observed(pieces, accepted));
      CountFrom(Tail(observed), Newlines(observed), sse) == n
  {
    KeysAsWritten();
    ObservedAll(pieces, accepted);
    TailHoldsField(whole, EVAL_COUNT, n);
    FieldRoundTrip(Tail(whole), EVAL_COUNT, n);
  }

  /** The same for "completion_tokens", if the other name does not occur in the last 2048 bytes. */
  lemma CompletionIsChunkIndependent(whole: Bytes, pieces: seq<Bytes>, accepted: nat, n: nat, sse: bool)
    requires Concat(pieces) == whole && |pieces| <= accepted
    requires EndsWithField(whole, Ascii("completion_tokens"), n) && n > 0
    requires forall k | k >= |whole| - 2048 :: !OccursAt(whole, Ascii("\"eval_count\""), k)
    ensures var observed := Concat(Observed(pieces, accepted));
      CountFrom(Tail(observed), Newlines(observed), sse) == n
  {
    KeysAsWritten();
    hide IntField, OccursAt, Tail, Newlines, Observed, Concat, EndsWithField, Holds, Ascii, CountFrom;
    ObservedAll(pieces, accepted);
    TailHoldsField(whole, COMPLETION_TOKENS, n);
    FieldRoundTrip(Tail(whole), COMPLETION_TOKENS, n);
    AbsentFromTail(whole, EVAL_COUNT);
    CountMeans(Tail(whole), Newlines(whole), sse);
  }

  lemma AbsentFromTail(whole: Bytes, key: Bytes)
    requires forall k | k >= |whole| - 2048 :: !OccursAt(whole, [34] + key + [34], k)
    ensures IntField(Tail(whole), key) == None
  {
    var needle := [34] + key + [34];
    TailIsEnd(whole, []);
    assert whole + [] == whole;
    var cut := |whole| - |Tail(whole)|;
    forall k ensures !OccursAt(whole[cut..], needle, k) {
      if OccursAt(whole[cut..], needle, k) { OccursShifted(whole, cut, needle, k); }
    }
    var _, _, _ := FieldStands(Tail(whole), key);
  }

  /**
   Likewise for the latency: if the last 2048 bytes also hold the "eval_duration" field, then for
   every cut, whatever the clock says, it is the largest number of milliseconds that fit into the
   duration for each of the counted tokens, but at least 1.
   */
  lemma LatencyIsChunkIndependent(
    whole: Bytes, pieces: seq<Bytes>, accepted: nat, duration: nat, count: nat, tokens: nat, elapsedMs: nat, n: nat)
    requires Concat(pieces) == whole && |pieces| <= accepted && tokens > 0
    requires EndsWithField(whole, Ascii("eval_duration"), duration) && duration > 0
    requires EndsWithField(whole, Ascii("eval_count"), count) && count > 0
    requires n > 1
    ensures var observed := Observed(pieces, accepted);
      var ms := PerTokenMs(Tail(Concat(observed)), tokens, |observed|, SinceFirstByte(observed, elapsedMs));
      ms >= 1 && (n <= ms <==> n * 1_000_000 * count <= duration)
  {
    KeysAsWritten();
    ObservedAll(pieces, accepted);
    TailHoldsField(whole, EVAL_DURATION, duration);
    TailHoldsField(whole, EVAL_COUNT, count);
    FieldRoundTrip(Tail(whole), EVAL_DURATION, duration);
    FieldRoundTrip(Tail(whole), EVAL_COUNT, count);
    var observed := Observed(pieces, accepted);
    DecodeMsMeaning(Some(duration), Some(count), tokens, |observed|, SinceFirstByte(observed, elapsedMs), n);
  }

  /** A stream yields no latency exactly when it came in one piece or none and reports no duration. */
  lemma NoLatencySignal(pieces: seq<Bytes>, accepted: nat, tokens: nat, elapsedMs: nat)
    requires tokens > 0
    ensures var observed := Observed(pieces, accepted);
      var tail := Tail(Concat(observed));
      PerTokenMs(tail, tokens, |observed|, SinceFirstByte(observed, elapsedMs)) == 0 <==>
        |observed| <= 1 && !Positive(IntField(tail, EVAL_DURATION))
  {
    var observed := Observed(pieces, accepted);
    var tail := Tail(Concat(observed));
    DecodeMsMeaning(IntField(tail, EVAL_DURATION), IntField(tail, EVAL_COUNT), tokens, |observed|,
                    SinceFirstByte(observed, elapsedMs), 2);
  }
}
