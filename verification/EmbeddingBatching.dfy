/**
 Splitting texts into embedding calls (`src/geek_crawler_rag/embedding_batching.py`): one greedy pass
 under a limit on items and a limit on tokens. `count` is the model's own token count of a text.
 */
module EmbeddingBatching {
  import opened Wrappers
  import opened Sequences

  datatype Batch = Batch(texts: seq<string>, tokenCount: nat)

  datatype Limits = Limits(maxItems: int, maxTokens: int)

  datatype BatchError =
    | LimitsNotPositive
    | InputTooLong(tokens: nat)

  /** What a text counts for: a blank one still counts one token. */
  function Weight(count: string -> nat, text: string): nat {
    if count(text) == 0 then 1 else count(text)
  }

  function Total(count: string -> nat, texts: seq<string>): nat
    decreases |texts|
  {
    if texts == [] then 0 else Total(count, texts[..|texts| - 1]) + Weight(count, texts[|texts| - 1])
  }

  /** `embedding_token_count`: a floor of one for the whole, not for each text. */
  function EmbeddingTokenCount(count: string -> nat, texts: seq<string>): nat {
    var sum := Sum(count, texts);
    if sum == 0 then 1 else sum
  }

  function Sum(count: string -> nat, texts: seq<string>): nat
    decreases |texts|
  {
    if texts == [] then 0 else Sum(count, texts[..|texts| - 1]) + count(texts[|texts| - 1])
  }

  lemma CountOfOne(count: string -> nat, text: string)
    ensures EmbeddingTokenCount(count, [text]) == Weight(count, text)
  {
    assert [text][..0] == [] && Sum(count, [text]) == Sum(count, []) + count(text);
  }

  function Texts(batches: seq<Batch>): seq<seq<string>> {
    seq(|batches|, i requires 0 <= i < |batches| => batches[i].texts)
  }

  predicate Fits(count: string -> nat, limits: Limits, texts: seq<string>) {
    |texts| <= limits.maxItems && Total(count, texts) <= limits.maxTokens
  }

  /** Every part is within the limits. */
  predicate Within(count: string -> nat, limits: Limits, parts: seq<seq<string>>) {
    forall i | 0 <= i < |parts| :: Fits(count, limits, parts[i])
  }

  predicate NonEmpty(parts: seq<seq<string>>) {
    forall i | 0 <= i < |parts| :: parts[i] != []
  }

  /** No part could have taken the first text of the next. */
  predicate Full(count: string -> nat, limits: Limits, parts: seq<seq<string>>)
    requires NonEmpty(parts)
  {
    forall i | 0 <= i < |parts| - 1 :: !Fits(count, limits, parts[i] + [parts[i + 1][0]])
  }

  predicate Counted(count: string -> nat, batches: seq<Batch>) {
    forall i | 0 <= i < |batches| :: batches[i].tokenCount == Total(count, batches[i].texts)
  }

  /** A partition as the greedy pass leaves it. */
  predicate Greedy(count: string -> nat, limits: Limits, parts: seq<seq<string>>, texts: seq<string>) {
    Concat(parts) == texts && Within(count, limits, parts) && NonEmpty(parts) && Full(count, limits, parts)
  }

  lemma TotalStep(count: string -> nat, texts: seq<string>, text: string)
    ensures Total(count, texts + [text]) == Total(count, texts) + Weight(count, text)
  {
    assert (texts + [text])[..|texts|] == texts;
  }

  /** `current` joins the finished parts unless it is empty. */
  function Flushed(parts: seq<seq<string>>, current: seq<string>): seq<seq<string>> {
    if current == [] then parts else parts + [current]
  }

  /** The next text goes into the open batch. */
  lemma GreedyExtend(count: string -> nat, limits: Limits, parts: seq<seq<string>>, current: seq<string>,
                     done: seq<string>, text: string)
    requires Greedy(count, limits, Flushed(parts, current), done)
    requires current == [] ==> parts == []
    requires Fits(count, limits, current + [text])
    ensures Greedy(count, limits, parts + [current + [text]], done + [text])
  {
    ConcatStep(parts, current + [text]);
    ConcatStep(parts, current);
    assert Concat(parts) + (current + [text]) == (Concat(parts) + current) + [text];
    var before, after := Flushed(parts, current), parts + [current + [text]];
    forall i | 0 <= i < |after| - 1 ensures !Fits(count, limits, after[i] + [after[i + 1][0]]) {
      assert before[i] == after[i] && before[i + 1][0] == after[i + 1][0];
    }
  }

  /** The open batch is full: it is closed, and the text opens the next. */
  lemma GreedyOpen(count: string -> nat, limits: Limits, parts: seq<seq<string>>, current: seq<string>,
                   done: seq<string>, text: string)
    requires current != [] && Greedy(count, limits, parts + [current], done)
    requires !Fits(count, limits, current + [text]) && Fits(count, limits, [text])
    ensures Greedy(count, limits, parts + [current] + [[text]], done + [text])
  {
    ConcatStep(parts + [current], [text]);
    var before, after := parts + [current], parts + [current] + [[text]];
    forall i | 0 <= i < |after| - 1 ensures !Fits(count, limits, after[i] + [after[i + 1][0]]) {
      assert before[i] == after[i];
      if i + 1 < |before| {
        assert before[i + 1] == after[i + 1];
      }
    }
  }

  /** The first text too long for any batch, if there is one. */
  function FirstTooLong(count: string -> nat, limits: Limits, texts: seq<string>): Option<string>
    decreases |texts|
  {
    if texts == [] then None
    else if Weight(count, texts[0]) > limits.maxTokens then Some(texts[0])
    else FirstTooLong(count, limits, texts[1..])
  }

  lemma {:induction false} AllShortEnough(count: string -> nat, limits: Limits, texts: seq<string>, k: nat)
    requires k <= |texts| && forall i | 0 <= i < k :: Weight(count, texts[i]) <= limits.maxTokens
    ensures FirstTooLong(count, limits, texts) == FirstTooLong(count, limits, texts[k..])
    decreases k
  {
    if k > 0 {
      AllShortEnough(count, limits, texts, k - 1);
      assert texts[k - 1..][1..] == texts[k..];
    }
  }

  /** The state of the pass: finished batches, the open one, and the texts they hold. */
  predicate Packed(count: string -> nat, limits: Limits, batches: seq<Batch>, current: seq<string>, tokens: nat,
                   done: seq<string>) {
    && (current == [] ==> batches == [] && done == [])
    && tokens == Total(count, current) && Counted(count, batches)
    && Greedy(count, limits, Flushed(Texts(batches), current), done)
  }

  predicate MustClose(limits: Limits, current: seq<string>, currentTokens: nat, tokens: nat) {
    current != [] && (|current| >= limits.maxItems || currentTokens + tokens > limits.maxTokens)
  }

  lemma ClosePacked(count: string -> nat, limits: Limits, batches: seq<Batch>, current: seq<string>, tokens: nat,
                    done: seq<string>, text: string)
    requires Packed(count, limits, batches, current, tokens, done)
    requires limits.maxItems > 0 && Weight(count, text) <= limits.maxTokens
    requires MustClose(limits, current, tokens, Weight(count, text))
    ensures Packed(count, limits, batches + [Batch(current, tokens)], [text], Weight(count, text), done + [text])
  {
    hide Greedy, Total;
    TotalStep(count, current, text);
    WeightOfOne(count, text);
    assert Texts(batches + [Batch(current, tokens)]) == Texts(batches) + [current];
    GreedyOpen(count, limits, Texts(batches), current, done, text);
  }

  lemma ExtendPacked(count: string -> nat, limits: Limits, batches: seq<Batch>, current: seq<string>, tokens: nat,
                     done: seq<string>, text: string)
    requires Packed(count, limits, batches, current, tokens, done)
    requires limits.maxItems > 0 && Weight(count, text) <= limits.maxTokens
    requires !MustClose(limits, current, tokens, Weight(count, text))
    ensures Packed(count, limits, batches, current + [text], tokens + Weight(count, text), done + [text])
  {
    hide Greedy;
    TotalStep(count, current, text);
    GreedyExtend(count, limits, Texts(batches), current, done, text);
  }

  lemma WeightOfOne(count: string -> nat, text: string)
    ensures Total(count, [text]) == Weight(count, text)
  {
    assert [] + [text] == [text];
    TotalStep(count, [], text);
  }

  lemma FinishPacked(count: string -> nat, limits: Limits, batches: seq<Batch>, current: seq<string>, tokens: nat,
                     done: seq<string>)
    requires Packed(count, limits, batches, current, tokens, done)
    ensures var all := if current == [] then batches else batches + [Batch(current, tokens)];
            Greedy(count, limits, Texts(all), done) && Counted(count, all)
  {
    hide Greedy;
    assert Texts(batches + [Batch(current, tokens)]) == Texts(batches) + [current];
  }

  /**
   `partition_embedding_batches`: it fails on limits that are not positive and on the first text too long
   for a batch of its own, and otherwise packs the texts, in order, into full batches.
   */
  method PartitionEmbeddingBatches(count: string -> nat, limits: Limits, texts: seq<string>)
    returns (r: Result<seq<Batch>, BatchError>)
    ensures limits.maxItems <= 0 || limits.maxTokens <= 0 <==> r == Err(LimitsNotPositive)
    ensures limits.maxItems > 0 && limits.maxTokens > 0 ==>
              match FirstTooLong(count, limits, texts)
              case Some(text) => r == Err(InputTooLong(Weight(count, text)))
              case None => r.Ok?
    ensures r.Ok? ==> Greedy(count, limits, Texts(r.value), texts) && Counted(count, r.value)
  {
    hide Greedy, FirstTooLong, EmbeddingTokenCount, Packed, Counted, Texts, Weight;
    if limits.maxItems <= 0 || limits.maxTokens <= 0 {
      return Err(LimitsNotPositive);
    }
    var batches: seq<Batch> := [];
    var current: seq<string> := [];
    var currentTokens: nat := 0;
    NothingIsPacked(count, limits);
    assert texts[..0] == [];
    for k := 0 to |texts|
      invariant Packed(count, limits, batches, current, currentTokens, texts[..k])
      invariant forall i | 0 <= i < k :: Weight(count, texts[i]) <= limits.maxTokens
    {
      var text := texts[k];
      var tokens: nat := EmbeddingTokenCount(count, [text]);
      CountOfOne(count, text);
      if tokens > limits.maxTokens {
        AllShortEnough(count, limits, texts, k);
        TooLongHere(count, limits, texts, k);
        return Err(InputTooLong(tokens));
      }
      assert texts[..k + 1] == texts[..k] + [text];
      if current != [] && (|current| >= limits.maxItems || currentTokens + tokens > limits.maxTokens) {
        ClosePacked(count, limits, batches, current, currentTokens, texts[..k], text);
        batches := batches + [Batch(current, currentTokens)];
        current, currentTokens := [], 0;
      } else {
        ExtendPacked(count, limits, batches, current, currentTokens, texts[..k], text);
      }
      assert [] + [text] == [text];
      current := current + [text];
      currentTokens := currentTokens + tokens;
    }
    assert texts[..|texts|] == texts && texts[|texts|..] == [];
    AllShortEnough(count, limits, texts, |texts|);
    NoneTooLong(count, limits);
    FinishPacked(count, limits, batches, current, currentTokens, texts);
    if current != [] {
      batches := batches + [Batch(current, currentTokens)];
    }
    return Ok(batches);
  }

  lemma NothingIsPacked(count: string -> nat, limits: Limits)
    ensures Packed(count, limits, [], [], 0, [])
  {
  }

  lemma TooLongHere(count: string -> nat, limits: Limits, texts: seq<string>, k: nat)
    requires k < |texts| && Weight(count, texts[k]) > limits.maxTokens
    ensures FirstTooLong(count, limits, texts[k..]) == Some(texts[k])
  {
  }

  lemma NoneTooLong(count: string -> nat, limits: Limits)
    ensures FirstTooLong(count, limits, []) == None
  {
  }

  // ---- Optimality ----

  lemma {:induction false} TotalAppend(count: string -> nat, a: seq<string>, b: seq<string>)
    ensures Total(count, a + b) == Total(count, a) + Total(count, b)
    decreases |b|
  {
    if b == [] {
      assert a + b == a;
    } else {
      assert (a + b)[..|a + b| - 1] == a + b[..|b| - 1];
      TotalAppend(count, a, b[..|b| - 1]);
    }
  }

  /** A contiguous piece of something that fits, fits. */
  lemma PieceFits(count: string -> nat, limits: Limits, texts: seq<string>, i: nat, j: nat)
    requires i <= j <= |texts| && Fits(count, limits, texts)
    ensures Fits(count, limits, texts[i..j])
  {
    assert texts == texts[..i] + (texts[i..j] + texts[j..]);
    TotalAppend(count, texts[..i], texts[i..j] + texts[j..]);
    TotalAppend(count, texts[i..j], texts[j..]);
  }

  /** How many texts the first `n` parts hold. */
  function Reach(parts: seq<seq<string>>, n: nat): nat
    requires n <= |parts|
  {
    |Concat(parts[..n])|
  }

  lemma {:induction false} ConcatSplit(parts: seq<seq<string>>, n: nat)
    requires n <= |parts|
    ensures Concat(parts[..n]) <= Concat(parts)
    decreases |parts| - n
  {
    if n < |parts| {
      ConcatSplit(parts, n + 1);
      assert parts[..n + 1][..n] == parts[..n];
    } else {
      assert parts[..n] == parts;
    }
  }

  /** Part `n` is the stretch of the texts between what the parts up to it and with it hold. */
  lemma PartIsStretch(parts: seq<seq<string>>, n: nat)
    requires n < |parts|
    ensures Reach(parts, n) <= Reach(parts, n + 1) <= |Concat(parts)|
    ensures parts[n] == Concat(parts)[Reach(parts, n)..Reach(parts, n + 1)]
  {
    ConcatSplit(parts, n + 1);
    assert parts[..n + 1][..n] == parts[..n];
    assert Concat(parts[..n + 1]) == Concat(parts[..n]) + parts[n];
  }

  /** After any number of batches the greedy pass has got at least as far as any other partition. */
  lemma {:induction false} StaysAhead(count: string -> nat, limits: Limits, greedy: seq<seq<string>>,
                                      other: seq<seq<string>>, texts: seq<string>, n: nat)
    requires Greedy(count, limits, greedy, texts) && Concat(other) == texts && Within(count, limits, other)
    requires n <= |greedy| && n <= |other|
    ensures Reach(greedy, n) >= Reach(other, n)
    decreases n
  {
    if n > 0 {
      StaysAhead(count, limits, greedy, other, texts, n - 1);
      PartIsStretch(greedy, n - 1);
      PartIsStretch(other, n - 1);
      if n == |greedy| {
        assert greedy[..n] == greedy;
      } else {
        CannotOvertake(count, limits, greedy, other, texts, n);
      }
    }
  }

  /** A greedy batch and the text after it do not fit together. */
  lemma OneMoreIsTooMuch(count: string -> nat, limits: Limits, greedy: seq<seq<string>>, texts: seq<string>, n: nat)
    requires Greedy(count, limits, greedy, texts) && 0 < n < |greedy|
    ensures Reach(greedy, n - 1) < Reach(greedy, n) < |texts|
    ensures !Fits(count, limits, texts[Reach(greedy, n - 1)..Reach(greedy, n) + 1])
  {
    hide Fits, Concat;
    PartIsStretch(greedy, n - 1);
    PartIsStretch(greedy, n);
    var a, b := Reach(greedy, n - 1), Reach(greedy, n);
    assert greedy[n][0] == texts[b];
    assert texts[a..b + 1] == greedy[n - 1] + [greedy[n][0]];
    assert !Fits(count, limits, greedy[n - 1] + [greedy[n - 1 + 1][0]]);
  }

  /** Whatever lies within one part fits. */
  lemma WithinAPart(count: string -> nat, limits: Limits, parts: seq<seq<string>>, n: nat, i: nat, j: nat)
    requires Within(count, limits, parts) && n < |parts|
    requires Reach(parts, n) <= i <= j <= Reach(parts, n + 1)
    ensures j <= |Concat(parts)| && Fits(count, limits, Concat(parts)[i..j])
  {
    hide Fits, Concat;
    PartIsStretch(parts, n);
    var x := Reach(parts, n);
    PieceFits(count, limits, parts[n], i - x, j - x);
    SliceOfSlice(Concat(parts), x, Reach(parts, n + 1), i, j);
  }

  lemma SliceOfSlice(s: seq<string>, x: nat, y: nat, i: nat, j: nat)
    requires x <= i <= j <= y <= |s|
    ensures s[x..y][i - x..j - x] == s[i..j]
  {
    forall k | 0 <= k < j - i ensures s[x..y][i - x..j - x][k] == s[i..j][k] {
      assert s[x..y][i - x + k] == s[i + k];
    }
  }

  lemma CannotOvertake(count: string -> nat, limits: Limits, greedy: seq<seq<string>>, other: seq<seq<string>>,
                       texts: seq<string>, n: nat)
    requires Greedy(count, limits, greedy, texts) && Concat(other) == texts && Within(count, limits, other)
    requires 0 < n < |greedy| && n <= |other| && Reach(greedy, n - 1) >= Reach(other, n - 1)
    ensures Reach(greedy, n) >= Reach(other, n)
  {
    hide Fits, Concat, Reach;
    OneMoreIsTooMuch(count, limits, greedy, texts, n);
    if Reach(greedy, n) < Reach(other, n) {
      WithinAPart(count, limits, other, n - 1, Reach(greedy, n - 1), Reach(greedy, n) + 1);
    }
  }

  /** No other way of cutting the texts into batches within the limits, in order, needs fewer. */
  lemma GreedyIsOptimal(count: string -> nat, limits: Limits, greedy: seq<seq<string>>, other: seq<seq<string>>,
                        texts: seq<string>)
    requires Greedy(count, limits, greedy, texts) && Concat(other) == texts && Within(count, limits, other)
    ensures |greedy| <= |other|
  {
    assert other[..|other|] == other;
    if |greedy| > |other| {
      PartIsStretch(greedy, |other|);
      StaysAhead(count, limits, greedy, other, texts, |other|);
    }
  }
}
