// The v1 worker's two ways of answering a request: one question after the other
// with reuse of a shared prefix, or all in one packed cache
// (unridden/api/native/worker.cpp).
module QuestionWorker {
  import opened Common
  import opened Chunks
  import opened KvCache
  import opened Kernels
  import LayerSplit
  import opened SnapshotRuntime
  import StockAnswers

  const MIN_SHARED_PREFIX_TOKENS: nat := 128

  // A question's tokens, and where its shared text ends in them.
  datatype Prepared = Prepared(tokens: seq<Token>, prefix: nat)

  ghost predicate Ready(q: Prepared, context: nat) {
    q.prefix < |q.tokens| <= context && (q.prefix == 0 || MIN_SHARED_PREFIX_TOKENS <= q.prefix)
  }

  datatype EvalError = DecodeRefused | TrimRefused | MemoryDiffers | AccountingChanged | NothingToPrefill | NoLogits

  datatype Answer = Answer(seen: Capture, processed: nat, reused: nat)

  // shared_prefix_tokens: how far the tokenized head and the prompt agree. The
  // last head token may merge with what follows it and never counts.
  method SharedPrefixTokens(head: seq<Token>, tokens: seq<Token>) returns (r: nat)
    requires head != [] && tokens != []
    ensures r < |tokens| && r < |head| && head[..r] == tokens[..r]
    ensures r == 0 || MIN_SHARED_PREFIX_TOKENS <= r
    ensures forall n :: MIN_SHARED_PREFIX_TOKENS <= n < |head| && n < |tokens| && head[..n] == tokens[..n] ==> n <= r
  {
    var limit := (if |head| < |tokens| then |head| else |tokens|) - 1;
    var common := 0;
    while common < limit && head[common] == tokens[common]
      invariant common <= limit && head[..common] == tokens[..common]
    {
      common := common + 1;
    }
    forall n | common < n < |head| && n < |tokens|
      ensures head[..n] != tokens[..n]
    {
      assert head[..n][common] == head[common] && tokens[..n][common] == tokens[common];
    }
    r := if common < MIN_SHARED_PREFIX_TOKENS then 0 else common;
  }

  // -- One question alone -------------------------------------------------------

  function PrefixCells(stock: Range<Token, Column, Capture>, batch: nat, tokens: seq<Token>): Cells
    requires 0 < batch && tokens != []
  {
    Prefill(stock, [], 0, tokens, batch).cells
  }

  // What a request with this question only reads from an empty context.
  function FreshRun(stock: Range<Token, Column, Capture>, batch: nat, q: Prepared): (r: Run<Column, Capture>)
    requires 0 < batch && q.prefix < |q.tokens|
    ensures |r.outs| == |q.tokens| - q.prefix
  {
    if q.prefix == 0 then Prefill(stock, [], 0, q.tokens[q.prefix..], batch)
    else Prefill(stock, PrefixCells(stock, batch, q.tokens[..q.prefix]), q.prefix, q.tokens[q.prefix..], batch)
  }

  function FreshAnswer(stock: Range<Token, Column, Capture>, batch: nat, q: Prepared): Capture
    requires 0 < batch && q.prefix < |q.tokens|
  {
    Last(FreshRun(stock, batch, q).outs)
  }

  // When the kernels are those of an exact causal model, this is what the model reads
  // at the last token of the whole prompt.
  ghost predicate ReadsStock(stock: Range<Token, Column, Capture>, q: Prepared, seen: Capture) {
    forall model: LayerSplit.Model, split: nat ::
      split <= |model.blocks| && stock == LayerSplit.TokensRange(model, model.blocks, split) ==>
        StockAnswers.ReadsLast(model, q.tokens, seen)
  }

  lemma FreshIsStock(stock: Range<Token, Column, Capture>, batch: nat, q: Prepared)
    requires 0 < batch && q.prefix < |q.tokens|
    ensures ReadsStock(stock, q, FreshAnswer(stock, batch, q))
  {
    forall model: LayerSplit.Model, split: nat |
      split <= |model.blocks| && stock == LayerSplit.TokensRange(model, model.blocks, split)
      ensures StockAnswers.ReadsLast(model, q.tokens, FreshAnswer(stock, batch, q))
    {
      FreshReads(stock, batch, q, model, split);
    }
  }

  lemma FreshReads(stock: Range<Token, Column, Capture>, batch: nat, q: Prepared, model: LayerSplit.Model, split: nat)
    requires 0 < batch && q.prefix < |q.tokens|
    requires split <= |model.blocks| && stock == LayerSplit.TokensRange(model, model.blocks, split)
    ensures StockAnswers.ReadsLast(model, q.tokens, FreshAnswer(stock, batch, q))
  {
    hide Prefill, LayerSplit.Holds, StockAnswers.ReadsLast, LayerSplit.TokensRange;
    var head, rest := q.tokens[..q.prefix], q.tokens[q.prefix..];
    assert head + rest == q.tokens && [] + head == head && [] + q.tokens == q.tokens;
    StockAnswers.EmptyHolds(model, split);
    if q.prefix == 0 {
      assert rest == q.tokens;
      StockAnswers.PrefillExact(stock, batch, model, split, [], rest, []);
    } else {
      StockAnswers.PrefillExact(stock, batch, model, split, [], head, []);
      StockAnswers.PrefillExact(stock, batch, model, split, head, rest, PrefixCells(stock, batch, head));
    }
  }

  // The memory of sequence 0 can be trimmed back to the cells of `cached`.
  ghost predicate Cached(stock: Range<Token, Column, Capture>, batch: nat, memory: Cells, cached: seq<Token>)
    requires 0 < batch
  {
    cached != [] ==> Truncate(memory, |cached|) == PrefixCells(stock, batch, cached)
  }

  lemma PrefixHeld(stock: Range<Token, Column, Capture>, batch: nat, tokens: seq<Token>)
    requires 0 < batch && tokens != []
    ensures PosMax(PrefixCells(stock, batch, tokens)) == |tokens| - 1
  {
    hide RunSizes, Truncate;
    assert PosMax<Column>([]) == -1;
    hide PosMax;
    TrimUndoesPrefill(stock, [], 0, tokens, batch, 0);
  }

  // After a question, its prefix is what trimming gives back.
  lemma PrefixStays(stock: Range<Token, Column, Capture>, batch: nat, q: Prepared)
    requires 0 < batch && 0 < q.prefix < |q.tokens|
    ensures Cached(stock, batch, FreshRun(stock, batch, q).cells, q.tokens[..q.prefix])
  {
    hide Prefill, Truncate, PosMax;
    var cells := PrefixCells(stock, batch, q.tokens[..q.prefix]);
    PrefixHeld(stock, batch, q.tokens[..q.prefix]);
    TrimUndoesPrefill(stock, cells, q.prefix, q.tokens[q.prefix..], batch, q.prefix);
  }

  class Evaluator {
    const stock: Range<Token, Column, Capture>
    const batch: nat
    const context: nat
    var memory: Cells

    constructor (stock: Range<Token, Column, Capture>, batch: nat, context: nat, memory: Cells)
      ensures this.stock == stock && this.batch == batch && this.context == context && this.memory == memory
    {
      this.stock, this.batch, this.context, this.memory := stock, batch, context, memory;
    }

    // The prefill lambda: tokens[begin..end) on top of the memory.
    method PrefillMore(tokens: seq<Token>, begin: nat, end: nat) returns (r: Result<seq<Capture>, EvalError>)
      requires 0 < batch && begin < end <= |tokens| && PosMax(memory) == begin - 1
      modifies this
      ensures r.Ok? ==> Run(memory, r.value) == Prefill(stock, old(memory), begin, tokens[begin..end], batch)
      ensures r.Err? ==> r.error == DecodeRefused
    {
      hide RunSizes, Sizes, PosMax;
      var items := tokens[begin..end];
      var split := PrefillChunks(|items|, batch);
      var sizes := split.value;
      SizesSplit(|items|, batch);
      var outs: seq<Capture> := [];
      var offset: nat, i: nat := 0, 0;
      ghost var whole := Prefill(stock, memory, begin, items, batch);
      assert items[0..] == items && sizes[0..] == sizes;
      assert outs + whole.outs == whole.outs;
      while i < |sizes|
        invariant i <= |sizes| && offset <= |items|
        invariant Sum(sizes[i..]) == |items| - offset
        invariant
          var rest := Rest(stock, memory, begin, items, sizes, offset, i);
          Run(rest.cells, outs + rest.outs) == whole
      {
        if * {
          return Err(DecodeRefused);
        }
        RestStep(stock, memory, begin, items, sizes, offset, i, outs);
        var step := Decode(stock, memory, begin + offset, items[offset..offset + sizes[i]]);
        memory, outs := step.cells, outs + step.outs;
        offset, i := offset + sizes[i], i + 1;
      }
      assert sizes[i..] == [] && items[offset..] == [];
      assert outs + [] == outs;
      r := Ok(outs);
    }

    // evaluate_question: reuses the cached prefix when it is this question's own,
    // exactly, and clears the memory otherwise.
    method EvaluateQuestion(q: Prepared, cached: seq<Token>) returns (r: Result<Answer, EvalError>, now: seq<Token>)
      requires 0 < batch && Ready(q, context) && Cached(stock, batch, memory, cached)
      modifies this
      ensures r.Ok? ==> r.value.seen == FreshAnswer(stock, batch, q) && ReadsStock(stock, q, r.value.seen)
      ensures r.Ok? ==> r.value.processed + r.value.reused == |q.tokens|
      ensures r.Ok? ==> r.value.reused == if q.prefix > 0 && cached == q.tokens[..q.prefix] then q.prefix else 0
      ensures r.Ok? ==> now == q.tokens[..q.prefix] && Cached(stock, batch, memory, now)
      ensures r.Err? ==> r.error == DecodeRefused || r.error == TrimRefused
    {
      hide Prefill, Truncate, PosMax, Cached, ReadsStock;
      FreshIsStock(stock, batch, q);
      now := cached;
      var prefix := q.prefix;
      var reuse := prefix > 0 && |now| == prefix && now == q.tokens[..prefix];
      if reuse {
        if * {
          return Err(TrimRefused), now;
        }
        CachedCells(stock, batch, memory, now);
        memory := Truncate(memory, prefix);
        PrefixHeld(stock, batch, now);
      } else {
        memory := [];
        now := [];
        EmptyHeld();
      }
      var held := if reuse then prefix - 1 else -1;
      if PosMax(memory) != held {
        return Err(MemoryDiffers), now;
      }
      var processed := 0;
      if !reuse && prefix > 0 {
        var first := PrefillMore(q.tokens, 0, prefix);
        if first.Err? {
          return Err(first.error), now;
        }
        assert q.tokens[0..prefix] == q.tokens[..prefix];
        processed := processed + |first.value|;
        now := q.tokens[..prefix];
        PrefixHeld(stock, batch, now);
      }
      var rest := PrefillMore(q.tokens, prefix, |q.tokens|);
      if rest.Err? {
        return Err(rest.error), now;
      }
      assert q.tokens[prefix..|q.tokens|] == q.tokens[prefix..];
      processed := processed + |rest.value|;
      if prefix > 0 {
        PrefixStays(stock, batch, q);
      } else {
        assert now == q.tokens[..prefix];
        NothingCached(stock, batch, memory);
      }
      var reused := if reuse then prefix else 0;
      if processed + reused != |q.tokens| {
        return Err(AccountingChanged), now;
      }
      return Ok(Answer(Last(rest.value), processed, reused)), now;
    }

    // The sequential path of a request. No state is carried between requests.
    method EvaluateAll(questions: seq<Prepared>) returns (r: Result<seq<Answer>, EvalError>)
      requires 0 < batch && forall i :: 0 <= i < |questions| ==> Ready(questions[i], context)
      modifies this
      ensures r.Ok? ==> |r.value| == |questions|
      ensures r.Ok? ==> forall i :: 0 <= i < |questions| ==>
          && Ready(questions[i], context) && r.value[i].seen == FreshAnswer(stock, batch, questions[i])
          && ReadsStock(stock, questions[i], r.value[i].seen)
          && r.value[i].processed + r.value[i].reused == |questions[i].tokens|
      ensures r.Err? ==> r.error == DecodeRefused || r.error == TrimRefused
    {
      hide FreshAnswer, Cached, ReadsStock;
      var cached: seq<Token> := [];
      NothingCached(stock, batch, memory);
      var answers: seq<Answer> := [];
      for i := 0 to |questions|
        invariant |answers| == i && Cached(stock, batch, memory, cached)
        invariant forall j :: 0 <= j < i ==>
          && Ready(questions[j], context) && answers[j].seen == FreshAnswer(stock, batch, questions[j])
          && ReadsStock(stock, questions[j], answers[j].seen)
          && answers[j].processed + answers[j].reused == |questions[j].tokens|
      {
        var answer;
        answer, cached := EvaluateQuestion(questions[i], cached);
        if answer.Err? {
          return Err(answer.error);
        }
        answers := answers + [answer.value];
      }
      return Ok(answers);
    }
  }

  lemma CachedCells(stock: Range<Token, Column, Capture>, batch: nat, memory: Cells, cached: seq<Token>)
    requires 0 < batch && Cached(stock, batch, memory, cached) && cached != []
    ensures Truncate(memory, |cached|) == PrefixCells(stock, batch, cached)
  {
  }

  lemma NothingCached(stock: Range<Token, Column, Capture>, batch: nat, memory: Cells)
    requires 0 < batch
    ensures Cached(stock, batch, memory, [])
  {
  }

  lemma EmptyHeld()
    ensures PosMax<Column>([]) == -1
  {
  }
}
