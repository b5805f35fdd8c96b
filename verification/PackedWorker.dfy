// The batched evaluation of the v1 worker over the packed cache
// (unridden/api/native/worker.cpp).
module PackedWorker {
  import opened Common
  import opened Chunks
  import opened Kernels
  import LayerSplit
  import opened QuestionWorker
  import opened PackedCache
  import StockAnswers

  // One slot of a decode batch.
  datatype Slot = Slot(token: Token, pos: nat, sequence: nat, wanted: bool)

  // Which cells a decoded token saw, and whether its logits were wanted.
  datatype Look = Look(question: nat, position: nat, view: seq<Seen>, wanted: bool)

  // Logits of one slot: a function of what it sees and of the batch it is in.
  type Reader = (seq<Seen>, seq<Slot>, nat) -> Logits

  datatype PackedAnswer = PackedAnswer(logits: Logits, processed: nat, reused: nat)

  function PlacedSlots(slots: seq<Slot>): (r: seq<Placed>)
    ensures |r| == |slots|
  {
    seq(|slots|, s requires 0 <= s < |slots| => Placed(slots[s].pos, slots[s].token, {slots[s].sequence}))
  }

  function LooksOf(cells: seq<Placed>, slots: seq<Slot>): (r: seq<Look>)
    ensures |r| == |slots|
  {
    seq(|slots|, s requires 0 <= s < |slots| =>
      Look(slots[s].sequence, slots[s].pos, View(cells, slots[s].sequence, slots[s].pos), slots[s].wanted))
  }

  function SlotOf(qs: seq<Prepared>, item: Item): Slot
    requires item.question < |qs| && item.position < |qs[item.question].tokens|
  {
    var tokens := qs[item.question].tokens;
    Slot(tokens[item.position], item.position, item.question, item.position + 1 == |tokens|)
  }

  // -- The shared prefix of a request ---------------------------------------------------

  // batched_prefix_tokens: the longest prefix all questions share, no longer than
  // any of their own splits, and long enough to be worth it.
  method BatchedPrefixTokens(qs: seq<Prepared>) returns (prefix: nat)
    requires qs != [] && forall i :: 0 <= i < |qs| ==> qs[i].prefix < |qs[i].tokens|
    ensures Shares(qs, prefix) && (prefix == 0 || MIN_SHARED_PREFIX_TOKENS <= prefix)
    ensures forall i :: 0 <= i < |qs| ==> prefix <= qs[i].prefix
    ensures forall n: nat :: MIN_SHARED_PREFIX_TOKENS <= n && InCommon(qs, n) ==> n <= prefix
  {
    prefix := qs[0].prefix;
    for i := 0 to |qs|
      invariant prefix <= qs[0].prefix && forall j :: 0 <= j < i ==> prefix <= qs[j].prefix
      invariant forall n: nat :: InCommon(qs, n) ==> n <= prefix
    {
      if qs[i].prefix < prefix {
        prefix := qs[i].prefix;
      }
    }
    var index := 1;
    while index < |qs| && prefix > 0
      invariant 1 <= index <= |qs|
      invariant forall j :: 0 <= j < |qs| ==> prefix <= qs[j].prefix
      invariant forall j :: 0 <= j < index ==> qs[j].tokens[..prefix] == qs[0].tokens[..prefix]
      invariant forall n: nat :: InCommon(qs, n) ==> n <= prefix
    {
      prefix := CommonTokens(qs, index, prefix);
      index := index + 1;
    }
    if prefix < MIN_SHARED_PREFIX_TOKENS {
      prefix := 0;
    }
  }

  // n tokens are shared by all, within every question's own split.
  ghost predicate InCommon(qs: seq<Prepared>, n: nat)
    requires qs != [] && forall i :: 0 <= i < |qs| ==> qs[i].prefix < |qs[i].tokens|
  {
    && (forall i :: 0 <= i < |qs| ==> n <= qs[i].prefix)
    && (forall i :: 0 <= i < |qs| ==> qs[i].tokens[..n] == qs[0].tokens[..n])
  }

  // How far question `index` agrees with the first, at most `limit`.
  method CommonTokens(qs: seq<Prepared>, index: nat, limit: nat) returns (common: nat)
    requires 0 < index < |qs| && forall i :: 0 <= i < |qs| ==> qs[i].prefix < |qs[i].tokens|
    requires forall j :: 0 <= j < |qs| ==> limit <= qs[j].prefix
    requires forall j :: 0 <= j < index ==> qs[j].tokens[..limit] == qs[0].tokens[..limit]
    requires forall n: nat :: InCommon(qs, n) ==> n <= limit
    ensures common <= limit && forall j :: 0 <= j < |qs| ==> common <= qs[j].prefix
    ensures forall j :: 0 <= j < index + 1 ==> qs[j].tokens[..common] == qs[0].tokens[..common]
    ensures forall n: nat :: InCommon(qs, n) ==> n <= common
  {
    var first, other := qs[0].tokens, qs[index].tokens;
    common := 0;
    while common < limit && first[common] == other[common]
      invariant common <= limit && first[..common] == other[..common]
    {
      common := common + 1;
    }
    forall j | 0 <= j < index
      ensures qs[j].tokens[..common] == first[..common]
    {
      assert qs[j].tokens[..common] == qs[j].tokens[..limit][..common];
      assert first[..common] == first[..limit][..common];
    }
    forall n | common < n <= limit
      ensures first[..n] != other[..n]
    {
      assert first[..n][common] == first[common] && other[..n][common] == other[common];
    }
  }

  // batched_cell_count
  method BatchedCellCount(qs: seq<Prepared>, prefix: nat) returns (cells: nat)
    requires forall j :: 0 <= j < |qs| ==> prefix < |qs[j].tokens|
    ensures cells == prefix + Start(qs, prefix, |qs|)
  {
    cells := prefix;
    for i := 0 to |qs|
      invariant cells == prefix + Start(qs, prefix, i)
    {
      cells := cells + |qs[i].tokens| - prefix;
    }
  }

  // -- What the evaluation did ------------------------------------------------------------

  // Every token of the request was decoded once: the shared prefix for question 0,
  // then each remainder for its own question. Each saw exactly its question's
  // prompt up to itself; logits were wanted at each question's last token only.
  ghost predicate Isolated(qs: seq<Prepared>, prefix: nat, pending: seq<Item>, looks: seq<Look>, k: nat)
    requires Shares(qs, prefix) && Remainders(qs, prefix, pending, |qs|) && k <= |pending|
  {
    && |looks| == prefix + k
    && (forall m :: 0 <= m < prefix ==> looks[m] == Look(0, m, Prompt(qs[0].tokens)[..m + 1], false))
    && (forall m :: 0 <= m < k ==> LookRight(qs, prefix, pending, looks, m))
  }

  ghost predicate LookRight(qs: seq<Prepared>, prefix: nat, pending: seq<Item>, looks: seq<Look>, m: nat)
    requires Shares(qs, prefix) && Remainders(qs, prefix, pending, |qs|) && m < |pending| && prefix + m < |looks|
  {
    RemainderAt(qs, prefix, pending[m], m, |qs|) && looks[prefix + m] == LookOf(qs, pending[m])
  }

  function LookOf(qs: seq<Prepared>, item: Item): Look
    requires item.question < |qs| && item.position < |qs[item.question].tokens|
  {
    var tokens := qs[item.question].tokens;
    Look(item.question, item.position, Prompt(tokens)[..item.position + 1], item.position + 1 == |tokens|)
  }

  // The logits are those of the question's last token, which saw its whole prompt.
  ghost predicate ReadAtLast(read: Reader, q: Prepared, i: nat, logits: Logits) {
    exists slots: seq<Slot>, s: nat :: s < |slots| && ReadFrom(read, q, i, logits, slots, s)
  }

  ghost predicate ReadFrom(read: Reader, q: Prepared, i: nat, logits: Logits, slots: seq<Slot>, s: nat)
    requires s < |slots|
  {
    && q.tokens != [] && slots[s] == Slot(q.tokens[|q.tokens| - 1], |q.tokens| - 1, i, true)
    && logits == read(Prompt(q.tokens), slots, s)
  }

  // The rows after the first k remainders: those of the finished questions.
  ghost predicate RowsRead(read: Reader, qs: seq<Prepared>, prefix: nat, rows: seq<Option<Logits>>, k: nat)
    requires forall j :: 0 <= j < |qs| ==> prefix < |qs[j].tokens|
  {
    && |rows| == |qs|
    && forall i :: 0 <= i < |qs| ==>
      if Reached(qs, prefix, i, k) == |qs[i].tokens| then rows[i].Some? && ReadAtLast(read, qs[i], i, rows[i].value)
      else rows[i] == None
  }

  // The processed counts after the first k remainders.
  ghost predicate Processed(qs: seq<Prepared>, prefix: nat, processed: seq<nat>, k: nat)
    requires forall j :: 0 <= j < |qs| ==> prefix < |qs[j].tokens|
  {
    && |processed| == |qs|
    && forall i :: 0 <= i < |qs| ==> processed[i] == Reached(qs, prefix, i, k) - if i == 0 then 0 else prefix
  }

  class PackedContext {
    const batch: nat
    const read: Reader
    var cells: seq<Placed>
    ghost var looks: seq<Look>

    constructor (batch: nat, read: Reader)
      ensures this.batch == batch && this.read == read
    {
      this.batch, this.read := batch, read;
      cells, looks := [], [];
    }

    // One llama_decode: all slots are stored, then each sees what its sequence
    // holds up to its position.
    method Decode(slots: seq<Slot>) returns (ok: bool)
      modifies this
      ensures ok ==> cells == old(cells) + PlacedSlots(slots) && looks == old(looks) + LooksOf(cells, slots)
    {
      if * {
        return false;
      }
      cells := cells + PlacedSlots(slots);
      looks := looks + LooksOf(cells, slots);
      ok := true;
    }

    // The shared prefix, decoded for sequence 0 in the batches of prefill_chunks.
    method DecodePrefix(qs: seq<Prepared>, prefix: nat) returns (ok: bool)
      requires 0 < batch && 0 < prefix && Shares(qs, prefix) && cells == [] && looks == []
      modifies this
      ensures ok ==> |cells| == prefix && Own(cells, 0) == Prompt(qs[0].tokens)[..prefix]
      ensures ok ==> forall c :: c in cells ==> c.tags == {0}
      ensures ok ==> |looks| == prefix
      ensures ok ==> forall m :: 0 <= m < prefix ==> looks[m] == Look(0, m, Prompt(qs[0].tokens)[..m + 1], false)
    {
      hide Own, Sizes, View, UpTo;
      var tokens := qs[0].tokens;
      var split := PrefillChunks(prefix, batch);
      var sizes := split.value;
      SizesSplit(prefix, batch);
      var offset: nat, i: nat := 0, 0;
      assert sizes[0..] == sizes;
      NothingOwned();
      while i < |sizes|
        invariant i <= |sizes| && offset <= prefix && Sum(sizes[i..]) == prefix - offset
        invariant PrefixDone(tokens, cells, looks, offset)
      {
        assert sizes[i..][1..] == sizes[i + 1..];
        var chunk := sizes[i];
        var slots := seq(chunk, s requires 0 <= s < chunk => Slot(tokens[offset + s], offset + s, 0, false));
        ghost var before, seen := cells, looks;
        var decoded := Decode(slots);
        if !decoded {
          return false;
        }
        PrefixNext(tokens, before, seen, cells, looks, offset, slots);
        offset, i := offset + chunk, i + 1;
      }
      assert sizes[i..] == [];
      ok := true;
    }

    // seq_cp to every other question.
    method CopyPrefix(qs: seq<Prepared>, prefix: nat)
      requires Shares(qs, prefix) && |cells| == prefix && Own(cells, 0) == Prompt(qs[0].tokens)[..prefix]
      requires forall c :: c in cells ==> c.tags == {0}
      modifies this`cells
      ensures |cells| == prefix && forall i :: 0 <= i < |qs| ==> Own(cells, i) == Prompt(qs[i].tokens)[..prefix]
    {
      hide Own, Prompt, CopyTag;
      for s := 1 to |qs|
        invariant |cells| == prefix
        invariant forall c, tag :: c in cells && tag in c.tags ==> tag < s
        invariant forall i :: 0 <= i < s ==> Own(cells, i) == Prompt(qs[0].tokens)[..prefix]
      {
        TagsCopied(cells, s);
        forall i | 0 <= i < s + 1
          ensures Own(CopyTag(cells, s), i) == Prompt(qs[0].tokens)[..prefix]
        {
          CopiedOwn(cells, s, i);
        }
        cells := CopyTag(cells, s);
      }
      forall i | 0 <= i < |qs|
        ensures Prompt(qs[i].tokens)[..prefix] == Prompt(qs[0].tokens)[..prefix]
      {
        SamePrompt(qs[i].tokens, qs[0].tokens, prefix);
      }
    }

    // Fills the batch with remainders begin..end and counts them.
    method FillBatch(qs: seq<Prepared>, prefix: nat, pending: seq<Item>, begin: nat, end: nat,
        slots: array<Option<Slot>>, counts: seq<nat>)
      returns (processed: seq<nat>)
      requires Shares(qs, prefix) && Remainders(qs, prefix, pending, |qs|) && begin <= end <= |pending|
      requires end - begin <= slots.Length
      requires Processed(qs, prefix, counts, begin)
      modifies slots
      ensures Processed(qs, prefix, processed, end)
      ensures Filled(qs, prefix, pending, slots[..end - begin], begin)
    {
      hide Reached, Start;
      processed := counts;
      for index := begin to end
        invariant Processed(qs, prefix, processed, index)
        invariant Filled(qs, prefix, pending, slots[..index - begin], begin)
      {
        var item := pending[index];
        assert RemainderAt(qs, prefix, item, index, |qs|);
        CountNext(qs, prefix, pending, processed, index);
        slots[index - begin] := Some(SlotOf(qs, item));
        assert slots[..index - begin + 1] == slots[..index - begin] + [Some(SlotOf(qs, item))];
        processed := processed[item.question := processed[item.question] + 1];
      }
    }

    // One batch of remainders: fill, decode, read.
    method Turn(qs: seq<Prepared>, prefix: nat, pending: seq<Item>, begin: nat, end: nat, slots: array<Option<Slot>>,
        counts: seq<nat>, before: seq<Option<Logits>>)
      returns (ok: bool, processed: seq<nat>, rows: seq<Option<Logits>>)
      requires Shares(qs, prefix) && Remainders(qs, prefix, pending, |qs|) && begin <= end <= |pending|
      requires end - begin <= slots.Length
      requires Packed(qs, prefix, cells, begin) && Isolated(qs, prefix, pending, looks, begin)
      requires Processed(qs, prefix, counts, begin) && RowsRead(read, qs, prefix, before, begin)
      modifies this, slots
      ensures ok ==> Packed(qs, prefix, cells, end) && Isolated(qs, prefix, pending, looks, end)
      ensures ok ==> Processed(qs, prefix, processed, end) && RowsRead(read, qs, prefix, rows, end)
    {
      hide Remainders, Packed, Isolated, Processed, RowsRead, Filled, BatchOf, Shares;
      rows := before;
      processed := FillBatch(qs, prefix, pending, begin, end, slots, counts);
      FilledAll(qs, prefix, pending, slots[..end - begin], begin);
      var batchSlots := SlotsIn(slots[..end - begin]);
      ghost var was, seen := cells, looks;
      ok := Decode(batchSlots);
      if !ok {
        return;
      }
      BatchPacked(qs, prefix, pending, was, begin, batchSlots);
      BatchLooks(qs, prefix, pending, cells, seen, begin, batchSlots);
      for index := begin to end
        invariant RowsRead(read, qs, prefix, rows, index)
        invariant ok && Packed(qs, prefix, cells, end) && Isolated(qs, prefix, pending, looks, end)
        invariant Processed(qs, prefix, processed, end)
      {
        var slot := batchSlots[index - begin];
        SlotIs(qs, prefix, pending, batchSlots, begin, index);
        RowNext(read, qs, prefix, pending, rows, cells, begin, index, batchSlots);
        if slot.wanted {
          rows := rows[slot.sequence := Some(read(View(cells, slot.sequence, slot.pos), batchSlots, index - begin))];
        }
      }
    }

    // evaluate_batched
    method EvaluateBatched(qs: seq<Prepared>, prefix: nat)
      returns (r: Result<seq<PackedAnswer>, EvalError>, ghost items: seq<Item>)
      requires 0 < batch && Shares(qs, prefix)
      modifies this
      ensures Remainders(qs, prefix, items, |qs|)
      ensures r.Ok? ==> Isolated(qs, prefix, items, looks, |items|) && |cells| == prefix + |items|
      ensures r.Ok? ==> |r.value| == |qs| && forall i :: 0 <= i < |qs| ==> AnswerRight(read, qs, prefix, r.value[i], i)
      ensures r.Ok? ==> forall i :: 0 <= i < |qs| ==> SaysStock(read, qs[i], r.value[i].logits)
      ensures r.Err? ==> r.error == DecodeRefused
    {
      hide Remainders, Packed, Isolated, Processed, RowsRead, Start, Shares, AnswerRight, SaysStock;
      cells, looks := [], [];
      var pending := Pending(qs, prefix);
      items := pending;
      if prefix > 0 {
        SharesFacts(qs, prefix);
        var ok := DecodePrefix(qs, prefix);
        if !ok {
          return Err(DecodeRefused), items;
        }
        CopyPrefix(qs, prefix);
      }
      PackedStart(qs, prefix, pending, cells, looks);
      if pending == [] {
        return Err(NothingToPrefill), items;
      }
      r := DecodeRemainders(qs, prefix, pending);
      if r.Ok? {
        forall i | 0 <= i < |qs|
          ensures SaysStock(read, qs[i], r.value[i].logits)
        {
          PackedIsStock(read, qs, prefix, r.value[i], i);
        }
      }
    }

    method DecodeRemainders(qs: seq<Prepared>, prefix: nat, pending: seq<Item>)
      returns (r: Result<seq<PackedAnswer>, EvalError>)
      requires 0 < batch && Shares(qs, prefix) && Remainders(qs, prefix, pending, |qs|)
      requires Packed(qs, prefix, cells, 0) && Isolated(qs, prefix, pending, looks, 0)
      modifies this
      ensures r.Ok? ==> Isolated(qs, prefix, pending, looks, |pending|) && |cells| == prefix + |pending|
      ensures r.Ok? ==> |r.value| == |qs| && forall i :: 0 <= i < |qs| ==> AnswerRight(read, qs, prefix, r.value[i], i)
      ensures r.Err? ==> r.error == DecodeRefused
    {
      hide Remainders, Packed, Isolated, Processed, RowsRead, Start, Shares, AnswerRight;
      var rows: seq<Option<Logits>> := seq(|qs|, _ => None);
      var processed: seq<nat> := seq(|qs|, i => if i == 0 then prefix else 0);
      RowsStart(read, qs, prefix, rows);
      CountsStart(qs, prefix, processed);
      var slots := new Option<Slot>[batch];
      var begin: nat := 0;
      while begin < |pending|
        invariant begin <= |pending| && fresh(slots)
        invariant Packed(qs, prefix, cells, begin) && Isolated(qs, prefix, pending, looks, begin)
        invariant Processed(qs, prefix, processed, begin) && RowsRead(read, qs, prefix, rows, begin)
      {
        var end := if |pending| < begin + batch then |pending| else begin + batch;
        var ok;
        ok, processed, rows := Turn(qs, prefix, pending, begin, end, slots, processed, rows);
        if !ok {
          return Err(DecodeRefused);
        }
        begin := end;
      }
      r := Collect(qs, prefix, pending, processed, rows);
    }

    // The last loop: every check passes.
    method Collect(qs: seq<Prepared>, prefix: nat, pending: seq<Item>, processed: seq<nat>, rows: seq<Option<Logits>>)
      returns (r: Result<seq<PackedAnswer>, EvalError>)
      requires Shares(qs, prefix) && Remainders(qs, prefix, pending, |qs|) && Packed(qs, prefix, cells, |pending|)
      requires Processed(qs, prefix, processed, |pending|) && RowsRead(read, qs, prefix, rows, |pending|)
      ensures r.Ok? && |cells| == prefix + |pending|
      ensures |r.value| == |qs| && forall i :: 0 <= i < |qs| ==> AnswerRight(read, qs, prefix, r.value[i], i)
    {
      hide Remainders, Packed, Processed, RowsRead, Start, Shares, AnswerRight, Own, HighestPos;
      var answers: seq<PackedAnswer> := [];
      AllPacked(qs, prefix, cells, |pending|);
      for index := 0 to |qs|
        invariant |answers| == index && forall i :: 0 <= i < index ==> AnswerRight(read, qs, prefix, answers[i], i)
      {
        Finished(read, qs, prefix, pending, cells, processed, rows, index);
        if rows[index].None? {
          return Err(NoLogits);
        }
        if HighestPos(Own(cells, index)) != |qs[index].tokens| - 1 {
          return Err(MemoryDiffers);
        }
        var reused := if index == 0 then 0 else prefix;
        if processed[index] + reused != |qs[index].tokens| {
          return Err(AccountingChanged);
        }
        answers := answers + [PackedAnswer(rows[index].value, processed[index], reused)];
      }
      r := Ok(answers);
    }
  }

  // Question i's answer: read at its last token, and its tokens accounted for.
  ghost predicate AnswerRight(read: Reader, qs: seq<Prepared>, prefix: nat, a: PackedAnswer, i: nat)
    requires i < |qs|
  {
    && ReadAtLast(read, qs[i], i, a.logits)
    && a.reused == (if i == 0 then 0 else prefix) && a.processed + a.reused == |qs[i].tokens|
  }

  // An exact causal reader: the logits of a token that sees exactly a prompt are those
  // of `model` after it, whatever else is in its batch.
  ghost predicate CausalReader(read: Reader, model: LayerSplit.Model) {
    forall tokens: seq<Token>, slots: seq<Slot>, s: nat :: tokens != [] && s < |slots| ==>
      read(Prompt(tokens), slots, s) == StockAnswers.StockLogits(model, tokens)
  }

  ghost predicate SaysStock(read: Reader, q: Prepared, logits: Logits) {
    q.tokens != [] && forall model: LayerSplit.Model :: CausalReader(read, model) ==>
      logits == StockAnswers.StockLogits(model, q.tokens)
  }

  // So each packed answer is the uninterrupted model's to its own whole prompt.
  lemma PackedIsStock(read: Reader, qs: seq<Prepared>, prefix: nat, a: PackedAnswer, i: nat)
    requires i < |qs| && AnswerRight(read, qs, prefix, a, i)
    ensures SaysStock(read, qs[i], a.logits)
  {
    hide Prompt, StockAnswers.StockLogits;
    var slots: seq<Slot>, s: nat :| s < |slots| && ReadFrom(read, qs[i], i, a.logits, slots, s);
  }

  // -- The prefix ------------------------------------------------------------------------

  ghost predicate PrefixDone(tokens: seq<Token>, cells: seq<Placed>, looks: seq<Look>, n: nat) {
    && n <= |tokens| && |cells| == n && |looks| == n && Own(cells, 0) == Prompt(tokens)[..n]
    && (forall c :: c in cells ==> c.tags == {0})
    && (forall m :: 0 <= m < n ==> looks[m] == Look(0, m, Prompt(tokens)[..m + 1], false))
  }

  lemma NothingOwned()
    ensures Own([], 0) == []
  {
  }

  lemma {:induction false} PrefixOwn(tokens: seq<Token>, cells: seq<Placed>, offset: nat, slots: seq<Slot>)
    requires offset + |slots| <= |tokens| && Own(cells, 0) == Prompt(tokens)[..offset]
    requires forall s :: 0 <= s < |slots| ==> slots[s] == Slot(tokens[offset + s], offset + s, 0, false)
    ensures Own(cells + PlacedSlots(slots), 0) == Prompt(tokens)[..offset + |slots|]
    decreases |slots|
  {
    hide Own;
    if slots == [] {
      assert cells + PlacedSlots(slots) == cells;
    } else {
      var n := |slots| - 1;
      PrefixOwn(tokens, cells, offset, slots[..n]);
      var last := PlacedSlots(slots)[n];
      assert cells + PlacedSlots(slots) == cells + PlacedSlots(slots[..n]) + [last];
      OwnAppend(cells + PlacedSlots(slots[..n]), last, 0);
      PromptNext(tokens, offset + n);
    }
  }

  lemma PrefixNext(tokens: seq<Token>, before: seq<Placed>, seen: seq<Look>, cells: seq<Placed>, looks: seq<Look>,
      offset: nat, slots: seq<Slot>)
    requires PrefixDone(tokens, before, seen, offset) && offset + |slots| <= |tokens|
    requires forall s :: 0 <= s < |slots| ==> slots[s] == Slot(tokens[offset + s], offset + s, 0, false)
    requires cells == before + PlacedSlots(slots) && looks == seen + LooksOf(cells, slots)
    ensures PrefixDone(tokens, cells, looks, offset + |slots|)
  {
    hide Own, Prompt, View;
    PrefixOwn(tokens, before, offset, slots);
    forall m | 0 <= m < offset + |slots|
      ensures looks[m] == Look(0, m, Prompt(tokens)[..m + 1], false)
    {
      if m >= offset {
        ViewIsPrompt(cells, 0, tokens, offset + |slots|, m);
        assert looks[m] == LooksOf(cells, slots)[m - offset];
      } else {
        assert looks[m] == seen[m];
      }
    }
  }

  lemma TagsCopied(cells: seq<Placed>, s: nat)
    requires forall c, tag :: c in cells && tag in c.tags ==> tag < s
    ensures forall c, tag :: c in CopyTag(cells, s) && tag in c.tags ==> tag < s + 1
    ensures forall j :: 0 <= j < |cells| ==> s !in cells[j].tags
  {
    forall j | 0 <= j < |cells|
      ensures s !in cells[j].tags
    {
      assert cells[j] in cells;
    }
    forall c, tag | c in CopyTag(cells, s) && tag in c.tags
      ensures tag < s + 1
    {
      var j :| 0 <= j < |cells| && CopyTag(cells, s)[j] == c;
      assert cells[j] in cells;
    }
  }

  lemma SamePrompt(a: seq<Token>, b: seq<Token>, n: nat)
    requires n <= |a| && n <= |b| && a[..n] == b[..n]
    ensures Prompt(a)[..n] == Prompt(b)[..n]
  {
    forall p | 0 <= p < n
      ensures Prompt(a)[..n][p] == Prompt(b)[..n][p]
    {
      assert a[..n][p] == b[..n][p];
    }
  }

  lemma SharesFacts(qs: seq<Prepared>, prefix: nat)
    requires Shares(qs, prefix)
    ensures qs != [] && forall i :: 0 <= i < |qs| ==> prefix < |qs[i].tokens|
  {
  }

  lemma PackedStart(qs: seq<Prepared>, prefix: nat, pending: seq<Item>, cells: seq<Placed>, looks: seq<Look>)
    requires Shares(qs, prefix) && Remainders(qs, prefix, pending, |qs|)
    requires |cells| == prefix
    requires (prefix > 0 ==> forall i :: 0 <= i < |qs| ==> Own(cells, i) == Prompt(qs[i].tokens)[..prefix])
    requires |looks| == prefix
    requires forall m :: 0 <= m < prefix ==> looks[m] == Look(0, m, Prompt(qs[0].tokens)[..m + 1], false)
    ensures Packed(qs, prefix, cells, 0) && Isolated(qs, prefix, pending, looks, 0) && pending != []
  {
    StartsGrow(qs, prefix, 1, |qs|);
    if prefix == 0 {
      assert cells == [];
    }
  }

  // -- One batch ----------------------------------------------------------------------------

  // The slot that decodes remainder k.
  ghost predicate SlotAt(qs: seq<Prepared>, prefix: nat, pending: seq<Item>, slot: Slot, k: nat)
    requires Shares(qs, prefix)
  {
    k < |pending| && RemainderAt(qs, prefix, pending[k], k, |qs|) && slot == SlotOf(qs, pending[k])
  }

  ghost predicate Filled(qs: seq<Prepared>, prefix: nat, pending: seq<Item>, slots: seq<Option<Slot>>, begin: nat)
    requires Shares(qs, prefix)
  {
    && begin + |slots| <= |pending|
    && forall s :: 0 <= s < |slots| ==> slots[s].Some? && SlotAt(qs, prefix, pending, slots[s].value, begin + s)
  }

  function SlotsIn(slots: seq<Option<Slot>>): (r: seq<Slot>)
    requires forall s :: 0 <= s < |slots| ==> slots[s].Some?
    ensures |r| == |slots|
  {
    seq(|slots|, s requires 0 <= s < |slots| => slots[s].value)
  }

  ghost predicate BatchOf(qs: seq<Prepared>, prefix: nat, pending: seq<Item>, slots: seq<Slot>, begin: nat)
    requires Shares(qs, prefix)
  {
    && begin + |slots| <= |pending|
    && forall s :: 0 <= s < |slots| ==> SlotAt(qs, prefix, pending, slots[s], begin + s)
  }

  lemma FilledAll(qs: seq<Prepared>, prefix: nat, pending: seq<Item>, slots: seq<Option<Slot>>, begin: nat)
    requires Shares(qs, prefix) && Filled(qs, prefix, pending, slots, begin)
    ensures forall s :: 0 <= s < |slots| ==> slots[s].Some?
    ensures BatchOf(qs, prefix, pending, SlotsIn(slots), begin)
  {
    hide SlotAt, Shares;
    forall s | 0 <= s < |slots|
      ensures SlotAt(qs, prefix, pending, SlotsIn(slots)[s], begin + s)
    {
      assert slots[s].Some?;
    }
  }

  lemma CountNext(qs: seq<Prepared>, prefix: nat, pending: seq<Item>, processed: seq<nat>, index: nat)
    requires Shares(qs, prefix) && Remainders(qs, prefix, pending, |qs|) && index < |pending|
    requires Processed(qs, prefix, processed, index)
    ensures pending[index].question < |qs|
    ensures
      var q := pending[index].question;
      Processed(qs, prefix, processed[q := processed[q] + 1], index + 1)
  {
    assert RemainderAt(qs, prefix, pending[index], index, |qs|);
    hide Reached, Start, Remainders;
    forall i | 0 <= i < |qs|
      ensures Reached(qs, prefix, i, index + 1) == Reached(qs, prefix, i, index) + if i ==
        pending[index].question then 1 else 0
    {
      ReachedNext(qs, prefix, pending, index, i);
    }
  }

  lemma {:induction false} BatchPacked(qs: seq<Prepared>, prefix: nat, pending: seq<Item>, cells: seq<Placed>,
      begin: nat, slots: seq<Slot>)
    requires Shares(qs, prefix) && Remainders(qs, prefix, pending, |qs|) && Packed(qs, prefix, cells, begin)
    requires BatchOf(qs, prefix, pending, slots, begin)
    ensures Packed(qs, prefix, cells + PlacedSlots(slots), begin + |slots|)
    decreases |slots|
  {
    hide Packed, Remainders, Start, Shares;
    if slots == [] {
      assert cells + PlacedSlots(slots) == cells;
    } else {
      var n := |slots| - 1;
      assert SlotAt(qs, prefix, pending, slots[n], begin + n);
      BatchPacked(qs, prefix, pending, cells, begin, slots[..n]);
      PackedNext(qs, prefix, pending, cells + PlacedSlots(slots[..n]), begin + n);
      assert PlacedSlots(slots) == PlacedSlots(slots[..n]) + [PlacedItem(qs, pending[begin + n])];
      assert cells + PlacedSlots(slots) == cells + PlacedSlots(slots[..n]) + [PlacedItem(qs, pending[begin + n])];
    }
  }

  lemma BatchLooks(qs: seq<Prepared>, prefix: nat, pending: seq<Item>, cells: seq<Placed>, seen: seq<Look>, begin: nat,
      slots: seq<Slot>)
    requires Shares(qs, prefix) && Remainders(qs, prefix, pending, |qs|) && Packed(qs, prefix, cells, begin + |slots|)
    requires BatchOf(qs, prefix, pending, slots, begin) && Isolated(qs, prefix, pending, seen, begin)
    ensures Isolated(qs, prefix, pending, seen + LooksOf(cells, slots), begin + |slots|)
  {
    hide Packed, Remainders, Shares, View, Prompt;
    var looks := seen + LooksOf(cells, slots);
    forall m | 0 <= m < begin + |slots|
      ensures LookRight(qs, prefix, pending, looks, m)
    {
      if m < begin {
        assert LookRight(qs, prefix, pending, seen, m);
        assert looks[prefix + m] == seen[prefix + m];
      } else {
        RemainderSees(qs, prefix, pending, cells, m, begin + |slots|);
        SlotIs(qs, prefix, pending, slots, begin, m);
        assert looks[prefix + m] == LooksOf(cells, slots)[m - begin];
      }
    }
    forall m | 0 <= m < prefix
      ensures looks[m] == seen[m]
    {
    }
  }

  lemma SlotIs(qs: seq<Prepared>, prefix: nat, pending: seq<Item>, slots: seq<Slot>, begin: nat, index: nat)
    requires Shares(qs, prefix) && Remainders(qs, prefix, pending, |qs|) && BatchOf(qs, prefix, pending, slots, begin)
    requires begin <= index < begin + |slots|
    ensures index < |pending| && RemainderAt(qs, prefix, pending[index], index, |qs|)
    ensures slots[index - begin] == SlotOf(qs, pending[index])
  {
    assert SlotAt(qs, prefix, pending, slots[index - begin], begin + (index - begin));
  }

  // Reading the slot of remainder `index`, or not, keeps the rows right.
  lemma RowNext(read: Reader, qs: seq<Prepared>, prefix: nat, pending: seq<Item>, rows: seq<Option<Logits>>,
      cells: seq<Placed>, begin: nat, index: nat, slots: seq<Slot>)
    requires Shares(qs, prefix) && Remainders(qs, prefix, pending, |qs|) && BatchOf(qs, prefix, pending, slots, begin)
    requires begin <= index < begin + |slots| && Packed(qs, prefix, cells, begin + |slots|)
    requires RowsRead(read, qs, prefix, rows, index)
    ensures
      var slot := slots[index - begin];
      && slot.sequence < |rows|
      && RowsRead(read, qs, prefix,
        if slot.wanted then rows[slot.sequence := Some(read(View(cells, slot.sequence, slot.pos), slots,
          index - begin))] else rows, index + 1)
  {
    hide Packed, Remainders, View, Reached, Start, Prompt, BatchOf, ReadAtLast, RowsRead, Shares;
    var slot := slots[index - begin];
    SlotIs(qs, prefix, pending, slots, begin, index);
    RemainderSees(qs, prefix, pending, cells, index, begin + |slots|);
    var item := pending[index];
    if slot.wanted {
      WholePrompt(qs[item.question].tokens);
      ReadHere(read, qs[item.question], item.question, View(cells, slot.sequence, slot.pos), slots, index - begin);
    }
    forall i | 0 <= i < |qs|
      ensures Reached(qs, prefix, i, index + 1) == if i ==
        item.question then item.position + 1 else Reached(qs, prefix, i, index)
      ensures i == item.question ==> Reached(qs, prefix, i, index) == item.position
    {
      ReachedNext(qs, prefix, pending, index, i);
    }
    RowsStep(read, qs, prefix, rows, index, item, read(View(cells, slot.sequence, slot.pos), slots, index - begin));
  }

  lemma WholePrompt(tokens: seq<Token>)
    ensures Prompt(tokens)[..|tokens|] == Prompt(tokens)
  {
  }

  lemma ReadHere(read: Reader, q: Prepared, i: nat, view: seq<Seen>, slots: seq<Slot>, s: nat)
    requires s < |slots| && q.tokens != [] && slots[s] == Slot(q.tokens[|q.tokens| - 1], |q.tokens| - 1, i, true)
    requires view == Prompt(q.tokens)
    ensures ReadAtLast(read, q, i, read(view, slots, s))
  {
    hide Prompt;
    assert ReadFrom(read, q, i, read(view, slots, s), slots, s);
  }

  lemma RowsStep(read: Reader, qs: seq<Prepared>, prefix: nat, rows: seq<Option<Logits>>, index: nat, item: Item,
      logits: Logits)
    requires (forall j :: 0 <= j < |qs| ==> prefix < |qs[j].tokens|) && RowsRead(read, qs, prefix, rows, index)
    requires item.question < |qs| && item.position < |qs[item.question].tokens|
    requires forall i :: 0 <= i < |qs| ==> Reached(qs, prefix, i, index + 1) == if i ==
      item.question then item.position + 1 else Reached(qs, prefix, i, index)
    requires Reached(qs, prefix, item.question, index) == item.position
    requires item.position + 1 == |qs[item.question].tokens| ==>
      ReadAtLast(read, qs[item.question], item.question, logits)
    ensures item.question < |rows|
    ensures RowsRead(read, qs, prefix,
      if item.position + 1 == |qs[item.question].tokens| then rows[item.question := Some(logits)] else rows, index + 1)
  {
    hide Reached, ReadAtLast;
  }

  lemma RowsStart(read: Reader, qs: seq<Prepared>, prefix: nat, rows: seq<Option<Logits>>)
    requires Shares(qs, prefix) && rows == seq(|qs|, _ => None)
    ensures RowsRead(read, qs, prefix, rows, 0)
  {
    hide ReadAtLast, Start;
  }

  lemma CountsStart(qs: seq<Prepared>, prefix: nat, processed: seq<nat>)
    requires Shares(qs, prefix) && processed == seq(|qs|, i => if i == 0 then prefix else 0)
    ensures Processed(qs, prefix, processed, 0)
  {
    hide Start;
  }

  lemma AllPacked(qs: seq<Prepared>, prefix: nat, cells: seq<Placed>, k: nat)
    requires Shares(qs, prefix) && Packed(qs, prefix, cells, k)
    ensures |cells| == prefix + k
  {
    hide Own, Prompt, Reached;
  }

  // With every remainder decoded, question `index` passes every check.
  lemma Finished(read: Reader, qs: seq<Prepared>, prefix: nat, pending: seq<Item>, cells: seq<Placed>,
      processed: seq<nat>, rows: seq<Option<Logits>>, index: nat)
    requires Shares(qs, prefix) && Remainders(qs, prefix, pending, |qs|) && Packed(qs, prefix, cells, |pending|)
    requires index < |qs|
    requires Processed(qs, prefix, processed, |pending|) && RowsRead(read, qs, prefix, rows, |pending|)
    ensures |rows| == |qs| && |processed| == |qs| && rows[index].Some?
    ensures ReadAtLast(read, qs[index], index, rows[index].value)
    ensures HighestPos(Own(cells, index)) == |qs[index].tokens| - 1
    ensures processed[index] + (if index == 0 then 0 else prefix) == |qs[index].tokens|
    ensures AnswerRight(read, qs, prefix, PackedAnswer(rows[index].value, processed[index],
        if index == 0 then 0 else prefix), index)
  {
    ReachedAll(qs, prefix, index);
    hide Reached, Start, Own, HighestPos, Prompt, ReadAtLast, RemainderAt;
    HighestPrompt(qs[index].tokens, |qs[index].tokens|);
    assert Prompt(qs[index].tokens)[..|qs[index].tokens|] == Prompt(qs[index].tokens);
  }

  // -- What isolation means for a request --------------------------------------------------

  // Each question's logits are asked for exactly once, at its last token.
  lemma WantedOnce(qs: seq<Prepared>, prefix: nat, pending: seq<Item>, looks: seq<Look>, i: nat)
    requires Shares(qs, prefix) && Remainders(qs, prefix, pending, |qs|)
    requires Isolated(qs, prefix, pending, looks, |pending|) && i < |qs|
    ensures
      var m := prefix + Start(qs, prefix, i) + |qs[i].tokens| - prefix - 1;
      && m < |looks| && looks[m] == Look(i, |qs[i].tokens| - 1, Prompt(qs[i].tokens), true)
      && forall other :: 0 <= other < |looks| && looks[other].wanted && looks[other].question == i ==> other == m
  {
    hide Start, Remainders, Prompt, Shares, RemainderAt;
    var k := Start(qs, prefix, i) + |qs[i].tokens| - prefix - 1;
    PendingAt(qs, prefix, pending, i, |qs[i].tokens| - 1);
    assert LookRight(qs, prefix, pending, looks, k);
    WholePrompt(qs[i].tokens);
    forall other | 0 <= other < |looks| && looks[other].wanted && looks[other].question == i
      ensures other == prefix + k
    {
      if other >= prefix {
        WantedIs(qs, prefix, pending, looks, other - prefix, i, k);
      }
    }
  }

  lemma WantedIs(qs: seq<Prepared>, prefix: nat, pending: seq<Item>, looks: seq<Look>, m: nat, i: nat, k: nat)
    requires Shares(qs, prefix) && Remainders(qs, prefix, pending, |qs|)
    requires Isolated(qs, prefix, pending, looks, |pending|)
    requires m < |pending| && i < |qs| && looks[prefix + m].wanted && looks[prefix + m].question == i
    requires k == Start(qs, prefix, i) + |qs[i].tokens| - prefix - 1
    ensures m == k
  {
    hide Start, Remainders, Prompt, Shares;
    assert LookRight(qs, prefix, pending, looks, m);
  }

  // Where a remainder stands in the pending list.
  lemma PendingAt(qs: seq<Prepared>, prefix: nat, pending: seq<Item>, i: nat, p: nat)
    requires Shares(qs, prefix) && Remainders(qs, prefix, pending, |qs|) && i < |qs| && prefix <= p < |qs[i].tokens|
    ensures
      var k := Start(qs, prefix, i) + p - prefix;
      k < |pending| && pending[k] == Item(i, p)
  {
    StartsGrow(qs, prefix, i + 1, |qs|);
    var k := Start(qs, prefix, i) + p - prefix;
    var item := pending[k];
    assert RemainderAt(qs, prefix, item, k, |qs|);
    if item.question < i {
      StartsGrow(qs, prefix, item.question + 1, i);
    } else if item.question > i {
      StartsGrow(qs, prefix, i + 1, item.question);
    }
  }

  function SumProcessed(answers: seq<PackedAnswer>): nat {
    if answers == [] then 0 else SumProcessed(answers[..|answers| - 1]) + answers[|answers| - 1].processed
  }

  // The processed tokens of all answers together are the cells of the request.
  lemma {:induction false} ProcessedAreCells(read: Reader, qs: seq<Prepared>, prefix: nat, answers: seq<PackedAnswer>,
      n: nat)
    requires Shares(qs, prefix) && 0 < n <= |qs| && |answers| == |qs|
    requires forall i :: 0 <= i < |qs| ==> AnswerRight(read, qs, prefix, answers[i], i)
    ensures SumProcessed(answers[..n]) == prefix + Start(qs, prefix, n)
    decreases n
  {
    assert answers[..n][..n - 1] == answers[..n - 1];
    assert AnswerRight(read, qs, prefix, answers[n - 1], n - 1);
    if n > 1 {
      ProcessedAreCells(read, qs, prefix, answers, n - 1);
    } else {
      assert answers[..0] == [];
    }
  }

  // -- One request ---------------------------------------------------------------------------

  datatype Results = Sequential(answers: seq<Answer>, fallback: bool) | Batched(packed: seq<PackedAnswer>)

  function AllTokens(qs: seq<Prepared>): nat {
    if qs == [] then 0 else AllTokens(qs[..|qs| - 1]) + |qs[|qs| - 1].tokens|
  }

  // A packed request needs a cell for every token, but one copy of the shared prefix.
  lemma {:induction false} CellsNeeded(qs: seq<Prepared>, prefix: nat, n: nat)
    requires n <= |qs| && forall j :: 0 <= j < |qs| ==> prefix < |qs[j].tokens|
    ensures Start(qs, prefix, n) == AllTokens(qs[..n]) - n * prefix
  {
    if 0 < n {
      CellsNeeded(qs, prefix, n - 1);
      assert qs[..n][..n - 1] == qs[..n - 1];
      assert n * prefix == (n - 1) * prefix + prefix;
    }
  }

  // The longest prefix worth sharing, within every question's own split.
  ghost predicate LongestShared(qs: seq<Prepared>, prefix: nat)
    requires qs != [] && forall i :: 0 <= i < |qs| ==> qs[i].prefix < |qs[i].tokens|
  {
    && (prefix == 0 || (MIN_SHARED_PREFIX_TOKENS <= prefix && InCommon(qs, prefix)))
    && forall n: nat :: MIN_SHARED_PREFIX_TOKENS <= n && InCommon(qs, n) ==> n <= prefix
  }

  // The request loop's choice of regime: packed when it was asked for and fits,
  // one question after the other otherwise. Either way every answer is, for exact
  // causal kernels, the uninterrupted model's.
  method EvaluateRequest(sequential: Evaluator, packed: PackedContext, qs: seq<Prepared>, batched: bool,
      batchedContext: nat)
    returns (r: Result<Results, EvalError>, ghost prefix: nat, ghost items: seq<Item>)
    requires 0 < sequential.batch && 0 < packed.batch && qs != []
    requires forall i :: 0 <= i < |qs| ==> Ready(qs[i], sequential.context)
    modifies sequential, packed
    ensures r.Ok? && r.value.Sequential? ==>
      && r.value.fallback == batched && |r.value.answers| == |qs|
      && (forall i :: 0 <= i < |qs| ==> Ready(qs[i], sequential.context))
      && (forall i :: 0 <= i < |qs| ==>
        && r.value.answers[i].seen == FreshAnswer(sequential.stock, sequential.batch, qs[i])
        && ReadsStock(sequential.stock, qs[i], r.value.answers[i].seen))
    ensures r.Ok? && r.value.Batched? ==>
      && batched && Shares(qs, prefix) && Remainders(qs, prefix, items, |qs|)
      && Isolated(qs, prefix, items, packed.looks, |items|)
      && |r.value.packed| == |qs|
      && (forall i :: 0 <= i < |qs| ==>
        && AnswerRight(packed.read, qs, prefix, r.value.packed[i], i)
        && SaysStock(packed.read, qs[i], r.value.packed[i].logits))
      && |packed.cells| == SumProcessed(r.value.packed) <= batchedContext
    ensures batched ==>
      (forall i :: 0 <= i < |qs| ==> Ready(qs[i], sequential.context)) && LongestShared(qs, prefix)
    ensures batched && r.Ok? ==> (r.value.Batched? <==> prefix + AllTokens(qs) - |qs| * prefix <= batchedContext)
    ensures r.Err? ==> r.error == DecodeRefused || r.error == TrimRefused
  {
    hide FreshAnswer, Shares, Remainders, Isolated, AnswerRight, Start, ReadsStock, SaysStock, InCommon;
    prefix, items := 0, [];
    if batched {
      var shared := BatchedPrefixTokens(qs);
      var cells := BatchedCellCount(qs, shared);
      prefix := shared;
      SharedInCommon(qs, shared);
      CellsNeeded(qs, shared, |qs|);
      assert qs[..|qs|] == qs;
      if cells <= batchedContext {
        var answers;
        answers, items := packed.EvaluateBatched(qs, shared);
        if answers.Err? {
          return Err(answers.error), prefix, items;
        }
        ProcessedAreCells(packed.read, qs, shared, answers.value, |qs|);
        assert answers.value[..|qs|] == answers.value;
        RemaindersAll(qs, shared, items);
        return Ok(Batched(answers.value)), prefix, items;
      }
    }
    var answers := sequential.EvaluateAll(qs);
    if answers.Err? {
      return Err(answers.error), prefix, items;
    }
    return Ok(Sequential(answers.value, batched)), prefix, items;
  }

  lemma SharedInCommon(qs: seq<Prepared>, prefix: nat)
    requires Shares(qs, prefix) && forall i :: 0 <= i < |qs| ==> prefix <= qs[i].prefix < |qs[i].tokens|
    ensures InCommon(qs, prefix)
  {
  }

  lemma RemaindersAll(qs: seq<Prepared>, prefix: nat, pending: seq<Item>)
    requires Shares(qs, prefix) && Remainders(qs, prefix, pending, |qs|)
    ensures |pending| == Start(qs, prefix, |qs|)
  {
    hide Start;
  }
}
