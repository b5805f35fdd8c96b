// One unified cache that holds the sequences of many questions, and what the
// attention mask lets each of their tokens see (evaluate_batched of
// unridden/api/native/worker.cpp, over llama.cpp's sequence ids).
module PackedCache {
  import opened Kernels
  import opened QuestionWorker

  // A cell holds one token at one position for every sequence that tags it.
  datatype Placed = Placed(pos: nat, token: Token, tags: set<nat>)

  datatype Seen = Seen(pos: nat, token: Token)

  // The cells of sequence i, in the order they were stored.
  function Own(cells: seq<Placed>, i: nat): seq<Seen> {
    if cells == [] then []
    else
      var c := cells[|cells| - 1];
      Own(cells[..|cells| - 1], i) + if i in c.tags then [Seen(c.pos, c.token)] else []
  }

  // The causal mask: nothing past the token's own position.
  function UpTo(seen: seq<Seen>, p: nat): seq<Seen> {
    if seen == [] then []
    else
      var s := seen[|seen| - 1];
      UpTo(seen[..|seen| - 1], p) + if s.pos <= p then [s] else []
  }

  // What a token of sequence i at position p sees.
  function View(cells: seq<Placed>, i: nat, p: nat): seq<Seen> {
    UpTo(Own(cells, i), p)
  }

  // llama_memory_seq_pos_max
  function HighestPos(seen: seq<Seen>): int {
    if seen == [] then -1
    else
      var rest := HighestPos(seen[..|seen| - 1]);
      var last := seen[|seen| - 1].pos;
      if rest < last then last else rest
  }

  // llama_memory_seq_cp from sequence 0: a tag more on its cells, no cell more.
  function CopyTag(cells: seq<Placed>, s: nat): (r: seq<Placed>)
    ensures |r| == |cells|
  {
    seq(|cells|,
      j requires 0 <= j < |cells| => if 0 in cells[j].tags then cells[j].(tags := cells[j].tags + {s}) else cells[j])
  }

  // A prompt as its own tokens should see it.
  function Prompt(tokens: seq<Token>): (r: seq<Seen>)
    ensures |r| == |tokens|
  {
    seq(|tokens|, p requires 0 <= p < |tokens| => Seen(p, tokens[p]))
  }

  lemma OwnAppend(cells: seq<Placed>, c: Placed, i: nat)
    ensures Own(cells + [c], i) == Own(cells, i) + if i in c.tags then [Seen(c.pos, c.token)] else []
  {
    assert (cells + [c])[..|cells|] == cells;
  }

  lemma {:induction false} UpToPrompt(tokens: seq<Token>, n: nat, p: nat)
    requires n <= |tokens|
    ensures UpTo(Prompt(tokens)[..n], p) == Prompt(tokens)[..if n <= p then n else p + 1]
    decreases n
  {
    if n > 0 {
      assert Prompt(tokens)[..n][..n - 1] == Prompt(tokens)[..n - 1];
      UpToPrompt(tokens, n - 1, p);
    }
  }

  // A sequence that holds its own prompt up to n shows each of its tokens exactly
  // the prompt so far.
  lemma ViewIsPrompt(cells: seq<Placed>, i: nat, tokens: seq<Token>, n: nat, p: nat)
    requires p < n <= |tokens| && Own(cells, i) == Prompt(tokens)[..n]
    ensures View(cells, i, p) == Prompt(tokens)[..p + 1]
  {
    UpToPrompt(tokens, n, p);
  }

  lemma {:induction false} HighestPrompt(tokens: seq<Token>, n: nat)
    requires n <= |tokens|
    ensures HighestPos(Prompt(tokens)[..n]) == n - 1
    decreases n
  {
    if n > 0 {
      assert Prompt(tokens)[..n][..n - 1] == Prompt(tokens)[..n - 1];
      HighestPrompt(tokens, n - 1);
    }
  }

  // Copying sequence 0 to a new one: the new one sees what 0 sees, the others
  // what they saw.
  lemma {:induction false} CopiedOwn(cells: seq<Placed>, s: nat, i: nat)
    requires s != 0 && forall j :: 0 <= j < |cells| ==> s !in cells[j].tags
    ensures Own(CopyTag(cells, s), i) == if i == s then Own(cells, 0) else Own(cells, i)
    decreases |cells|
  {
    if cells != [] {
      var front := cells[..|cells| - 1];
      assert CopyTag(cells, s)[..|cells| - 1] == CopyTag(front, s);
      CopiedOwn(front, s, i);
      assert front[..] == cells[..|cells| - 1];
    }
  }

  // -- What is left to decode -----------------------------------------------------

  datatype Item = Item(question: nat, position: nat)

  // Every question keeps at least one token beyond the shared prefix.
  ghost predicate Shares(qs: seq<Prepared>, prefix: nat)
    ensures Shares(qs, prefix) ==> qs != [] && forall i :: 0 <= i < |qs| ==> prefix < |qs[i].tokens|
  {
    && qs != []
    && (forall i :: 0 <= i < |qs| ==> prefix < |qs[i].tokens|)
    && (forall i :: 0 <= i < |qs| ==> qs[i].tokens[..prefix] == qs[0].tokens[..prefix])
  }

  // How many remainder tokens come before question i's.
  function Start(qs: seq<Prepared>, prefix: nat, i: nat): nat
    requires i <= |qs| && forall j :: 0 <= j < |qs| ==> prefix < |qs[j].tokens|
  {
    if i == 0 then 0 else Start(qs, prefix, i - 1) + |qs[i - 1].tokens| - prefix
  }

  lemma {:induction false} StartsGrow(qs: seq<Prepared>, prefix: nat, i: nat, j: nat)
    requires i <= j <= |qs| && forall m :: 0 <= m < |qs| ==> prefix < |qs[m].tokens|
    ensures Start(qs, prefix, i) <= Start(qs, prefix, j)
    decreases j
  {
    if i < j {
      StartsGrow(qs, prefix, i, j - 1);
    }
  }

  // The remainders, question by question and in position order.
  ghost predicate Remainders(qs: seq<Prepared>, prefix: nat, pending: seq<Item>, n: nat)
    requires n <= |qs| && forall j :: 0 <= j < |qs| ==> prefix < |qs[j].tokens|
  {
    && |pending| == Start(qs, prefix, n)
    && forall k :: 0 <= k < |pending| ==> RemainderAt(qs, prefix, pending[k], k, n)
  }

  ghost predicate RemainderAt(qs: seq<Prepared>, prefix: nat, item: Item, k: nat, n: nat)
    requires n <= |qs| && forall j :: 0 <= j < |qs| ==> prefix < |qs[j].tokens|
  {
    && item.question < n && prefix <= item.position < |qs[item.question].tokens|
    && k == Start(qs, prefix, item.question) + item.position - prefix
  }

  method Pending(qs: seq<Prepared>, prefix: nat) returns (pending: seq<Item>)
    requires Shares(qs, prefix)
    ensures Remainders(qs, prefix, pending, |qs|)
  {
    pending := [];
    for index := 0 to |qs|
      invariant Remainders(qs, prefix, pending, index)
    {
      ghost var before := pending;
      for position := prefix to |qs[index].tokens|
        invariant |pending| == Start(qs, prefix, index) + position - prefix
        invariant forall k :: 0 <= k < |pending| ==> RemainderAt(qs, prefix, pending[k], k, index + 1)
      {
        pending := pending + [Item(index, position)];
      }
    }
  }

  // How far question i has got once the first k remainders are decoded.
  function Reached(qs: seq<Prepared>, prefix: nat, i: nat, k: nat): (r: nat)
    requires i < |qs| && forall j :: 0 <= j < |qs| ==> prefix < |qs[j].tokens|
    ensures prefix <= r <= |qs[i].tokens|
  {
    var start := Start(qs, prefix, i);
    if k <= start then prefix else if k - start >= |qs[i].tokens| - prefix then |qs[i].tokens| else prefix + k - start
  }

  lemma ReachedNext(qs: seq<Prepared>, prefix: nat, pending: seq<Item>, k: nat, i: nat)
    requires Shares(qs, prefix) && Remainders(qs, prefix, pending, |qs|) && k < |pending| && i < |qs|
    ensures
      var item := pending[k];
      && Reached(qs, prefix, item.question, k) == item.position
      && Reached(qs, prefix, i, k + 1) == if i == item.question then item.position + 1 else Reached(qs, prefix, i, k)
  {
    var item := pending[k];
    assert RemainderAt(qs, prefix, item, k, |qs|);
    if i < item.question {
      StartsGrow(qs, prefix, i + 1, item.question);
    } else if i > item.question {
      StartsGrow(qs, prefix, item.question + 1, i);
    }
  }

  lemma ReachedMonotone(qs: seq<Prepared>, prefix: nat, i: nat, k: nat, l: nat)
    requires i < |qs| && k <= l && forall j :: 0 <= j < |qs| ==> prefix < |qs[j].tokens|
    ensures Reached(qs, prefix, i, k) <= Reached(qs, prefix, i, l)
  {
  }

  lemma ReachedAll(qs: seq<Prepared>, prefix: nat, i: nat)
    requires i < |qs| && forall j :: 0 <= j < |qs| ==> prefix < |qs[j].tokens|
    ensures Reached(qs, prefix, i, Start(qs, prefix, |qs|)) == |qs[i].tokens|
  {
    StartsGrow(qs, prefix, i + 1, |qs|);
  }

  // -- The cache while the remainders are decoded ----------------------------------------

  // Every sequence holds its own prompt as far as it has got, and nothing else.
  ghost predicate Packed(qs: seq<Prepared>, prefix: nat, cells: seq<Placed>, k: nat)
    requires forall j :: 0 <= j < |qs| ==> prefix < |qs[j].tokens|
  {
    && |cells| == prefix + k
    && forall i :: 0 <= i < |qs| ==> Own(cells, i) == Prompt(qs[i].tokens)[..Reached(qs, prefix, i, k)]
  }

  function PlacedItem(qs: seq<Prepared>, item: Item): Placed
    requires item.question < |qs| && item.position < |qs[item.question].tokens|
  {
    Placed(item.position, qs[item.question].tokens[item.position], {item.question})
  }

  lemma PackedNext(qs: seq<Prepared>, prefix: nat, pending: seq<Item>, cells: seq<Placed>, k: nat)
    requires Shares(qs, prefix) && Remainders(qs, prefix, pending, |qs|) && k < |pending|
    requires Packed(qs, prefix, cells, k)
    ensures pending[k].question < |qs| && pending[k].position < |qs[pending[k].question].tokens|
    ensures Packed(qs, prefix, cells + [PlacedItem(qs, pending[k])], k + 1)
  {
    var item := pending[k];
    assert RemainderAt(qs, prefix, item, k, |qs|);
    var c := PlacedItem(qs, item);
    hide Own, Prompt, Reached, Start, Remainders;
    forall i | 0 <= i < |qs|
      ensures Own(cells + [c], i) == Prompt(qs[i].tokens)[..Reached(qs, prefix, i, k + 1)]
    {
      OwnAppend(cells, c, i);
      ReachedNext(qs, prefix, pending, k, i);
      if i == item.question {
        PromptNext(qs[i].tokens, item.position);
      }
    }
  }

  lemma PromptNext(tokens: seq<Token>, n: nat)
    requires n < |tokens|
    ensures Prompt(tokens)[..n + 1] == Prompt(tokens)[..n] + [Seen(n, tokens[n])]
  {
  }

  // Isolation: whatever else is in the cache and in the batch, the token of
  // remainder k sees exactly its own question's prompt up to itself.
  lemma RemainderSees(qs: seq<Prepared>, prefix: nat, pending: seq<Item>, cells: seq<Placed>, k: nat, now: nat)
    requires Shares(qs, prefix) && Remainders(qs, prefix, pending, |qs|) && k < now && k < |pending|
    requires Packed(qs, prefix, cells, now)
    ensures
      var item := pending[k];
      && item.question < |qs| && item.position < |qs[item.question].tokens|
      && View(cells, item.question, item.position) == Prompt(qs[item.question].tokens)[..item.position + 1]
  {
    var item := pending[k];
    assert RemainderAt(qs, prefix, item, k, |qs|);
    ReachedNext(qs, prefix, pending, k, item.question);
    ReachedMonotone(qs, prefix, item.question, k + 1, now);
    ViewIsPrompt(cells, item.question, qs[item.question].tokens, Reached(qs, prefix, item.question, now),
      item.position);
  }
}
