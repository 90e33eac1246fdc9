/** The batches of a prefill, and the positions that a request may occupy. */
module Prefilling {
  import opened SessionTables
  import opened KvCaches
  import opened Completion

  /** The length of the batch that starts at `start` of `feed` tokens. */
  function BatchLength(feed: nat, chunk: nat, start: nat): (len: nat)
    requires chunk > 0 && start < feed
    ensures 0 < len <= chunk && start + len <= feed && (len < chunk ==> start + len == feed)
  {
    if chunk < feed - start then chunk else feed - start
  }

  /** The batches handed to `llama_decode` for `tokens[nPast..]`, from offset `start` on. */
  function Batches(tokens: seq<Token>, nPast: nat, seqId: nat, chunk: nat, start: nat): seq<seq<Entry>>
    requires chunk > 0 && nPast <= |tokens|
    decreases |tokens| - (nPast + start)
  {
    if nPast + start >= |tokens| then []
    else
      var pos := nPast + start;
      var end := pos + BatchLength(|tokens| - nPast, chunk, start);
      [Entries(tokens, pos, end, seqId)] + Batches(tokens, nPast, seqId, chunk, start + chunk)
  }

  function DecodeAll(kv: Kv, batches: seq<seq<Entry>>): Kv
    decreases |batches|
  {
    if batches == [] then kv else DecodeAll(kv.Decode(batches[0]), batches[1..])
  }

  function Join(batches: seq<seq<Entry>>): seq<Entry> {
    if batches == [] then [] else batches[0] + Join(batches[1..])
  }

  function Singles(batch: seq<Entry>): seq<seq<Entry>> {
    seq(|batch|, i requires 0 <= i < |batch| => [batch[i]])
  }

  lemma {:induction false} DecodeAllJoins(kv: Kv, batches: seq<seq<Entry>>)
    ensures DecodeAll(kv, batches) == kv.Decode(Join(batches))
    decreases |batches|
  {
    if batches != [] {
      DecodeAllJoins(kv.Decode(batches[0]), batches[1..]);
      DecodeConcat(kv, batches[0], Join(batches[1..]));
    }
  }

  lemma {:induction false} JoinSingles(batch: seq<Entry>)
    ensures Join(Singles(batch)) == batch
  {
    if batch != [] {
      assert Singles(batch)[1..] == Singles(batch[1..]);
      JoinSingles(batch[1..]);
    }
  }

  lemma BatchesStep(tokens: seq<Token>, nPast: nat, seqId: nat, chunk: nat, start: nat)
    requires chunk > 0 && nPast + start < |tokens|
    ensures var pos := nPast + start; var end := pos + BatchLength(|tokens| - nPast, chunk, start);
      && Batches(tokens, nPast, seqId, chunk, start)
         == [Entries(tokens, pos, end, seqId)] + Batches(tokens, nPast, seqId, chunk, start + chunk)
      && |Entries(tokens, pos, end, seqId)| == end - pos
  {
  }

  lemma BatchesStop(tokens: seq<Token>, nPast: nat, seqId: nat, chunk: nat, start: nat)
    requires chunk > 0 && nPast <= |tokens| <= nPast + start
    ensures Batches(tokens, nPast, seqId, chunk, start) == []
    ensures Join(Batches(tokens, nPast, seqId, chunk, start)) == Entries(tokens, |tokens|, |tokens|, seqId)
  {
  }

  lemma JoinCons(batch: seq<Entry>, batches: seq<seq<Entry>>)
    ensures Join([batch] + batches) == batch + Join(batches)
  {
  }

  predicate Sizes(batches: seq<seq<Entry>>, chunk: nat) {
    forall i :: 0 <= i < |batches| ==> 0 < |batches[i]| <= chunk
  }

  lemma SizesCons(batch: seq<Entry>, batches: seq<seq<Entry>>, chunk: nat)
    requires Sizes(batches, chunk) && 0 < |batch| <= chunk
    ensures Sizes([batch] + batches, chunk)
  {
  }

  /** The batches are non-empty, at most a chunk long, and together feed each remaining token once, in order. */
  lemma {:induction false} BatchesCover(tokens: seq<Token>, nPast: nat, seqId: nat, chunk: nat, start: nat)
    requires chunk > 0 && nPast <= |tokens|
    ensures var bs := Batches(tokens, nPast, seqId, chunk, start);
      var pos := if nPast + start < |tokens| then nPast + start else |tokens|;
      Sizes(bs, chunk) && Join(bs) == Entries(tokens, pos, |tokens|, seqId)
    decreases |tokens| - (nPast + start)
  {
    if nPast + start < |tokens| {
      var pos := nPast + start;
      var end := pos + BatchLength(|tokens| - nPast, chunk, start);
      BatchesStep(tokens, nPast, seqId, chunk, start);
      hide Batches, Entries, Join, Sizes;
      BatchesCover(tokens, nPast, seqId, chunk, start + chunk);
      var rest := Batches(tokens, nPast, seqId, chunk, start + chunk);
      JoinCons(Entries(tokens, pos, end, seqId), rest);
      SizesCons(Entries(tokens, pos, end, seqId), rest, chunk);
      EntriesConcat(tokens, pos, end, |tokens|, seqId);
    } else {
      BatchesStop(tokens, nPast, seqId, chunk, start);
    }
  }

  /** Batched prefill equals token-by-token prefill, in the cache and in the logits left behind. */
  lemma BatchedIsTokenByToken(kv: Kv, tokens: seq<Token>, nPast: nat, seqId: nat, chunk: nat)
    requires chunk > 0 && nPast <= |tokens|
    ensures DecodeAll(kv, Batches(tokens, nPast, seqId, chunk, 0))
      == DecodeAll(kv, Singles(Entries(tokens, nPast, |tokens|, seqId)))
  {
    BatchesDecode(kv, tokens, nPast, seqId, chunk);
    SinglesDecode(kv, Entries(tokens, nPast, |tokens|, seqId));
  }

  lemma BatchesDecode(kv: Kv, tokens: seq<Token>, nPast: nat, seqId: nat, chunk: nat)
    requires chunk > 0 && nPast <= |tokens|
    ensures DecodeAll(kv, Batches(tokens, nPast, seqId, chunk, 0)) == kv.Decode(Entries(tokens, nPast, |tokens|, seqId))
  {
    hide Batches, Entries, Join, Sizes, DecodeAll;
    BatchesCover(tokens, nPast, seqId, chunk, 0);
    DecodeAllJoins(kv, Batches(tokens, nPast, seqId, chunk, 0));
  }

  lemma SinglesDecode(kv: Kv, batch: seq<Entry>)
    ensures DecodeAll(kv, Singles(batch)) == kv.Decode(batch)
  {
    DecodeAllJoins(kv, Singles(batch));
    JoinSingles(batch);
  }

  // ---- how a prefill ends ----

  /** The number of batches that `feed` tokens make. */
  function BatchCount(feed: int, chunk: nat): nat
    requires chunk > 0
    decreases feed
  {
    if feed <= 0 then 0 else 1 + BatchCount(feed - chunk, chunk)
  }

  lemma {:induction false} BatchesCount(tokens: seq<Token>, nPast: nat, seqId: nat, chunk: nat, start: nat)
    requires chunk > 0 && nPast <= |tokens|
    ensures |Batches(tokens, nPast, seqId, chunk, start)| == BatchCount(|tokens| - nPast - start, chunk)
    decreases |tokens| - (nPast + start)
  {
    if nPast + start < |tokens| { BatchesCount(tokens, nPast, seqId, chunk, start + chunk); }
  }

  /** Rounding up: all batches but the last are full. */
  lemma {:induction false} BatchCountRoundsUp(feed: nat, chunk: nat)
    requires chunk > 0 && feed > 0
    ensures (BatchCount(feed, chunk) - 1) * chunk < feed <= BatchCount(feed, chunk) * chunk
  {
    if feed > chunk {
      BatchCountRoundsUp(feed - chunk, chunk);
      var n := BatchCount(feed - chunk, chunk);
      assert (n + 1) * chunk == n * chunk + chunk && n * chunk == (n - 1) * chunk + chunk;
    }
  }

  ghost predicate AllDecode(decodeOk: nat -> bool, from: nat, count: nat) {
    forall i :: from <= i < from + count ==> decodeOk(i)
  }

  /** A prefill succeeds when all its batches decode, and has fed something otherwise when the first one did. */
  lemma {:induction false} PrefillExact(decodeOk: nat -> bool, feed: nat, chunk: nat, start: nat, call: nat)
    requires chunk > 0
    ensures var p, n := RunPrefill(decodeOk, feed, chunk, start, call), BatchCount(feed - start, chunk);
      && (p.ok <==> AllDecode(decodeOk, call, n))
      && (!p.ok ==> p.fed >= start && (p.fed > start <==> decodeOk(call)))
    decreases if start < feed then feed - start else 0
  {
    if start < feed && decodeOk(call) {
      PrefillExact(decodeOk, feed, chunk, start + chunk, call + 1);
      var n := BatchCount(feed - start - chunk, chunk);
      assert AllDecode(decodeOk, call, n + 1) <==> AllDecode(decodeOk, call + 1, n);
    } else if start < feed {
      assert !AllDecode(decodeOk, call, BatchCount(feed - start, chunk));
    }
  }

  /** The first batch decodes and a later one does not. */
  ghost predicate FailsLater(decodeOk: nat -> bool, batches: nat) {
    decodeOk(0) && exists i :: 0 < i < batches && !decodeOk(i)
  }

  /** The batches of a request's prefill, which hands them over until one fails. */
  function PrefillBatches(cfg: Config, req: Request, nPast: nat, seqId: nat): seq<seq<Entry>>
    requires cfg.Valid() && nPast <= |req.tokens|
  {
    Batches(req.tokens, nPast, seqId, ChunkSize(|req.tokens| - nPast, cfg.nBatch), 0)
  }

  lemma {:induction false} AllButLastFull(tokens: seq<Token>, nPast: nat, seqId: nat, chunk: nat, start: nat)
    requires chunk > 0 && nPast <= |tokens|
    ensures var bs := Batches(tokens, nPast, seqId, chunk, start);
      && (|tokens| - nPast - start <= chunk ==> |bs| <= 1)
      && forall i :: 0 <= i < |bs| - 1 ==> |bs[i]| == chunk
    decreases |tokens| - (nPast + start)
  {
    if nPast + start < |tokens| {
      hide Entries;
      BatchesStep(tokens, nPast, seqId, chunk, start);
      AllButLastFull(tokens, nPast, seqId, chunk, start + chunk);
      if |tokens| - nPast - start <= chunk { BatchesStop(tokens, nPast, seqId, chunk, start + chunk); }
    }
  }

  /** A prefill asks for as few decodes as can be: all its batches but the last have `nBatch` tokens. */
  lemma BatchesAreFull(cfg: Config, req: Request, nPast: nat, seqId: nat)
    requires cfg.Valid() && nPast <= |req.tokens|
    ensures var bs := PrefillBatches(cfg, req, nPast, seqId);
      forall i :: 0 <= i < |bs| - 1 ==> |bs[i]| == cfg.nBatch
  {
    hide *;
    ValidBatch(cfg);
    var feed: nat := |req.tokens| - nPast;
    var chunk := ChunkSize(feed, cfg.nBatch);
    WholeFeedFits(feed, cfg.nBatch);
    AllButLastFull(req.tokens, nPast, seqId, chunk, 0);
    PrefillBatchesAre(cfg, req, nPast, seqId);
  }

  lemma ValidBatch(cfg: Config)
    requires cfg.Valid()
    ensures cfg.nBatch > 0
  {
  }

  lemma PrefillBatchesAre(cfg: Config, req: Request, nPast: nat, seqId: nat)
    requires cfg.Valid() && nPast <= |req.tokens|
    ensures PrefillBatches(cfg, req, nPast, seqId)
      == Batches(req.tokens, nPast, seqId, ChunkSize(|req.tokens| - nPast, cfg.nBatch), 0)
  {
    hide Batches, ChunkSize;
  }

  lemma WholeFeedFits(feed: nat, nBatch: nat)
    requires nBatch > 0
    ensures ChunkSize(feed, nBatch) == nBatch || feed <= ChunkSize(feed, nBatch)
  {
  }

  lemma FailsLaterExactly(cfg: Config, req: Request, nPast: nat, seqId: nat)
    requires cfg.Valid() && nPast <= |req.tokens|
    ensures var pre := PrefillOf(cfg, req, nPast);
      !pre.ok && pre.fed > 0 <==> FailsLater(req.decodeOk, |PrefillBatches(cfg, req, nPast, seqId)|)
  {
    var feed := |req.tokens| - nPast;
    var n := BatchCount(feed, ChunkSize(feed, cfg.nBatch));
    BatchesCount(req.tokens, nPast, seqId, ChunkSize(feed, cfg.nBatch), 0);
    PrefillExact(req.decodeOk, feed, ChunkSize(feed, cfg.nBatch), 0, 0);
    if !AllDecode(req.decodeOk, 0, n) && req.decodeOk(0) {
      var i :| 0 <= i < n && !req.decodeOk(i);
      assert i != 0;
    }
  }

  /**
   A request that is not refused stays inside the context window, prompt and generation together, exactly
   when the client asked for a non-negative number of tokens or the prompt alone fits: the 32-bit sum
   lets a negative `max_tokens` cancel part of an oversized prompt.
   */
  lemma FitsContextExactly(cfg: Config, req: Request)
    requires cfg.Valid() && req.Valid() && !Exhausted(|req.tokens|, req.maxTokens, cfg.nCtx)
    ensures var budget := Budget(|req.tokens|, req.maxTokens, cfg.nCtx);
      |req.tokens| + (if budget < 0 then 0 else budget) < cfg.nCtx
      <==> req.maxTokens >= 0 || |req.tokens| < cfg.nCtx
  {
  }

  lemma U32Sum(n: nat, k: int)
    requires n < 0x8000_0000 && -0x8000_0000 <= k < 0x8000_0000
    ensures U32(U32(n) + U32(k)) == if n + k >= 0 then n + k else n + k + 0x1_0000_0000
  {
  }

  /**
   What the 32-bit bound comes to: a sum inside the window is granted, be it negative or not; anything else gets all
   that is left of the window, or is refused when nothing is.
   */
  lemma BudgetExactly(cfg: Config, req: Request)
    requires cfg.Valid() && req.Valid()
    ensures var n, k := |req.tokens|, req.maxTokens;
      var granted, room := 0 <= n + k < cfg.nCtx, cfg.nCtx - 1 - n;
      && (Exhausted(n, k, cfg.nCtx) <==> !granted && room <= 0)
      && Budget(n, k, cfg.nCtx) == (if granted then k else room)
      && (granted && k >= 0 ==> k <= room)
  {
    U32Sum(|req.tokens|, req.maxTokens);
    hide U32;
  }

  /** A prompt of 20 tokens passes a 16-token context when -10 tokens are asked for. */
  lemma OversizedPromptPasses()
    ensures !Exhausted(20, -10, 16) && !OverContext(20, -10, 16)
    ensures Budget(20, -10, 16) == -10
  {
  }
}
