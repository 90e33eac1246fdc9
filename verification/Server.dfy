/**
 The completion server as an object: `Server::Impl`, with `load_model` as its constructor
 (`src/inference/server.cpp`).
 */
module Servers {
  import opened Options
  import opened SeqAllocation
  import opened SessionTables
  import opened KvCaches
  import opened Completion
  import opened CompletionTheorems
  import opened Prefilling
  import opened ServerRuns

  class Server {
    const cfg: Config
    const model: Model
    const alloc: SeqAllocator
    const table: SessionTable
    var kv: Kv

    ghost function View(): State
      reads this, alloc, table
    {
      State(alloc.View(), table.View(), kv)
    }

    ghost predicate Valid()
      reads this, alloc, table
    {
      cfg.Valid() && alloc.Valid() && table.max > 0
    }

    constructor (cfg: Config, model: Model, nSeq: nat)
      requires cfg.Valid() && nSeq >= 2
      ensures Valid() && fresh(alloc) && fresh(table)
      ensures this.cfg == cfg && this.model == model && View() == Initial(nSeq)
    {
      this.cfg, this.model := cfg, model;
      alloc := new SeqAllocator(nSeq);
      table := new SessionTable(nSeq - 1);
      kv := Kv(map[], []);
    }

    /** `llama_decode`, whose outcome is given; it aborts on batches longer than `n_batch`. */
    method Decode(batch: seq<Entry>, ok: bool)
      requires |batch| <= cfg.nBatch
      modifies this`kv
      ensures kv == if ok then old(kv).Decode(batch) else old(kv)
    {
      if ok {
        kv := kv.Decode(batch);
      }
    }

    method ResolveSession(req: Request) returns (sess: Option<string>, ghost ch: Choice)
      requires Valid() && req.tokens != []
      modifies this`kv, alloc, table
      ensures Valid() && Legit(old(View()), req, ch)
      ensures (View(), sess) == Resolve(old(View()), req, ch)
    {
      sess, ch := None, Choice("", "", None);
      if req.sessionId != "" {
        var found := table.Find(req.sessionId);
        if found {
          sess := Some(req.sessionId);
        } else {
          var taken := alloc.Take();
          if taken.None? {
            var evicted, victim := table.EvictLru();
            ch := ch.(victim := victim);
            if evicted.Some? {
              kv := kv.SeqRm(evicted.value, -1);
              alloc.GiveBack(evicted.value);
              taken := alloc.Take();
            }
          }
          if taken.Some? {
            var evicted, victim := table.Insert(req.sessionId, taken.value);
            ch := ch.(insertVictim := victim);
            if evicted.Some? {
              kv := kv.SeqRm(evicted.value, -1);
              alloc.GiveBack(evicted.value);
            }
            var _ := table.Find(req.sessionId);
            sess := Some(req.sessionId);
          }
        }
      } else if req.fallback {
        sess := table.FindByPrefix(req.tokens);
        ch := ch.(pick := sess);
      }
    }

    method TrimSession(sess: Option<string>, prompt: seq<Token>) returns (seqId: nat, nPast: nat)
      requires Valid() && (sess.Some? ==> sess.value in table.sessions)
      modifies this`kv, table
      ensures Valid()
      ensures (View(), seqId, nPast) == Trim(old(View()), sess, prompt)
    {
      seqId, nPast := 0, 0;
      if sess.Some? {
        var cached := table.sessions[sess.value].tokens;
        seqId := table.sessions[sess.value].seqId;
        nPast := |cached|;
        var k := 0;
        while k < nPast && k < |prompt| && cached[k] == prompt[k]
          invariant k <= |cached| && k <= |prompt| && cached[..k] == prompt[..k]
        {
          k := k + 1;
        }
        LcpUnique(cached, prompt, k);
        if k < nPast {
          kv := kv.SeqRm(seqId, k);
          table.SetTokens(sess.value, cached[..k]);
          nPast := k;
        }
      } else {
        kv := kv.SeqRm(0, -1);
      }
    }

    /**
     Fills the batch buffer with the next `len` tokens and decodes them, after `tokens[lo..pos]` were fed to `kv0`.
     */
    method FeedBatch(batch: array<Entry>, tokens: seq<Token>, pos: nat, len: nat, seqId: nat, ok: bool, ghost kv0: Kv,
                     ghost lo: nat)
      returns (ghost handed: seq<Entry>)
      requires lo <= pos && pos + len <= |tokens| && len <= batch.Length <= cfg.nBatch
      requires kv == FeedTo(kv0, tokens, lo, pos, seqId)
      modifies this`kv, batch
      ensures kv == FeedTo(kv0, tokens, lo, pos + FedBy(ok, len), seqId)
      ensures handed == Entries(tokens, pos, pos + len, seqId)
    {
      for i := 0 to len
        invariant kv == old(kv)
        invariant batch[..i] == Entries(tokens, pos, pos + i, seqId)
      {
        batch[i] := Entry(tokens[pos + i], pos + i, seqId, pos + i + 1 == |tokens|);
        assert batch[..i + 1] == batch[..i] + [batch[i]];
      }
      handed := batch[..len];
      Decode(batch[..len], ok);
      NextBatch(kv0, tokens, lo, pos, pos + len, seqId);
    }

    /** One turn of the prefill loop. */
    method FeedNext(batch: array<Entry>, req: Request, nPast: nat, start: nat, call: nat, seqId: nat, ghost kv0: Kv,
                    ghost f: Turn)
      returns (ok: bool, ghost g: Turn)
      requires nPast <= |req.tokens| && start < |req.tokens| - nPast && 0 < batch.Length <= cfg.nBatch
      requires Feeding(req, kv0, nPast, seqId, batch.Length, f) && f.kv == kv && f.ok && f.start == start
        && f.calls == call
      modifies this`kv, batch
      ensures Feeding(req, kv0, nPast, seqId, batch.Length, g)
      ensures g.kv == kv && g.ok == ok && g.start == start + batch.Length && g.calls == call + 1
    {
      FeedingFed(req, kv0, nPast, seqId, batch.Length, f);
      hide *;
      var len := BatchLength(|req.tokens| - nPast, batch.Length, start);
      ok := req.decodeOk(call);
      ghost var next := FeedBatch(batch, req.tokens, nPast + start, len, seqId, ok, kv0, nPast);
      FeedingGoesOn(req, kv0, nPast, seqId, batch.Length, f, next);
      g := FeedingMoved(req, kv0, nPast, seqId, batch.Length, f, next);
    }

    /** Feeds `tokens[nPast..]` in batches of at most `n_batch`; `handed` lists those given to `llama_decode`. */
    method PrefillPrompt(req: Request, seqId: nat, nPast: nat)
      returns (ok: bool, calls: nat, ghost handed: seq<seq<Entry>>)
      requires Valid() && nPast <= |req.tokens|
      modifies this`kv
      ensures Valid()
      ensures var pre := PrefillOf(cfg, req, nPast);
        && ok == pre.ok && calls == pre.calls
        && kv == FeedTo(old(kv), req.tokens, nPast, nPast + pre.fed, seqId)
      ensures var all := Batches(req.tokens, nPast, seqId, ChunkSize(|req.tokens| - nPast, cfg.nBatch), 0);
        calls == |handed| <= |all| && handed == all[..calls] && (ok ==> handed == all)
    {
      assert cfg.nBatch > 0;
      hide *;
      var nFeed := |req.tokens| - nPast;
      var nChunk := ChunkSize(nFeed, cfg.nBatch);
      var batch := new Entry[nChunk];
      ok, calls := true, 0;
      var start: nat := 0;
      ghost var kv0 := kv;
      ghost var f := FeedingStarts(req, kv0, nPast, seqId, nChunk);
      while ok && start < nFeed
        invariant f.kv == kv && f.ok == ok && f.start == start && f.calls == calls
        invariant Feeding(req, kv0, nPast, seqId, nChunk, f)
        decreases nFeed - start
      {
        ok, f := FeedNext(batch, req, nPast, start, calls, seqId, kv0, f);
        calls := calls + 1;
        start := start + nChunk;
      }
      FeedingEnds(cfg, req, kv0, nPast, seqId, nChunk, f);
      handed := f.handed;
    }

    /** Samples, decodes and streams until a limit, the end token, a failure or a stop sequence. */
    method GenerateTokens(req: Request, seqId: nat, maxTokens: int, firstCall: nat)
      returns (generated: seq<Token>, pieces: seq<string>, ghost stopped: bool)
      requires Valid()
      modifies this`kv
      ensures Valid()
      ensures (Generation(generated, stopped), kv)
        == Generate(model, req, old(kv), seqId, maxTokens, firstCall, [])
      ensures pieces == if req.streaming then Stream(model, Streamed(Generation(generated, stopped))).0 else []
    {
      hide Generate, HitsStop;
      generated, pieces, stopped := [], [], false;
      var emitted := "";
      var nTotal := |req.tokens|;
      var call := firstCall;
      while |generated| < maxTokens
        invariant !stopped && nTotal == |req.tokens| + |generated|
        invariant Generate(model, req, old(kv), seqId, maxTokens, firstCall, [])
          == Generate(model, req, kv, seqId, maxTokens, call, generated)
        invariant if req.streaming then (pieces, emitted) == Stream(model, generated) else pieces == []
        decreases maxTokens - |generated|
      {
        GenerateStep(model, req, kv, seqId, maxTokens, call, generated);
        var id := model.next(kv.last);
        if id == model.eos {
          return;
        }
        DecodeToken(id, nTotal, seqId, req.decodeOk(call));
        if !req.decodeOk(call) {
          return;
        }
        call := call + 1;
        ghost var before := generated;
        generated := generated + [id];
        nTotal := nTotal + 1;
        assert generated[..|generated| - 1] == before;
        var full := model.detok(generated);
        var hit := HitsAnyStop(req.stops, full);
        if hit {
          kv := kv.SeqRm(seqId, nTotal);
          stopped := true;
          return;
        }
        if req.streaming {
          pieces, emitted := EmitPiece(model, generated, pieces, emitted, full);
        }
      }
      GenerateStep(model, req, kv, seqId, maxTokens, call, generated);
    }

    /** One decoding step of a generated token: a batch of one that asks for logits. */
    method DecodeToken(id: Token, pos: nat, seqId: nat, ok: bool)
      requires Valid()
      modifies this`kv
      ensures kv == if ok then old(kv).Put(Entry(id, pos, seqId, true)) else old(kv)
    {
      DecodeOne(kv, Entry(id, pos, seqId, true));
      Decode([Entry(id, pos, seqId, true)], ok);
    }

    /** Prefill, generation and persistence. */
    method AnswerRequest(req: Request, sess: Option<string>, seqId: nat, nPast: nat, maxTokens: int)
      returns (reply: Reply)
      requires Valid() && nPast <= |req.tokens| && (sess.Some? ==> sess.value in table.sessions)
      requires maxTokens == Budget(|req.tokens|, req.maxTokens, cfg.nCtx)
      modifies this`kv, table
      ensures Valid()
      ensures (View(), reply) == Answer(cfg, model, old(View()), sess, seqId, nPast, req)
    {
      var ok, calls, _ := PrefillPrompt(req, seqId, nPast);
      if !ok {
        return NO_REPLY;
      }
      var generated, pieces, stopped := GenerateTokens(req, seqId, maxTokens, calls);
      var text := if |generated| == 0 then "" else model.detok(generated);
      if sess.Some? {
        table.SetTokens(sess.value, req.tokens + generated);
      }
      reply := Reply(generated, text, pieces, Some(|req.tokens|));
    }

    method CompleteStream(req: Request) returns (reply: Reply, ghost ch: Choice)
      requires Valid() && req.Valid()
      modifies this`kv, alloc, table
      ensures Valid() && Legit(old(View()), req, ch)
      ensures (View(), reply) == Complete(cfg, model, old(View()), req, ch)
    {
      if |req.tokens| == 0 {
        return NO_REPLY, Choice("", "", None);
      }
      hide Resolve, Trim, Answer, Legit;
      var sess;
      sess, ch := ResolveSession(req);
      var seqId, nPast := TrimSession(sess, req.tokens);
      var maxTokens := req.maxTokens;
      if U32(U32(|req.tokens|) + U32(maxTokens)) >= cfg.nCtx {
        maxTokens := cfg.nCtx - |req.tokens| - 1;
        if maxTokens <= 0 {
          if sess.Some? {
            kv := kv.SeqRm(seqId, -1);
            table.SetTokens(sess.value, []);
          }
          return NO_REPLY, ch;
        }
      }
      reply := AnswerRequest(req, sess, seqId, nPast, maxTokens);
    }
  }

  lemma {:induction false} LcpUnique(a: seq<Token>, b: seq<Token>, k: nat)
    requires k <= |a| && k <= |b| && a[..k] == b[..k]
    requires k < |a| && k < |b| ==> a[k] != b[k]
    ensures Lcp(a, b) == k
  {
    if a != [] && b != [] && a[0] == b[0] {
      assert a[1..][..k - 1] == a[..k][1..] && b[1..][..k - 1] == b[..k][1..];
      LcpUnique(a[1..], b[1..], k - 1);
    } else if k > 0 {
      assert a[..k][0] == b[..k][0];
    }
  }

  lemma DecodeOne(kv: Kv, entry: Entry)
    ensures kv.Decode([entry]) == kv.Put(entry)
  {
    assert [entry][..0] == [];
  }

  lemma NextBatch(kv: Kv, tokens: seq<Token>, lo: nat, mid: nat, hi: nat, seqId: nat)
    requires lo <= mid <= hi <= |tokens|
    ensures FeedTo(kv, tokens, lo, mid, seqId).Decode(Entries(tokens, mid, hi, seqId))
      == FeedTo(kv, tokens, lo, hi, seqId)
  {
    DecodeConcat(kv, Entries(tokens, lo, mid, seqId), Entries(tokens, mid, hi, seqId));
    EntriesConcat(tokens, lo, mid, hi, seqId);
  }

  /** The prefill loop between two turns. */
  datatype Turn = Turn(kv: Kv, ok: bool, calls: nat, start: nat, fed: nat, handed: seq<seq<Entry>>)

  /**
   What was fed so far is in the cache, what was handed over are the first batches, and the outcome is yet the same.
   */
  ghost predicate Feeding(req: Request, kv0: Kv, nPast: nat, seqId: nat, chunk: nat, f: Turn)
    requires nPast <= |req.tokens| && chunk > 0
  {
    var feed := |req.tokens| - nPast;
    && f.fed <= feed && (f.ok ==> f.fed == if f.start < feed then f.start else feed)
    && f.kv == FeedTo(kv0, req.tokens, nPast, nPast + f.fed, seqId)
    && RunPrefill(req.decodeOk, feed, chunk, 0, 0)
       == (if f.ok then RunPrefill(req.decodeOk, feed, chunk, f.start, f.calls) else Prefill(f.fed, f.calls, false))
    && f.calls == |f.handed|
    && Batches(req.tokens, nPast, seqId, chunk, 0) == f.handed + Batches(req.tokens, nPast, seqId, chunk, f.start)
  }

  lemma FeedingStarts(req: Request, kv0: Kv, nPast: nat, seqId: nat, chunk: nat) returns (f: Turn)
    requires nPast <= |req.tokens| && chunk > 0
    ensures f == Turn(kv0, true, 0, 0, 0, []) && Feeding(req, kv0, nPast, seqId, chunk, f)
  {
    f := Turn(kv0, true, 0, 0, 0, []);
    FeedToNothing(kv0, req.tokens, nPast, seqId);
    assert [] + Batches(req.tokens, nPast, seqId, chunk, 0) == Batches(req.tokens, nPast, seqId, chunk, 0);
  }

  lemma FeedingFed(req: Request, kv0: Kv, nPast: nat, seqId: nat, chunk: nat, f: Turn)
    requires nPast <= |req.tokens| && chunk > 0 && Feeding(req, kv0, nPast, seqId, chunk, f)
    requires f.ok && f.start < |req.tokens| - nPast
    ensures f.kv == FeedTo(kv0, req.tokens, nPast, nPast + f.start, seqId)
  {
  }

  function FedBy(ok: bool, len: nat): (n: nat)
    ensures n <= len
  {
    if ok then len else 0
  }

  ghost function NextTurn(req: Request, kv0: Kv, nPast: nat, seqId: nat, chunk: nat, f: Turn, next: seq<Entry>): Turn
    requires nPast <= |req.tokens| && chunk > 0 && f.start < |req.tokens| - nPast
  {
    var ok := req.decodeOk(f.calls);
    var fed := f.start + FedBy(ok, BatchLength(|req.tokens| - nPast, chunk, f.start));
    Turn(FeedTo(kv0, req.tokens, nPast, nPast + fed, seqId), ok, f.calls + 1, f.start + chunk, fed, f.handed + [next])
  }

  lemma FeedingGoesOn(req: Request, kv0: Kv, nPast: nat, seqId: nat, chunk: nat, f: Turn, next: seq<Entry>)
    requires nPast <= |req.tokens| && chunk > 0 && Feeding(req, kv0, nPast, seqId, chunk, f)
    requires f.ok && f.start < |req.tokens| - nPast
    requires var pos := nPast + f.start;
      next == Entries(req.tokens, pos, pos + BatchLength(|req.tokens| - nPast, chunk, f.start), seqId)
    ensures Feeding(req, kv0, nPast, seqId, chunk, NextTurn(req, kv0, nPast, seqId, chunk, f, next))
  {
    var feed := |req.tokens| - nPast;
    hide FeedTo, Entries, RunPrefill, Batches;
    NextHanded(f.handed, next, req.tokens, nPast, seqId, chunk, f.start);
    NextOutcome(req.decodeOk, feed, chunk, f.start, f.calls);
  }

  lemma FeedingMoved(req: Request, kv0: Kv, nPast: nat, seqId: nat, chunk: nat, f: Turn, next: seq<Entry>)
    returns (g: Turn)
    requires nPast <= |req.tokens| && chunk > 0 && f.start < |req.tokens| - nPast
    ensures var ok := req.decodeOk(f.calls);
      var fed := f.start + FedBy(ok, BatchLength(|req.tokens| - nPast, chunk, f.start));
      && g == NextTurn(req, kv0, nPast, seqId, chunk, f, next)
      && g == Turn(FeedTo(kv0, req.tokens, nPast, nPast + fed, seqId), ok, f.calls + 1, f.start + chunk, fed,
        f.handed + [next])
  {
    g := NextTurn(req, kv0, nPast, seqId, chunk, f, next);
  }

  lemma NextOutcome(decodeOk: nat -> bool, feed: nat, chunk: nat, start: nat, call: nat)
    requires chunk > 0 && start < feed
    ensures RunPrefill(decodeOk, feed, chunk, start, call) ==
      if decodeOk(call) then RunPrefill(decodeOk, feed, chunk, start + chunk, call + 1)
        else Prefill(start, call + 1, false)
  {
  }

  lemma NextHanded(handed: seq<seq<Entry>>, next: seq<Entry>, tokens: seq<Token>, nPast: nat, seqId: nat, chunk: nat,
                   start: nat)
    requires chunk > 0 && nPast + start < |tokens|
    requires next == Entries(tokens, nPast + start, nPast + start + BatchLength(|tokens| - nPast, chunk, start), seqId)
    ensures handed + Batches(tokens, nPast, seqId, chunk, start)
      == handed + [next] + Batches(tokens, nPast, seqId, chunk, start + chunk)
  {
    hide Entries;
  }

  lemma FeedingEnds(cfg: Config, req: Request, kv0: Kv, nPast: nat, seqId: nat, chunk: nat, f: Turn)
    requires cfg.Valid() && nPast <= |req.tokens| && chunk == ChunkSize(|req.tokens| - nPast, cfg.nBatch)
    requires Feeding(req, kv0, nPast, seqId, chunk, f) && (!f.ok || f.start >= |req.tokens| - nPast)
    ensures var pre := PrefillOf(cfg, req, nPast);
      f.ok == pre.ok && f.calls == pre.calls && f.kv == FeedTo(kv0, req.tokens, nPast, nPast + pre.fed, seqId)
    ensures var all := Batches(req.tokens, nPast, seqId, chunk, 0);
      f.calls == |f.handed| <= |all| && f.handed == all[..f.calls] && (f.ok ==> f.handed == all)
  {
    hide FeedTo;
  }

  /** The `on_token` call for the last of the tokens `gen`; the last branch is the source's conservative resend. */
  method EmitPiece(ghost m: Model, ghost gen: seq<Token>, pieces: seq<string>, emitted: string, full: string)
    returns (pieces': seq<string>, emitted': string)
    requires gen != [] && full == m.detok(gen) && (pieces, emitted) == Stream(m, gen[..|gen| - 1])
    ensures (pieces', emitted') == Stream(m, gen)
  {
    pieces', emitted' := pieces, emitted;
    if |full| > |emitted| && full[..|emitted|] == emitted {
      pieces', emitted' := pieces + [full[|emitted|..]], full;
    } else if full != emitted {
      pieces', emitted' := pieces + [full], full;
    }
  }

  method HitsAnyStop(stops: Option<seq<string>>, full: string) returns (hit: bool)
    ensures hit <==> HitsStop(stops, full)
  {
    hit := false;
    if stops.Some? {
      for i := 0 to |stops.value|
        invariant forall j :: 0 <= j < i ==> stops.value[j] == "" || !Contains(full, stops.value[j])
      {
        if stops.value[i] != "" && Contains(full, stops.value[i]) {
          return true;
        }
      }
    }
  }
}
