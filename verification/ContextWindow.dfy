/** The positions that the KV sequences occupy, over whole runs. */
module ContextWindow {
  import opened Options
  import opened SessionTables
  import opened KvCaches
  import opened Completion
  import opened CompletionTheorems
  import opened ServerRuns

  ghost predicate CellsFit(cells: seq<Cell>, bound: nat) {
    forall c :: c in cells ==> c.pos < bound
  }

  /** No cell of any sequence reaches `bound`. */
  ghost predicate Fits(kv: Kv, bound: nat) {
    forall seqId :: CellsFit(kv.At(seqId), bound)
  }

  lemma {:induction false} BelowHas(cells: seq<Cell>, from: int, c: Cell)
    ensures c in Below(cells, from) <==> c in cells && c.pos < from
  {
    if cells != [] { BelowHas(cells[1..], from, c); }
  }

  lemma SeqRmFits(kv: Kv, seqId: nat, from: int, bound: nat)
    requires Fits(kv, bound)
    ensures Fits(kv.SeqRm(seqId, from), bound)
  {
    forall other ensures CellsFit(kv.SeqRm(seqId, from).At(other), bound) {
      assert CellsFit(kv.At(other), bound);
      forall c | c in Below(kv.At(other), from) ensures c.pos < bound { BelowHas(kv.At(other), from, c); }
    }
  }

  lemma PutFits(kv: Kv, e: Entry, bound: nat)
    requires Fits(kv, bound) && e.pos < bound
    ensures Fits(kv.Put(e), bound)
  {
    forall other ensures CellsFit(kv.Put(e).At(other), bound) {
      assert CellsFit(kv.At(other), bound);
    }
  }

  lemma {:induction false} FeedFits(kv: Kv, tokens: seq<Token>, lo: nat, hi: nat, seqId: nat, bound: nat)
    requires lo <= hi <= |tokens| <= bound && Fits(kv, bound)
    ensures Fits(FeedTo(kv, tokens, lo, hi, seqId), bound)
    decreases hi
  {
    hide *;
    if lo == hi {
      FeedToNothing(kv, tokens, lo, seqId);
    } else {
      var last := hi - 1;
      FeedFits(kv, tokens, lo, last, seqId, bound);
      FeedToSnoc(kv, tokens, lo, last, seqId);
      PutFits(FeedTo(kv, tokens, lo, last, seqId), Entry(tokens[last], last, seqId, last + 1 == |tokens|), bound);
    }
  }

  lemma PutNextFits(m: Model, req: Request, kv: Kv, seqId: nat, budget: int, call: nat, sofar: seq<Token>, bound: nat)
    requires Fits(kv, bound) && |req.tokens| + budget <= bound && GoesOn(m, req, kv, budget, call, sofar)
    ensures Fits(PutNext(m, req, kv, seqId, sofar), bound)
  {
    PutFits(kv, Entry(m.next(kv.last), |req.tokens| + |sofar|, seqId, true), bound);
  }

  lemma {:induction false} GenerateFits(m: Model, req: Request, kv: Kv, seqId: nat, budget: int, call: nat,
                                        sofar: seq<Token>, bound: nat)
    requires Fits(kv, bound) && |req.tokens| + budget <= bound
    ensures Fits(Generate(m, req, kv, seqId, budget, call, sofar).1, bound)
    decreases budget - |sofar|
  {
    hide *;
    GenerateStep(m, req, kv, seqId, budget, call, sofar);
    if GoesOn(m, req, kv, budget, call, sofar) {
      var kv', gen := PutNext(m, req, kv, seqId, sofar), sofar + [m.next(kv.last)];
      PutNextFits(m, req, kv, seqId, budget, call, sofar, bound);
      if HitsStop(req.stops, m.detok(gen)) {
        SeqRmFits(kv', seqId, |req.tokens| + |gen|, bound);
      } else {
        StillBelow(m, req, kv, budget, call, sofar);
        GenerateFits(m, req, kv', seqId, budget, call + 1, gen, bound);
      }
    }
  }

  /** The guard on a request: it asks for a non-negative number of tokens, or its prompt fits. */
  predicate Bounded(cfg: Config, req: Request) {
    req.Valid() && (req.maxTokens >= 0 || |req.tokens| <= cfg.nCtx)
  }

  lemma BoundedFits(cfg: Config, req: Request)
    requires cfg.Valid() && Bounded(cfg, req) && !Exhausted(|req.tokens|, req.maxTokens, cfg.nCtx)
    ensures |req.tokens| <= cfg.nCtx
    ensures |req.tokens| + Budget(|req.tokens|, req.maxTokens, cfg.nCtx) <= cfg.nCtx
  {
    if req.maxTokens >= 0 { SmallSum(|req.tokens|, req.maxTokens); }
    hide U32;
  }

  lemma SmallSum(n: nat, k: nat)
    requires n < 0x8000_0000 && k < 0x8000_0000
    ensures U32(U32(n) + U32(k)) == n + k
  {
  }

  lemma AnswerFits(cfg: Config, m: Model, s: State, sess: Option<string>, seqId: nat, nPast: nat, req: Request)
    requires cfg.Valid() && nPast <= |req.tokens| && (sess.Some? ==> sess.value in s.table.sessions)
    requires Bounded(cfg, req) && !Exhausted(|req.tokens|, req.maxTokens, cfg.nCtx) && Fits(s.kv, cfg.nCtx)
    ensures Fits(Answer(cfg, m, s, sess, seqId, nPast, req).0.kv, cfg.nCtx)
  {
    BoundedFits(cfg, req);
    var pre := PrefillOf(cfg, req, nPast);
    var kv := FeedTo(s.kv, req.tokens, nPast, nPast + pre.fed, seqId);
    hide Fits, Generate, FeedTo, Exhausted, Bounded, Budget;
    FeedFits(s.kv, req.tokens, nPast, nPast + pre.fed, seqId, cfg.nCtx);
    if pre.ok {
      GenerateFits(m, req, kv, seqId, Budget(|req.tokens|, req.maxTokens, cfg.nCtx), pre.calls, [], cfg.nCtx);
    }
  }

  lemma TrimFits(s: State, sess: Option<string>, prompt: seq<Token>, bound: nat)
    requires Fits(s.kv, bound) && (sess.Some? ==> sess.value in s.table.sessions)
    ensures Fits(Trim(s, sess, prompt).0.kv, bound)
  {
    hide Fits;
    var (_, seqId, nPast) := Trim(s, sess, prompt);
    SeqRmFits(s.kv, seqId, nPast, bound);
    SeqRmFits(s.kv, 0, -1, bound);
  }

  lemma ResetFits(s: State, sess: Option<string>, seqId: nat, bound: nat)
    requires Fits(s.kv, bound) && (sess.Some? ==> sess.value in s.table.sessions)
    ensures Fits(Reset(s, sess, seqId).kv, bound)
  {
    hide Fits;
    SeqRmFits(s.kv, seqId, -1, bound);
  }

  lemma ServeFits(cfg: Config, m: Model, s: State, sess: Option<string>, req: Request)
    requires cfg.Valid() && Bounded(cfg, req) && Fits(s.kv, cfg.nCtx)
    requires sess.Some? ==> sess.value in s.table.sessions
    ensures Fits(Serve(cfg, m, s, sess, req).0.kv, cfg.nCtx)
  {
    hide Fits, Trim, Reset, Answer, Bounded, Exhausted;
    var (s1, seqId, nPast) := Trim(s, sess, req.tokens);
    TrimFits(s, sess, req.tokens, cfg.nCtx);
    if Exhausted(|req.tokens|, req.maxTokens, cfg.nCtx) {
      ResetFits(s1, sess, seqId, cfg.nCtx);
    } else {
      AnswerFits(cfg, m, s1, sess, seqId, nPast, req);
    }
  }

  lemma EvictFits(s: State, victim: string, bound: nat)
    requires s.alloc.Valid() && victim in s.table.sessions && Fits(s.kv, bound)
    ensures Fits(Evict(s, victim).kv, bound)
  {
    SeqRmFits(s.kv, s.table.sessions[victim].seqId, -1, bound);
  }

  lemma AllocateFits(s: State, victim: string, bound: nat)
    requires s.alloc.Valid() && (MustEvict(s) ==> victim in s.table.sessions) && Fits(s.kv, bound)
    ensures Fits(Allocate(s, victim).0.kv, bound)
  {
    hide Fits, Evict;
    if MustEvict(s) { EvictFits(s, victim, bound); }
  }

  lemma AdmitFits(s: State, id: string, seqId: nat, victim: string, bound: nat)
    requires s.alloc.Valid() && (s.table.InsertEvicts(id) ==> victim in s.table.sessions) && Fits(s.kv, bound)
    ensures Fits(Admit(s, id, seqId, victim).kv, bound)
  {
    hide Fits, Evict;
    if s.table.InsertEvicts(id) { EvictFits(s, victim, bound); }
  }

  lemma ResolveFits(s: State, req: Request, ch: Choice, bound: nat)
    requires s.alloc.Valid() && Legit(s, req, ch) && req.tokens != [] && Fits(s.kv, bound)
    ensures Fits(Resolve(s, req, ch).0.kv, bound)
  {
    hide Fits, Allocate, Admit, MustEvict;
    if NeedsId(s, req) {
      AllocateFits(s, ch.victim, bound);
      var (s', id) := Allocate(s, ch.victim);
      if id.Some? { AdmitFits(s', req.sessionId, id.value, ch.insertVictim, bound); }
    }
  }

  lemma CompleteFits(cfg: Config, m: Model, s: State, req: Request, ch: Choice)
    requires cfg.Valid() && s.alloc.Valid() && Legit(s, req, ch) && Bounded(cfg, req) && Fits(s.kv, cfg.nCtx)
    ensures Fits(Complete(cfg, m, s, req, ch).0.kv, cfg.nCtx)
  {
    if req.tokens != [] {
      hide Fits, Resolve, Serve, Legit, Bounded;
      ResolveFits(s, req, ch, cfg.nCtx);
      var (s', sess) := Resolve(s, req, ch);
      ServeFits(cfg, m, s', sess, req);
    }
  }

  ghost predicate AllBounded(cfg: Config, steps: seq<Step>) {
    forall i :: 0 <= i < |steps| ==> Bounded(cfg, steps[i].req)
  }

  /** Over every run of such requests, whatever fails, no cell of any sequence reaches the end of the context. */
  lemma {:induction false} RunFits(cfg: Config, m: Model, s: State, steps: seq<Step>)
    requires cfg.Valid() && s.alloc.Valid() && LegitRun(cfg, m, s, steps)
    requires AllBounded(cfg, steps) && Fits(s.kv, cfg.nCtx)
    ensures Fits(After(cfg, m, s, steps).kv, cfg.nCtx)
    decreases |steps|
  {
    if steps != [] {
      var Step(req, ch) := steps[0];
      assert Bounded(cfg, req) && AllBounded(cfg, steps[1..]);
      hide Fits, Complete, Bounded, AllBounded, Legit;
      CompleteFits(cfg, m, s, req, ch);
      RunFits(cfg, m, Complete(cfg, m, s, req, ch).0, steps[1..]);
    }
  }

  // ---- the guard is needed ----

  lemma PutHas(m: Model, req: Request, kv: Kv, seqId: nat, sofar: seq<Token>, c: Cell)
    requires c in kv.At(seqId)
    ensures c in PutNext(m, req, kv, seqId, sofar).At(seqId)
  {
  }

  /** Generating drops no cell of the prompt. */
  lemma {:induction false} GenerateHas(m: Model, req: Request, kv: Kv, seqId: nat, budget: int, call: nat,
                                       sofar: seq<Token>, c: Cell)
    requires c in kv.At(seqId) && c.pos < |req.tokens|
    ensures c in Generate(m, req, kv, seqId, budget, call, sofar).1.At(seqId)
    decreases budget - |sofar|
  {
    GenerateStep(m, req, kv, seqId, budget, call, sofar);
    if GoesOn(m, req, kv, budget, call, sofar) {
      var kv', gen := PutNext(m, req, kv, seqId, sofar), sofar + [m.next(kv.last)];
      hide Generate, PutNext, HitsStop;
      PutHas(m, req, kv, seqId, sofar, c);
      if HitsStop(req.stops, m.detok(gen)) {
        BelowHas(kv'.At(seqId), |req.tokens| + |gen|, c);
      } else {
        GenerateHas(m, req, kv', seqId, budget, call + 1, gen, c);
      }
    }
  }

  /** A prompt that is fed to its end leaves its last token at its own position. */
  lemma AnswerHasLast(cfg: Config, m: Model, s: State, sess: Option<string>, seqId: nat, nPast: nat, req: Request)
    requires cfg.Valid() && nPast < |req.tokens| && (sess.Some? ==> sess.value in s.table.sessions)
    requires PrefillOf(cfg, req, nPast).ok
    ensures var n := |req.tokens|;
      Cell(n - 1, req.tokens[n - 1]) in Answer(cfg, m, s, sess, seqId, nPast, req).0.kv.At(seqId)
  {
    var n, pre := |req.tokens|, PrefillOf(cfg, req, nPast);
    var kv := FeedTo(s.kv, req.tokens, nPast, n, seqId);
    FeedToFeeds(s.kv, req.tokens, nPast, n, seqId);
    var fed := Cells(req.tokens)[nPast..n];
    assert fed[n - 1 - nPast] == Cell(n - 1, req.tokens[n - 1]);
    hide FeedTo, Generate;
    GenerateHas(m, req, kv, seqId, Budget(n, req.maxTokens, cfg.nCtx), pre.calls, [], Cell(n - 1, req.tokens[n - 1]));
  }

  /** A request that is carried out and feeds a token stays within the context exactly when it meets the guard. */
  lemma CompleteFitsExactly(cfg: Config, m: Model, s: State, req: Request, ch: Choice)
    requires cfg.Valid() && s.alloc.Valid() && Legit(s, req, ch) && req.Valid() && Fits(s.kv, cfg.nCtx)
    requires FeedsSomething(s, req, ch) && DecodesSucceed(req) && !Exhausted(|req.tokens|, req.maxTokens, cfg.nCtx)
    ensures Fits(Complete(cfg, m, s, req, ch).0.kv, cfg.nCtx) <==> req.maxTokens >= 0 || |req.tokens| <= cfg.nCtx
  {
    if Bounded(cfg, req) {
      CompleteFits(cfg, m, s, req, ch);
    } else {
      var (s', sess) := Resolve(s, req, ch);
      var (s1, seqId, nPast) := Trim(s', sess, req.tokens);
      hide Resolve, Legit, Trim, Answer, Exhausted;
      PrefillSucceeds(cfg, req, nPast);
      AnswerHasLast(cfg, m, s1, sess, seqId, nPast, req);
      assert !CellsFit(Complete(cfg, m, s, req, ch).0.kv.At(seqId), cfg.nCtx);
    }
  }
}
