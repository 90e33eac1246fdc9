/** The theorems about whole requests and whole runs of the completion server. */
module ServerRuns {
  import opened Options
  import opened SeqAllocation
  import opened SessionTables
  import opened KvCaches
  import opened Histories
  import opened Completion
  import opened SessionInvariants
  import opened CompletionTheorems
  import opened Prefilling

  // ---- what one request keeps ----

  /** The session's prefill decodes its first batch and fails on a later one. */
  ghost predicate FailsPartWay(cfg: Config, s: State, req: Request, ch: Choice)
    requires cfg.Valid() && s.alloc.Valid() && Legit(s, req, ch)
  {
    req.tokens != [] && var (s', sess) := Resolve(s, req, ch); PartialPrefill(cfg, s', sess, req)
  }

  /** The prefix reuse leaves at least one prompt token to feed. */
  ghost predicate FeedsSomething(s: State, req: Request, ch: Choice)
    requires s.alloc.Valid() && Legit(s, req, ch)
  {
    req.tokens != [] && var (s', sess) := Resolve(s, req, ch); Fresh(s', sess, req)
  }

  /** The sequence holds exactly the part of the prompt that is reused. */
  ghost predicate ReusesCleanly(s: State, req: Request, ch: Choice)
    requires s.alloc.Valid() && Legit(s, req, ch)
  {
    req.tokens != [] &&
    var (s', sess) := Resolve(s, req, ch);
    var (s1, seqId, nPast) := Trim(s', sess, req.tokens);
    s1.kv.At(seqId) == Cells(req.tokens[..nPast])
  }

  /** Sequence ids are conserved and free ids have empty sequences, whatever fails. */
  lemma CompleteKeepsIds(cfg: Config, m: Model, s: State, req: Request, ch: Choice)
    requires cfg.Valid() && Ids(s) && Legit(s, req, ch)
    ensures Ids(Complete(cfg, m, s, req, ch).0)
    ensures FreeEmpty(s) ==> FreeEmpty(Complete(cfg, m, s, req, ch).0)
  {
    if req.tokens != [] {
      hide Ids, FreeEmpty, Legit, Resolve, Serve;
      ResolveKeepsIds(s, req, ch);
      if FreeEmpty(s) { ResolveKeepsFree(s, req, ch); }
      var (s', sess) := Resolve(s, req, ch);
      ServeKeepsIds(cfg, m, s', sess, req);
    }
  }

  /** Coherence of all sessions survives a request exactly unless it fails part-way. */
  lemma CompleteKeeps(cfg: Config, m: Model, s: State, req: Request, ch: Choice)
    requires cfg.Valid() && Inv(s) && Legit(s, req, ch)
    ensures Coherent(Complete(cfg, m, s, req, ch).0) <==> !FailsPartWay(cfg, s, req, ch)
  {
    if req.tokens != [] {
      hide Ids, Coherent, Legit, Resolve, Serve, PartialPrefill;
      ResolveKeeps(s, req, ch);
      var (s', sess) := Resolve(s, req, ch);
      ServeKeeps(cfg, m, s', sess, req);
    }
  }

  /** A request leaves every other session's history and KV sequence alone, except for the one it evicts. */
  lemma OtherSessionsUntouched(cfg: Config, m: Model, s: State, req: Request, ch: Choice, a: string)
    requires cfg.Valid() && Ids(s) && Legit(s, req, ch) && a in s.table.sessions
    requires req.tokens != [] ==> Some(a) != Resolve(s, req, ch).1
    requires req.tokens != [] && NeedsId(s, req) && MustEvict(s) ==> a != ch.victim
    ensures Same(s, Complete(cfg, m, s, req, ch).0, a)
  {
    if req.tokens != [] {
      ResolveKeepsIds(s, req, ch);
      ResolveSpares(s, req, ch, a);
      var (s', sess) := Resolve(s, req, ch);
      hide Ids, Legit, Resolve, Serve, Same;
      InBoth(s, s', a);
      ServeOnlyOwn(cfg, m, s', sess, req);
      OnlyOwnSpares(s', Serve(cfg, m, s', sess, req).0, sess, a);
      SameChains(s, s', Serve(cfg, m, s', sess, req).0, a);
    }
  }

  lemma InBoth(s: State, t: State, a: string)
    requires Same(s, t, a)
    ensures a in s.table.sessions && a in t.table.sessions
  {
  }

  /** The prefix fallback finds a session exactly when the history of one, not an empty one, begins the prompt. */
  lemma PicksExactly(t: Table, prompt: seq<Token>, pick: Option<string>)
    requires t.IsPick(prompt, pick)
    ensures pick.Some? <==>
      exists id :: id in t.sessions && t.sessions[id].tokens != [] && t.sessions[id].tokens <= prompt
    ensures pick.Some? ==> pick.value in t.sessions && forall id :: id in t.sessions ==>
      t.sessions[id].tokens <= prompt ==> t.sessions[id].tokens <= t.sessions[pick.value].tokens <= prompt
  {
    forall id | id in t.sessions ensures t.Matches(id, prompt)
      <==> t.sessions[id].tokens != [] && t.sessions[id].tokens <= prompt
    {
    }
  }

  /** A request that is refused for its length leaves its sequence empty, on a session or not. */
  lemma RefusedLeavesNothing(cfg: Config, m: Model, s: State, sess: Option<string>, req: Request)
    requires cfg.Valid() && (sess.Some? ==> sess.value in s.table.sessions)
    requires Exhausted(|req.tokens|, req.maxTokens, cfg.nCtx)
    ensures var (s', reply) := Serve(cfg, m, s, sess, req);
      && reply == Reply([], "", [], None) && s'.kv.At(OwnSeq(s, sess)) == []
      && (sess.Some? ==> sess.value in s'.table.sessions && s'.table.sessions[sess.value].tokens == [])
  {
    var (s1, seqId, nPast) := Trim(s, sess, req.tokens);
    TrimOnlyOwn(s, sess, req.tokens);
    SeqRmClears(s.kv, 0);
    SeqRmClears(s1.kv, seqId);
    hide Exhausted, Lcp;
  }

  /** The prefix fallback picks a session whose whole history is reused, and no other session would save more. */
  lemma PickTrimsNothing(s: State, req: Request, ch: Choice)
    requires s.alloc.Valid() && Legit(s, req, ch) && req.tokens != []
    requires req.sessionId == "" && req.fallback && ch.pick.Some?
    ensures var (s', sess) := Resolve(s, req, ch);
      && sess == ch.pick && sess.value in s.table.sessions
      && Trim(s', sess, req.tokens) == (s', s.table.sessions[sess.value].seqId, |s.table.sessions[sess.value].tokens|)
      && (forall id :: id in s.table.sessions ==>
            s.table.sessions[id].tokens == [] || !(s.table.sessions[id].tokens <= req.tokens)
            || |s.table.sessions[id].tokens| <= Trim(s', sess, req.tokens).2)
  {
    var cached := s.table.sessions[ch.pick.value].tokens;
    assert s.table.Matches(ch.pick.value, req.tokens);
    assert Lcp(cached, req.tokens) == |cached|;
    forall id | id in s.table.sessions && s.table.sessions[id].tokens != [] && s.table.sessions[id].tokens <= req.tokens
      ensures |s.table.sessions[id].tokens| <= |cached|
    {
      assert s.table.Matches(id, req.tokens);
    }
  }

  // ---- replies ----

  /** A cleanly reused prompt with logits of its own, or the right ones left over, is answered as without any cache. */
  lemma AnswersLikeReference(cfg: Config, m: Model, s: State, req: Request, ch: Choice)
    requires cfg.Valid() && s.alloc.Valid() && Legit(s, req, ch) && DecodesSucceed(req)
    requires req.tokens == []
      || (ReusesCleanly(s, req, ch) && (FeedsSomething(s, req, ch) || s.kv.last == Cells(req.tokens)))
    ensures Complete(cfg, m, s, req, ch).1 == ReferenceReply(cfg, m, req)
  {
    if req.tokens != [] {
      var (s', sess) := Resolve(s, req, ch);
      var (s1, seqId, nPast) := Trim(s', sess, req.tokens);
      if !Exhausted(|req.tokens|, req.maxTokens, cfg.nCtx) {
        AnswerReply(cfg, m, s1, sess, seqId, nPast, req);
      }
    }
  }

  /** The same prompt on sequence 0 alone, without a session. */
  function Stateless(req: Request): Request {
    req.(sessionId := "", fallback := false)
  }

  lemma StatelessIsClean(s: State, req: Request, ch: Choice)
    requires s.alloc.Valid() && Legit(s, Stateless(req), ch) && req.tokens != []
    ensures ReusesCleanly(s, Stateless(req), ch) && FeedsSomething(s, Stateless(req), ch)
  {
    SeqRmClears(s.kv, 0);
    assert Cells(req.tokens[..0]) == [];
  }

  /** Session reuse refines the stateless run on a cleared sequence 0, in any two states. */
  lemma CachedRefinesStateless(cfg: Config, m: Model, s: State, req: Request, ch: Choice, other: State, ch': Choice)
    requires cfg.Valid() && s.alloc.Valid() && Legit(s, req, ch) && DecodesSucceed(req)
    requires ReusesCleanly(s, req, ch) && FeedsSomething(s, req, ch)
    requires other.alloc.Valid()
    ensures Complete(cfg, m, s, req, ch).1 == Complete(cfg, m, other, Stateless(req), ch').1
  {
    AnswersLikeReference(cfg, m, s, req, ch);
    StatelessIsClean(other, req, ch');
    AnswersLikeReference(cfg, m, other, Stateless(req), ch');
  }

  /** A model that ends at once on the context `stale` and goes on after every other. */
  function EndsOn(stale: seq<Cell>): Model {
    Model((c: seq<Cell>) => if c == stale then 0 else 1, 0, (t: seq<Token>) => "")
  }

  lemma ReferenceStarts(m: Model, stops: Option<seq<string>>, prompt: seq<Token>, budget: int)
    requires budget > 0 && m.next(Cells(prompt)) != m.eos
    ensures Reference(m, stops, prompt, budget, []).tokens != []
  {
    var id := m.next(Cells(prompt));
    assert prompt + [] == prompt && [] + [id] == [id];
    ReferenceGrows(m, stops, prompt, budget, [id]);
  }

  lemma {:induction false} ReferenceGrows(m: Model, stops: Option<seq<string>>, prompt: seq<Token>, budget: int,
                                          sofar: seq<Token>)
    ensures sofar <= Reference(m, stops, prompt, budget, sofar).tokens
    decreases budget - |sofar|
  {
    if |sofar| < budget {
      ReferenceGrows(m, stops, prompt, budget, sofar + [m.next(Cells(prompt + sofar))]);
    }
  }

  lemma NothingIsContained(stops: Option<seq<string>>)
    ensures !HitsStop(stops, "")
  {
  }

  /** The generate loop differs from cache-free decoding when it starts from other logits. */
  lemma StaleLogitsDiverge(req: Request, kv: Kv, seqId: nat, budget: int, call: nat)
    requires budget > 0 && kv.last != Cells(req.tokens)
    ensures Generate(EndsOn(kv.last), req, kv, seqId, budget, call, []).0.tokens
      != Reference(EndsOn(kv.last), req.stops, req.tokens, budget, []).tokens
  {
    GenerateStep(EndsOn(kv.last), req, kv, seqId, budget, call, []);
    ReferenceStarts(EndsOn(kv.last), req.stops, req.tokens, budget);
  }

  /** The context that a spoilt sequence gives the second token. */
  function SecondContext(req: Request, kv: Kv, seqId: nat): seq<Cell> {
    kv.At(seqId) + [Cell(|req.tokens|, 1)]
  }

  /** It also differs when the sequence is not the prompt's, from the second token on. */
  lemma SpoiltSequenceDiverges(req: Request, kv: Kv, seqId: nat, budget: int, call: nat)
    requires budget > 1 && kv.last == Cells(req.tokens) && kv.At(seqId) != Cells(req.tokens)
    requires req.tokens != [] && DecodesSucceed(req)
    ensures var m := EndsOn(SecondContext(req, kv, seqId));
      Generate(m, req, kv, seqId, budget, call, []).0.tokens != Reference(m, req.stops, req.tokens, budget, []).tokens
  {
    var second := SecondContext(req, kv, seqId);
    SecondIsNew(req, kv, seqId);
    GeneratesOne(EndsOn(second), req, kv, seqId, budget, call);
    assert req.tokens + [] == req.tokens && [] + [1] == [1];
    NothingIsContained(req.stops);
    ReferenceStep(EndsOn(second), req, kv, budget, call, []);
    hide Generate, SecondContext;
    ReferenceGoesOn(EndsOn(second), req, budget);
  }

  lemma SecondIsNew(req: Request, kv: Kv, seqId: nat)
    requires kv.At(seqId) != Cells(req.tokens) && req.tokens != []
    ensures SecondContext(req, kv, seqId) != Cells(req.tokens)
    ensures SecondContext(req, kv, seqId) != Cells(req.tokens + [1])
  {
    var second, n := SecondContext(req, kv, seqId), |req.tokens|;
    assert second[|second| - 1].pos == n && Cells(req.tokens)[n - 1].pos == n - 1;
    CellsSnoc(req.tokens, 1);
    assert Cells(req.tokens + [1])[..n] == Cells(req.tokens) && second[..|second| - 1] == kv.At(seqId);
  }

  lemma GeneratesOne(m: Model, req: Request, kv: Kv, seqId: nat, budget: int, call: nat)
    requires m.next(kv.last) == 1 && m.next(SecondContext(req, kv, seqId)) == m.eos == 0 && m.detok([1]) == ""
    requires budget > 1 && DecodesSucceed(req)
    ensures Generate(m, req, kv, seqId, budget, call, []).0.tokens == [1]
  {
    assert [] + [1] == [1];
    NothingIsContained(req.stops);
    GenerateStep(m, req, kv, seqId, budget, call, []);
    GenerateStep(m, req, PutNext(m, req, kv, seqId, []), seqId, budget, call + 1, [1]);
  }

  lemma ReferenceGoesOn(m: Model, req: Request, budget: int)
    requires m.next(Cells(req.tokens + [1])) == 1 && m.eos == 0 && budget > 1
    ensures |Reference(m, req.stops, req.tokens, budget, [1]).tokens| > 1
  {
    ReferenceGrows(m, req.stops, req.tokens, budget, [1] + [1]);
  }

  /** With one token to generate, only the logits matter. */
  lemma OneTokenNeedsLogits(m: Model, req: Request, kv: Kv, seqId: nat, call: nat)
    requires kv.last == Cells(req.tokens) && DecodesSucceed(req)
    ensures Generate(m, req, kv, seqId, 1, call, []).0 == Reference(m, req.stops, req.tokens, 1, [])
  {
    assert req.tokens + [] == req.tokens;
    GenerateStep(m, req, kv, seqId, 1, call, []);
    ReferenceStep(m, req, kv, 1, call, []);
    GenerateStep(m, req, PutNext(m, req, kv, seqId, []), seqId, 1, call + 1, [] + [m.next(kv.last)]);
  }

  /** When the generate loop is cache-free decoding. */
  ghost predicate LoopFaithful(req: Request, kv: Kv, seqId: nat, budget: int) {
    budget <= 0 || (kv.last == Cells(req.tokens) && (kv.At(seqId) == Cells(req.tokens) || budget == 1))
  }

  lemma LoopAgrees(m: Model, req: Request, kv: Kv, seqId: nat, budget: int, call: nat)
    requires LoopFaithful(req, kv, seqId, budget) && DecodesSucceed(req)
    ensures Generate(m, req, kv, seqId, budget, call, []).0 == Reference(m, req.stops, req.tokens, budget, [])
  {
    assert req.tokens + [] == req.tokens;
    if kv.At(seqId) == kv.last == Cells(req.tokens) {
      GenerateIsReference(m, req, kv, seqId, budget, call, []);
    } else if budget == 1 {
      OneTokenNeedsLogits(m, req, kv, seqId, call);
    }
  }

  lemma LoopDiverges(req: Request, kv: Kv, seqId: nat, budget: int, call: nat) returns (m: Model)
    requires !LoopFaithful(req, kv, seqId, budget) && req.tokens != [] && DecodesSucceed(req)
    ensures Generate(m, req, kv, seqId, budget, call, []).0.tokens
      != Reference(m, req.stops, req.tokens, budget, []).tokens
  {
    if kv.last != Cells(req.tokens) {
      m := EndsOn(kv.last);
      StaleLogitsDiverge(req, kv, seqId, budget, call);
    } else {
      m := EndsOn(SecondContext(req, kv, seqId));
      SpoiltSequenceDiverges(req, kv, seqId, budget, call);
    }
  }

  /** The cache when generation begins. */
  ghost function Prefilled(s: State, req: Request, ch: Choice): (Kv, nat)
    requires s.alloc.Valid() && Legit(s, req, ch) && req.tokens != []
  {
    var (s', sess) := Resolve(s, req, ch);
    var (s1, seqId, nPast) := Trim(s', sess, req.tokens);
    (FeedTo(s1.kv, req.tokens, nPast, |req.tokens|, seqId), seqId)
  }

  lemma CancelRight(a: seq<Cell>, b: seq<Cell>, c: seq<Cell>)
    requires a + c == b + c
    ensures a == b
  {
    assert |a| == |b|;
    assert (a + c)[..|a|] == a && (b + c)[..|b|] == b;
  }

  /** What the reuse of the cache means for that moment. */
  lemma PrefilledExactly(s: State, req: Request, ch: Choice)
    requires s.alloc.Valid() && Legit(s, req, ch) && req.tokens != []
    ensures var (kv, seqId) := Prefilled(s, req, ch);
      && (kv.At(seqId) == Cells(req.tokens) <==> ReusesCleanly(s, req, ch))
      && kv.last == if FeedsSomething(s, req, ch) then kv.At(seqId) else s.kv.last
  {
    var (s', sess) := Resolve(s, req, ch);
    var (s1, seqId, nPast) := Trim(s', sess, req.tokens);
    TrimKeepsLogits(s', sess, req.tokens);
    hide Resolve, Trim, Legit, FeedTo;
    FedExactly(s1.kv, req.tokens, nPast, seqId);
  }

  /** A prompt fed to its end is held exactly when what it was fed to was its own beginning. */
  lemma FedExactly(kv: Kv, tokens: seq<Token>, nPast: nat, seqId: nat)
    requires nPast <= |tokens|
    ensures var kv' := FeedTo(kv, tokens, nPast, |tokens|, seqId);
      && (kv'.At(seqId) == Cells(tokens) <==> kv.At(seqId) == Cells(tokens[..nPast]))
      && kv'.last == if nPast < |tokens| then kv'.At(seqId) else kv.last
  {
    FeedToFeeds(kv, tokens, nPast, |tokens|, seqId);
    CellsPrefix(tokens, nPast, |tokens|);
    assert tokens[..|tokens|] == tokens;
    hide FeedTo, Cells;
    var fed := Cells(tokens)[nPast..|tokens|];
    if kv.At(seqId) + fed == Cells(tokens) {
      CancelRight(kv.At(seqId), Cells(tokens[..nPast]), fed);
    }
  }

  lemma TrimKeepsLogits(s: State, sess: Option<string>, prompt: seq<Token>)
    requires sess.Some? ==> sess.value in s.table.sessions
    ensures Trim(s, sess, prompt).0.kv.last == s.kv.last
  {
  }

  lemma CompleteGenerates(cfg: Config, m: Model, s: State, req: Request, ch: Choice)
    requires cfg.Valid() && s.alloc.Valid() && Legit(s, req, ch) && DecodesSucceed(req) && req.tokens != []
    requires !Exhausted(|req.tokens|, req.maxTokens, cfg.nCtx)
    ensures var (kv, seqId) := Prefilled(s, req, ch);
      var calls := PrefillOf(cfg, req, Trim(Resolve(s, req, ch).0, Resolve(s, req, ch).1, req.tokens).2).calls;
      Complete(cfg, m, s, req, ch).1
      == MakeReply(m, req, Generate(m, req, kv, seqId, Budget(|req.tokens|, req.maxTokens, cfg.nCtx), calls, []).0)
  {
    var (s', sess) := Resolve(s, req, ch);
    hide Resolve, Legit, Generate, Trim, MakeReply;
    PrefillSucceeds(cfg, req, Trim(s', sess, req.tokens).2);
  }

  /**
   Exactly when every model answers as without a cache, in any state whatsoever. A prompt that is wholly cached
   is continued from whatever was decoded last, and a session whose prefill once failed part-way from a sequence
   that is not its history.
   */
  lemma RefinesExactly(cfg: Config, s: State, req: Request, ch: Choice)
    requires cfg.Valid() && s.alloc.Valid() && Legit(s, req, ch) && DecodesSucceed(req) && req.tokens != []
    ensures (forall m :: Complete(cfg, m, s, req, ch).1 == ReferenceReply(cfg, m, req))
      <==>
      (|| Exhausted(|req.tokens|, req.maxTokens, cfg.nCtx) || Allowance(cfg, req) == 0
       || (FeedsSomething(s, req, ch) && ReusesCleanly(s, req, ch))
       || (!FeedsSomething(s, req, ch) && s.kv.last == Cells(req.tokens)
         && (ReusesCleanly(s, req, ch) || Allowance(cfg, req) == 1)))
  {
    if !Exhausted(|req.tokens|, req.maxTokens, cfg.nCtx) {
      var (kv, seqId) := Prefilled(s, req, ch);
      PrefilledExactly(s, req, ch);
      hide Prefilled, ReusesCleanly, FeedsSomething, Resolve, Legit, Trim, Generate, Reference, Complete;
      RepliesExactly(cfg, s, req, ch, kv, seqId);
    } else {
      hide Resolve, Legit, Trim;
    }
  }

  lemma RepliesExactly(cfg: Config, s: State, req: Request, ch: Choice, kv: Kv, seqId: nat)
    requires cfg.Valid() && s.alloc.Valid() && Legit(s, req, ch) && DecodesSucceed(req) && req.tokens != []
    requires !Exhausted(|req.tokens|, req.maxTokens, cfg.nCtx) && (kv, seqId) == Prefilled(s, req, ch)
    ensures (forall m :: Complete(cfg, m, s, req, ch).1 == ReferenceReply(cfg, m, req))
      <==> LoopFaithful(req, kv, seqId, Budget(|req.tokens|, req.maxTokens, cfg.nCtx))
  {
    var calls := PrefillOf(cfg, req, Trim(Resolve(s, req, ch).0, Resolve(s, req, ch).1, req.tokens).2).calls;
    var budget := Budget(|req.tokens|, req.maxTokens, cfg.nCtx);
    hide Prefilled, LoopFaithful, Resolve, Legit, Trim, Generate, Reference, Complete, DecodesSucceed, Stream;
    if LoopFaithful(req, kv, seqId, budget) {
      forall m ensures Complete(cfg, m, s, req, ch).1 == ReferenceReply(cfg, m, req) {
        CompleteGenerates(cfg, m, s, req, ch);
        LoopAgrees(m, req, kv, seqId, budget, calls);
        DecodedIsMade(m, req, budget);
      }
    } else {
      var m := LoopDiverges(req, kv, seqId, budget, calls);
      CompleteGenerates(cfg, m, s, req, ch);
    }
  }

  /**
   Exactly when a new session is turned away and answered without one, although a session may just have been
   evicted.
   */
  lemma NewSessionRefusedExactly(s: State, req: Request, ch: Choice)
    requires Ids(s) && Legit(s, req, ch) && NeedsId(s, req) && req.tokens != []
    ensures Resolve(s, req, ch).1.None? <==>
      s.alloc.Take().0.None? && (MustEvict(s) ==> s.table.sessions[ch.victim].seqId == s.alloc.Skipped())
  {
    TakeExact(s.alloc);
    if MustEvict(s) {
      EvictKeepsIds(s, ch.victim);
      var e := Evict(s, ch.victim);
      TakeExact(e.alloc);
      assert e.alloc.Skipped() == s.alloc.Skipped();
      assert e.alloc.Free(s.table.sessions[ch.victim].seqId);
    }
  }

  /** Which session a request works on: the one it names unless that is refused, else the one picked if it may be. */
  lemma ResolvesTo(s: State, req: Request, ch: Choice)
    requires Ids(s) && Legit(s, req, ch) && req.tokens != []
    ensures Resolve(s, req, ch).1 ==
      if req.sessionId == "" then (if req.fallback then ch.pick else None)
      else if req.sessionId !in s.table.sessions && s.alloc.Take().0.None?
        && (s.table.sessions != map[] ==> s.table.sessions[ch.victim].seqId == s.alloc.Skipped()) then None
      else Some(req.sessionId)
  {
    if NeedsId(s, req) {
      NewSessionRefusedExactly(s, req, ch);
      hide Ids;
    }
  }

  /** A served request leaves its sequence within the context window, if the request meets the exact bound. */
  lemma ServedPositionsFit(cfg: Config, m: Model, s: State, sess: Option<string>, req: Request)
    requires cfg.Valid() && req.Valid() && (req.maxTokens >= 0 || |req.tokens| < cfg.nCtx)
    requires sess.Some? ==> sess.value in s.table.sessions && CoherentSession(s, sess.value)
    ensures var s' := Serve(cfg, m, s, sess, req).0;
      !Exhausted(|req.tokens|, req.maxTokens, cfg.nCtx) ==>
        forall i :: 0 <= i < |s'.kv.At(OwnSeq(s, sess))| ==> s'.kv.At(OwnSeq(s, sess))[i].pos == i < cfg.nCtx
  {
    ServeEffect(cfg, m, s, sess, req);
    if !Exhausted(|req.tokens|, req.maxTokens, cfg.nCtx) {
      FitsContextExactly(cfg, req);
    }
  }

  /**
   The next request on a session spoilt at level `d` (right after the failure, `d` is the length of its history): it
   is repaired exactly when it outgrew the context or the prompt leaves the history at or below `d`. Else position
   `d` goes on holding a cell too many, which the prompt's own tokens now follow.
   */
  lemma RepairedExactly(cfg: Config, m: Model, s: State, a: string, req: Request, d: nat)
    requires cfg.Valid() && OnLevel(s, a, Some(d))
    ensures var s' := Serve(cfg, m, s, Some(a), req).0;
      var cached := s.table.sessions[a].tokens; var k := Lcp(cached, req.tokens);
      var repaired := Exhausted(|req.tokens|, req.maxTokens, cfg.nCtx)
        || (k < |cached| && k <= d && !PartialPrefill(cfg, s, Some(a), req));
      && a in s'.table.sessions && (CoherentSession(s', a) <==> repaired)
      && (!repaired && !(k < |cached| && k <= d) ==> OnLevel(s', a, Some(d)))
  {
    ServeHolds(cfg, m, s, a, req, Some(d));
    var s' := Serve(cfg, m, s, Some(a), req).0;
    LevelIsIncoherent(CellsOf(s', a), s'.table.sessions[a].tokens, NextLevel(cfg, s, a, req, Some(d)));
    hide Held, Serve, PartialPrefill, Exhausted;
  }

  // ---- runs ----

  datatype Step = Step(req: Request, ch: Choice)

  /** Every choice is one that the hash map may make. */
  ghost predicate LegitRun(cfg: Config, m: Model, s: State, steps: seq<Step>)
    requires cfg.Valid() && s.alloc.Valid()
    decreases |steps|
  {
    steps == [] ||
    (Legit(s, steps[0].req, steps[0].ch)
      && LegitRun(cfg, m, Complete(cfg, m, s, steps[0].req, steps[0].ch).0, steps[1..]))
  }

  ghost function After(cfg: Config, m: Model, s: State, steps: seq<Step>): (r: State)
    requires cfg.Valid() && s.alloc.Valid() && LegitRun(cfg, m, s, steps)
    ensures r.alloc.Valid()
    decreases |steps|
  {
    if steps == [] then s
    else After(cfg, m, Complete(cfg, m, s, steps[0].req, steps[0].ch).0, steps[1..])
  }

  lemma RunStep(cfg: Config, m: Model, s: State, step: Step, rest: seq<Step>)
    requires cfg.Valid() && s.alloc.Valid() && Legit(s, step.req, step.ch)
    requires LegitRun(cfg, m, Complete(cfg, m, s, step.req, step.ch).0, rest)
    ensures LegitRun(cfg, m, s, [step] + rest)
    ensures After(cfg, m, s, [step] + rest) == After(cfg, m, Complete(cfg, m, s, step.req, step.ch).0, rest)
  {
    hide Complete, Legit;
    assert ([step] + rest)[1..] == rest;
  }

  lemma RunNothing(cfg: Config, m: Model, s: State)
    requires cfg.Valid() && s.alloc.Valid()
    ensures LegitRun(cfg, m, s, []) && After(cfg, m, s, []) == s
  {
  }

  lemma RunHead(cfg: Config, m: Model, s: State, steps: seq<Step>)
    requires cfg.Valid() && s.alloc.Valid() && steps != [] && LegitRun(cfg, m, s, steps)
    ensures Legit(s, steps[0].req, steps[0].ch)
    ensures var t := Complete(cfg, m, s, steps[0].req, steps[0].ch).0;
      LegitRun(cfg, m, t, steps[1..]) && After(cfg, m, s, steps) == After(cfg, m, t, steps[1..])
  {
    hide Complete, Legit;
  }

  /** One run after another. */
  lemma {:induction false} RunConcat(cfg: Config, m: Model, s: State, a: seq<Step>, b: seq<Step>)
    requires cfg.Valid() && s.alloc.Valid() && LegitRun(cfg, m, s, a) && LegitRun(cfg, m, After(cfg, m, s, a), b)
    ensures LegitRun(cfg, m, s, a + b) && After(cfg, m, s, a + b) == After(cfg, m, After(cfg, m, s, a), b)
    decreases |a|
  {
    hide *;
    if a == [] {
      RunNothing(cfg, m, s);
      assert a + b == b;
    } else {
      RunHead(cfg, m, s, a);
      RunConcat(cfg, m, Complete(cfg, m, s, a[0].req, a[0].ch).0, a[1..], b);
      RunStep(cfg, m, s, a[0], a[1..] + b);
      assert [a[0]] + (a[1..] + b) == a + b;
    }
  }

  /** The state that `load_model` sets up for a context with `nSeq` sequences. */
  function Initial(nSeq: nat): State {
    State(Pool(nSeq, 1, seq(nSeq, _ => false)), Table(if nSeq > 0 then nSeq - 1 else 0, map[], 0), Kv(map[], []))
  }

  /** The level of every live session's sequence. */
  type Levels = map<string, Option<nat>>

  /** Ids are conserved, free ids are empty, and each session's sequence stands to its history as its level tells. */
  ghost predicate Tracked(s: State, levels: Levels) {
    && Ids(s) && FreeEmpty(s)
    && forall a :: a in s.table.sessions ==> a in levels && OnLevel(s, a, levels[a])
  }

  predicate OnLevel(s: State, a: string, level: Option<nat>) {
    a in s.table.sessions && Held(CellsOf(s, a), s.table.sessions[a].tokens, level)
  }

  lemma SameOnLevel(s: State, t: State, a: string, level: Option<nat>)
    requires Same(s, t, a) && OnLevel(s, a, level)
    ensures OnLevel(t, a, level)
  {
  }

  lemma BlankOnLevel(s: State, a: string)
    requires a in s.table.sessions && Blank(s, a)
    ensures OnLevel(s, a, None)
  {
    assert Cells([]) == [];
  }

  /** New sessions start without a level; the session served moves as `NextLevel` tells. */
  ghost function NextLevels(cfg: Config, s: State, levels: Levels, req: Request, ch: Choice): Levels
    requires cfg.Valid() && s.alloc.Valid() && Legit(s, req, ch)
  {
    if req.tokens == [] then levels
    else
      var (s', sess) := Resolve(s, req, ch);
      var kept := Kept(s, s', levels);
      if sess.None? then kept else kept[sess.value := NextLevel(cfg, s', sess.value, req, kept[sess.value])]
  }

  ghost function Kept(s: State, s': State, levels: Levels): Levels {
    map a | a in s'.table.sessions :: if a in s.table.sessions && a in levels then levels[a] else None
  }

  lemma ResolveTracks(s: State, levels: Levels, req: Request, ch: Choice)
    requires Tracked(s, levels) && Legit(s, req, ch) && req.tokens != []
    ensures var s' := Resolve(s, req, ch).0; Tracked(s', Kept(s, s', levels))
  {
    var s' := Resolve(s, req, ch).0;
    ResolveKeepsIds(s, req, ch);
    ResolveKeepsFree(s, req, ch);
    ResolveInherits(s, req, ch);
    hide Ids, FreeEmpty, Resolve, Legit, OnLevel, Same, Blank;
    forall a | a in s'.table.sessions ensures OnLevel(s', a, Kept(s, s', levels)[a]) {
      if a in s.table.sessions {
        SameOnLevel(s, s', a, levels[a]);
      } else {
        BlankOnLevel(s', a);
      }
    }
  }

  lemma ServeTracks(cfg: Config, m: Model, s: State, levels: Levels, sess: Option<string>, req: Request)
    requires cfg.Valid() && Tracked(s, levels) && (sess.Some? ==> sess.value in s.table.sessions)
    ensures Tracked(Serve(cfg, m, s, sess, req).0,
                    if sess.None? then levels
                      else levels[sess.value := NextLevel(cfg, s, sess.value, req, levels[sess.value])])
  {
    hide *;
    var s' := Serve(cfg, m, s, sess, req).0;
    TrackedMeans(s, levels);
    ServeKeepsIds(cfg, m, s, sess, req);
    ServeSpares(cfg, m, s, sess, req);
    OthersTrack(s, s', levels, sess);
    match sess
    case None =>
      AllTracked(s', levels);
    case Some(a) =>
      OwnOnLevel(cfg, m, s, a, req, levels[a]);
      OneMoves(s', levels, a, NextLevel(cfg, s, a, req, levels[a]));
  }

  lemma TrackedMeans(s: State, levels: Levels)
    requires Tracked(s, levels)
    ensures Ids(s) && FreeEmpty(s) && forall a :: a in s.table.sessions ==> a in levels && OnLevel(s, a, levels[a])
  {
  }

  lemma AllTracked(s: State, levels: Levels)
    requires Ids(s) && FreeEmpty(s) && forall a :: a in s.table.sessions ==> a in levels && OnLevel(s, a, levels[a])
    ensures Tracked(s, levels)
  {
  }

  lemma OneMoves(s: State, levels: Levels, own: string, level: Option<nat>)
    requires Ids(s) && FreeEmpty(s) && OnLevel(s, own, level)
    requires forall a :: a in s.table.sessions ==> a in levels && (Some(a) != Some(own) ==> OnLevel(s, a, levels[a]))
    ensures Tracked(s, levels[own := level])
  {
    hide Ids, FreeEmpty, OnLevel;
  }

  lemma OthersTrack(s: State, s': State, levels: Levels, except: Option<string>)
    requires Tracked(s, levels)
    requires forall a :: a in s'.table.sessions ==> a in s.table.sessions && (Some(a) != except ==> Same(s, s', a))
    ensures forall a :: a in s'.table.sessions ==> a in levels && (Some(a) != except ==> OnLevel(s', a, levels[a]))
  {
    hide Ids, FreeEmpty, OnLevel, Same;
    forall a | a in s'.table.sessions && Some(a) != except ensures OnLevel(s', a, levels[a]) {
      SameOnLevel(s, s', a, levels[a]);
    }
  }

  lemma OwnOnLevel(cfg: Config, m: Model, s: State, a: string, req: Request, level: Option<nat>)
    requires cfg.Valid() && a in s.table.sessions && OnLevel(s, a, level)
    ensures OnLevel(Serve(cfg, m, s, Some(a), req).0, a, NextLevel(cfg, s, a, req, level))
  {
    hide Held, Serve, NextLevel;
    ServeHolds(cfg, m, s, a, req, level);
  }

  lemma ServeSpares(cfg: Config, m: Model, s: State, sess: Option<string>, req: Request)
    requires cfg.Valid() && Ids(s) && (sess.Some? ==> sess.value in s.table.sessions)
    ensures var s' := Serve(cfg, m, s, sess, req).0;
      forall a :: a in s'.table.sessions ==> a in s.table.sessions && (Some(a) != sess ==> Same(s, s', a))
  {
    var s' := Serve(cfg, m, s, sess, req).0;
    ServeOnlyOwn(cfg, m, s, sess, req);
    hide Ids, Serve, Same;
    forall a | a in s'.table.sessions && Some(a) != sess ensures Same(s, s', a) {
      OnlyOwnSpares(s, s', sess, a);
    }
  }

  /** Every request moves the levels as computed. */
  lemma CompleteTracks(cfg: Config, m: Model, s: State, levels: Levels, req: Request, ch: Choice)
    requires cfg.Valid() && Tracked(s, levels) && Legit(s, req, ch)
    ensures Tracked(Complete(cfg, m, s, req, ch).0, NextLevels(cfg, s, levels, req, ch))
  {
    if req.tokens != [] {
      hide Tracked, Resolve, Serve, Legit, NextLevel;
      var (s', sess) := Resolve(s, req, ch);
      ResolveTracks(s, levels, req, ch);
      ServeTracks(cfg, m, s', Kept(s, s', levels), sess, req);
    }
  }

  ghost function LevelsAfter(cfg: Config, m: Model, s: State, levels: Levels, steps: seq<Step>): Levels
    requires cfg.Valid() && s.alloc.Valid() && LegitRun(cfg, m, s, steps)
    decreases |steps|
  {
    if steps == [] then levels
    else
      var Step(req, ch) := steps[0];
      LevelsAfter(cfg, m, Complete(cfg, m, s, req, ch).0, NextLevels(cfg, s, levels, req, ch), steps[1..])
  }

  /** Over every run, whatever fails. */
  lemma {:induction false} RunTracks(cfg: Config, m: Model, s: State, levels: Levels, steps: seq<Step>)
    requires cfg.Valid() && Tracked(s, levels) && LegitRun(cfg, m, s, steps)
    ensures Tracked(After(cfg, m, s, steps), LevelsAfter(cfg, m, s, levels, steps))
    decreases |steps|
  {
    if steps != [] {
      hide Tracked, NextLevels, Complete;
      var Step(req, ch) := steps[0];
      CompleteTracks(cfg, m, s, levels, req, ch);
      RunTracks(cfg, m, Complete(cfg, m, s, req, ch).0, NextLevels(cfg, s, levels, req, ch), steps[1..]);
    }
  }

  /** Over every run, whatever fails, the ids in use are the live sessions' and free ids have empty sequences. */
  lemma {:induction false} RunKeepsIds(cfg: Config, m: Model, s: State, steps: seq<Step>)
    requires cfg.Valid() && Ids(s) && LegitRun(cfg, m, s, steps)
    ensures Ids(After(cfg, m, s, steps))
    ensures FreeEmpty(s) ==> FreeEmpty(After(cfg, m, s, steps))
    decreases |steps|
  {
    if steps != [] {
      hide Ids, FreeEmpty, Complete;
      var Step(req, ch) := steps[0];
      CompleteKeepsIds(cfg, m, s, req, ch);
      RunKeepsIds(cfg, m, Complete(cfg, m, s, req, ch).0, steps[1..]);
    }
  }

  /** All sessions are coherent exactly when none has a level. */
  lemma CoherentExactly(s: State, levels: Levels)
    requires Tracked(s, levels)
    ensures forall a :: a in s.table.sessions ==> (CoherentSession(s, a) <==> levels[a].None?)
    ensures Coherent(s) <==> forall a :: a in s.table.sessions ==> levels[a].None?
  {
    forall a | a in s.table.sessions ensures CoherentSession(s, a) <==> levels[a].None? {
      LevelIsIncoherent(CellsOf(s, a), s.table.sessions[a].tokens, levels[a]);
    }
  }

  /** No request of the run fails part-way on session `a`. */
  ghost predicate NeverFailsFor(cfg: Config, m: Model, s: State, steps: seq<Step>, a: string)
    requires cfg.Valid() && s.alloc.Valid() && LegitRun(cfg, m, s, steps)
    decreases |steps|
  {
    steps == [] ||
    var Step(req, ch) := steps[0];
    && !(FailsPartWay(cfg, s, req, ch) && Resolve(s, req, ch).1 == Some(a))
    && NeverFailsFor(cfg, m, Complete(cfg, m, s, req, ch).0, steps[1..], a)
  }

  lemma NextLevelsSpare(cfg: Config, s: State, levels: Levels, req: Request, ch: Choice, a: string)
    requires cfg.Valid() && s.alloc.Valid() && Legit(s, req, ch)
    requires !(FailsPartWay(cfg, s, req, ch) && Resolve(s, req, ch).1 == Some(a))
    requires a in levels ==> levels[a].None?
    ensures var next := NextLevels(cfg, s, levels, req, ch); a in next ==> next[a].None?
  {
    hide Resolve, Legit, Exhausted, Trim;
  }

  /** A session whose own prefills never failed part-way is coherent, whatever happened to the others. */
  lemma {:induction false} SessionStaysCoherent(cfg: Config, m: Model, s: State, levels: Levels, steps: seq<Step>,
                                                a: string)
    requires cfg.Valid() && Tracked(s, levels) && LegitRun(cfg, m, s, steps)
    requires (a in levels ==> levels[a].None?) && NeverFailsFor(cfg, m, s, steps, a)
    ensures var t := After(cfg, m, s, steps); a in t.table.sessions ==> CoherentSession(t, a)
    decreases |steps|
  {
    if steps == [] {
      CoherentExactly(s, levels);
    } else {
      hide Tracked, NextLevels, Complete, FailsPartWay, Resolve, CoherentSession;
      var Step(req, ch) := steps[0];
      CompleteTracks(cfg, m, s, levels, req, ch);
      NextLevelsSpare(cfg, s, levels, req, ch, a);
      SessionStaysCoherent(cfg, m, Complete(cfg, m, s, req, ch).0, NextLevels(cfg, s, levels, req, ch), steps[1..], a);
    }
  }

  /** No session's prefill fails after its first batch. */
  ghost predicate SoundRun(cfg: Config, m: Model, s: State, steps: seq<Step>)
    requires cfg.Valid() && s.alloc.Valid() && LegitRun(cfg, m, s, steps)
    decreases |steps|
  {
    steps == [] ||
    (&& !FailsPartWay(cfg, s, steps[0].req, steps[0].ch)
     && SoundRun(cfg, m, Complete(cfg, m, s, steps[0].req, steps[0].ch).0, steps[1..]))
  }

  /** Over such runs every session stays coherent. */
  lemma {:induction false} RunKeepsInvariant(cfg: Config, m: Model, s: State, steps: seq<Step>)
    requires cfg.Valid() && Inv(s) && LegitRun(cfg, m, s, steps) && SoundRun(cfg, m, s, steps)
    ensures Inv(After(cfg, m, s, steps))
    decreases |steps|
  {
    if steps != [] {
      hide Ids, Coherent, Complete, FailsPartWay;
      var Step(req, ch) := steps[0];
      CompleteKeepsIds(cfg, m, s, req, ch);
      CompleteKeeps(cfg, m, s, req, ch);
      RunKeepsInvariant(cfg, m, Complete(cfg, m, s, req, ch).0, steps[1..]);
    }
  }

  lemma InitialIsTracked(nSeq: nat)
    requires nSeq >= 2
    ensures Tracked(Initial(nSeq), map[]) && Inv(Initial(nSeq))
  {
  }

  /** The level of the session that the request works on, once its history is trimmed; sequence 0 has none. */
  ghost function ReusedLevel(s: State, levels: Levels, req: Request, ch: Choice): Option<nat>
    requires s.alloc.Valid() && Legit(s, req, ch) && req.tokens != []
  {
    var (s', sess) := Resolve(s, req, ch);
    if sess.None? then None else TrimmedLevel(s', sess.value, req.tokens, Kept(s, s', levels)[sess.value])
  }

  lemma ReusesCleanlyExactly(s: State, levels: Levels, req: Request, ch: Choice)
    requires Tracked(s, levels) && Legit(s, req, ch) && req.tokens != []
    ensures ReusesCleanly(s, req, ch) <==> ReusedLevel(s, levels, req, ch).None?
  {
    var (s', sess) := Resolve(s, req, ch);
    ResolveTracks(s, levels, req, ch);
    hide Resolve, Legit;
    var (s1, seqId, nPast) := Trim(s', sess, req.tokens);
    if sess.Some? {
      var level := Kept(s, s', levels)[sess.value];
      TrimHolds(s', sess.value, req.tokens, level);
      LevelIsIncoherent(CellsOf(s1, sess.value), req.tokens[..nPast], TrimmedLevel(s', sess.value, req.tokens, level));
    } else {
      SeqRmClears(s'.kv, 0);
      assert Cells(req.tokens[..0]) == [];
    }
  }

  /**
   After any run of mixed requests, whatever failed: a request that feeds a token, on sequence 0 or on a session
   that reuses its history below any level, is answered as by a server without sessions.
   */
  lemma EveryReachableStateRefines(cfg: Config, m: Model, nSeq: nat, steps: seq<Step>, req: Request, ch: Choice)
    requires cfg.Valid() && nSeq >= 2 && LegitRun(cfg, m, Initial(nSeq), steps)
    requires var s := After(cfg, m, Initial(nSeq), steps);
      var levels := LevelsAfter(cfg, m, Initial(nSeq), map[], steps);
      DecodesSucceed(req) && Legit(s, req, ch) && FeedsSomething(s, req, ch) && ReusedLevel(s, levels, req, ch).None?
    ensures Tracked(After(cfg, m, Initial(nSeq), steps), LevelsAfter(cfg, m, Initial(nSeq), map[], steps))
    ensures Complete(cfg, m, After(cfg, m, Initial(nSeq), steps), req, ch).1 ==
      Complete(cfg, m, Initial(nSeq), Stateless(req), Choice("", "", None)).1
  {
    InitialIsTracked(nSeq);
    RunTracks(cfg, m, Initial(nSeq), map[], steps);
    var s, levels := After(cfg, m, Initial(nSeq), steps), LevelsAfter(cfg, m, Initial(nSeq), map[], steps);
    hide Tracked, Initial, LegitRun, After, LevelsAfter, ReusesCleanly, ReusedLevel, DecodesSucceed;
    ReusesCleanlyExactly(s, levels, req, ch);
    CachedRefinesStateless(cfg, m, s, req, ch, Initial(nSeq), Choice("", "", None));
  }
}
