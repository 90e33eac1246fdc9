/** What `complete_stream` promises: cached sessions answer like stateless runs, and the cache stays coherent. */
module CompletionTheorems {
  import opened Options
  import opened SessionTables
  import opened KvCaches
  import opened Histories
  import opened Completion
  import opened Prefilling
  import opened Streaming
  import opened SessionInvariants

  // ---- the simple form: greedy decoding of the prompt, without any cache ----

  function Reference(m: Model, stops: Option<seq<string>>, prompt: seq<Token>, budget: int,
                     sofar: seq<Token>): Generation
    decreases budget - |sofar|
  {
    if |sofar| >= budget then Generation(sofar, false)
    else
      var id := m.next(Cells(prompt + sofar));
      if id == m.eos then Generation(sofar, false)
      else if HitsStop(stops, m.detok(sofar + [id])) then Generation(sofar + [id], true)
      else Reference(m, stops, prompt, budget, sofar + [id])
  }

  /** What it streams: a piece for each token, but for one that completes a stop sequence. */
  function ReferencePieces(m: Model, stops: Option<seq<string>>, prompt: seq<Token>, budget: int,
                           sofar: seq<Token>): seq<string>
    decreases budget - |sofar|
  {
    if |sofar| >= budget then []
    else
      var id := m.next(Cells(prompt + sofar));
      var gen := sofar + [id];
      if id == m.eos || HitsStop(stops, m.detok(gen)) then []
      else Piece(Text(m, sofar), Text(m, gen)) + ReferencePieces(m, stops, prompt, budget, gen)
  }

  /** The reply of a server without a cache: the text of the tokens, and the pieces if asked for. */
  function Decoded(m: Model, req: Request, budget: int): Reply {
    var tokens := Reference(m, req.stops, req.tokens, budget, []).tokens;
    Reply(tokens, Text(m, tokens), if req.streaming then ReferencePieces(m, req.stops, req.tokens, budget, []) else [],
          Some(|req.tokens|))
  }

  function ReferenceReply(cfg: Config, m: Model, req: Request): Reply {
    var n := |req.tokens|;
    if n == 0 || Exhausted(n, req.maxTokens, cfg.nCtx) then Reply([], "", [], None)
    else Decoded(m, req, Budget(n, req.maxTokens, cfg.nCtx))
  }

  /** The tokens whose text is streamed. */
  function Shown(g: Generation): seq<Token> {
    if g.stopped && g.tokens != [] then g.tokens[..|g.tokens| - 1] else g.tokens
  }

  lemma ReferenceEnds(m: Model, stops: Option<seq<string>>, prompt: seq<Token>, budget: int, sofar: seq<Token>)
    requires |sofar| >= budget || var id := m.next(Cells(prompt + sofar));
      id == m.eos || HitsStop(stops, m.detok(sofar + [id]))
    ensures ReferencePieces(m, stops, prompt, budget, sofar) == []
    ensures Shown(Reference(m, stops, prompt, budget, sofar)) == sofar
  {
    hide HitsStop;
    assert (sofar + [m.next(Cells(prompt + sofar))])[..|sofar|] == sofar;
  }

  lemma ReferenceContinues(m: Model, stops: Option<seq<string>>, prompt: seq<Token>, budget: int, sofar: seq<Token>)
    requires |sofar| < budget
    requires var id := m.next(Cells(prompt + sofar)); id != m.eos && !HitsStop(stops, m.detok(sofar + [id]))
    ensures var gen := sofar + [m.next(Cells(prompt + sofar))];
      && Reference(m, stops, prompt, budget, sofar) == Reference(m, stops, prompt, budget, gen)
      && ReferencePieces(m, stops, prompt, budget, sofar)
         == Piece(Text(m, sofar), Text(m, gen)) + ReferencePieces(m, stops, prompt, budget, gen)
  {
    hide HitsStop, Piece;
  }

  lemma {:induction false} ReferenceStreams(m: Model, stops: Option<seq<string>>, prompt: seq<Token>, budget: int,
                                            sofar: seq<Token>)
    ensures Pieces(m, sofar) + ReferencePieces(m, stops, prompt, budget, sofar)
      == Pieces(m, Shown(Reference(m, stops, prompt, budget, sofar)))
    decreases budget - |sofar|
  {
    hide *;
    var id := m.next(Cells(prompt + sofar));
    if |sofar| >= budget || id == m.eos || HitsStop(stops, m.detok(sofar + [id])) {
      ReferenceEnds(m, stops, prompt, budget, sofar);
    } else {
      ReferenceContinues(m, stops, prompt, budget, sofar);
      ReferenceStreams(m, stops, prompt, budget, sofar + [id]);
      PiecesSnoc(m, sofar, id);
    }
  }

  /** The reply made of the reference generation is the reference reply. */
  lemma DecodedIsMade(m: Model, req: Request, budget: int)
    ensures MakeReply(m, req, Reference(m, req.stops, req.tokens, budget, [])) == Decoded(m, req, budget)
  {
    ReferenceStreams(m, req.stops, req.tokens, budget, []);
    StreamIsPieces(m, Streamed(Reference(m, req.stops, req.tokens, budget, [])));
    hide Reference, ReferencePieces;
    assert Pieces(m, []) + ReferencePieces(m, req.stops, req.tokens, budget, [])
      == ReferencePieces(m, req.stops, req.tokens, budget, []);
  }

  ghost predicate DecodesSucceed(req: Request) {
    forall i :: req.decodeOk(i)
  }

  // ---- trimming ----

  lemma CellsPrefix(tokens: seq<Token>, lo: nat, hi: nat)
    requires lo <= hi <= |tokens|
    ensures Cells(tokens[..lo]) + Cells(tokens)[lo..hi] == Cells(tokens[..hi])
  {
  }

  /** After trimming, the sequence holds exactly the reused prefix of the prompt. */
  lemma TrimReusesPrefix(s: State, sess: Option<string>, prompt: seq<Token>)
    requires sess.Some? ==> sess.value in s.table.sessions && CoherentSession(s, sess.value)
    ensures var (s1, seqId, nPast) := Trim(s, sess, prompt);
      && s1.kv.At(seqId) == Cells(prompt[..nPast])
      && (sess.Some? ==> s1.table.sessions[sess.value] == s.table.sessions[sess.value].(tokens := prompt[..nPast]))
      && s1.kv.last == s.kv.last
  {
    if sess.None? {
      SeqRmClears(s.kv, 0);
      assert Cells(prompt[..0]) == [];
    } else {
      var Session(_, seqId, cached, _) := s.table.sessions[sess.value];
      var k := Lcp(cached, prompt);
      if k < |cached| {
        SeqRmTruncates(s.kv, seqId, cached, k);
      } else {
        assert cached[..k] == cached;
      }
    }
  }

  // ---- generation ----

  /** Whether one more token is generated after `sofar`. */
  predicate GoesOn(m: Model, req: Request, kv: Kv, budget: int, call: nat, sofar: seq<Token>) {
    |sofar| < budget && m.next(kv.last) != m.eos && req.decodeOk(call)
  }

  function PutNext(m: Model, req: Request, kv: Kv, seqId: nat, sofar: seq<Token>): Kv {
    kv.Put(Entry(m.next(kv.last), |req.tokens| + |sofar|, seqId, true))
  }

  lemma GenerateStep(m: Model, req: Request, kv: Kv, seqId: nat, budget: int, call: nat, sofar: seq<Token>)
    ensures var kv', gen := PutNext(m, req, kv, seqId, sofar), sofar + [m.next(kv.last)];
      Generate(m, req, kv, seqId, budget, call, sofar) ==
        if !GoesOn(m, req, kv, budget, call, sofar) then (Generation(sofar, false), kv)
        else if HitsStop(req.stops, m.detok(gen)) then (Generation(gen, true), kv'.SeqRm(seqId, |req.tokens| + |gen|))
        else Generate(m, req, kv', seqId, budget, call + 1, gen)
  {
    hide HitsStop;
  }

  lemma {:induction false} GenerateGrows(m: Model, req: Request, kv: Kv, seqId: nat, budget: int, call: nat,
                                         sofar: seq<Token>)
    ensures var g := Generate(m, req, kv, seqId, budget, call, sofar).0;
      sofar <= g.tokens && |g.tokens| <= (if budget > |sofar| then budget else |sofar|)
    decreases budget - |sofar|
  {
    GenerateStep(m, req, kv, seqId, budget, call, sofar);
    if GoesOn(m, req, kv, budget, call, sofar) {
      hide Generate, HitsStop, PutNext;
      GenerateGrows(m, req, PutNext(m, req, kv, seqId, sofar), seqId, budget, call + 1, sofar + [m.next(kv.last)]);
    }
  }

  lemma PutGenerated(m: Model, req: Request, kv: Kv, seqId: nat, sofar: seq<Token>)
    requires kv.At(seqId) == Cells(req.tokens + sofar)
    ensures var kv' := PutNext(m, req, kv, seqId, sofar);
      kv'.At(seqId) == kv'.last == Cells(req.tokens + (sofar + [m.next(kv.last)]))
  {
    var id := m.next(kv.last);
    assert req.tokens + (sofar + [id]) == req.tokens + sofar + [id];
    CellsSnoc(req.tokens + sofar, id);
  }

  lemma ReferenceStep(m: Model, req: Request, kv: Kv, budget: int, call: nat, sofar: seq<Token>)
    requires kv.last == Cells(req.tokens + sofar) && DecodesSucceed(req)
    ensures var gen := sofar + [m.next(kv.last)];
      Reference(m, req.stops, req.tokens, budget, sofar) ==
        if !GoesOn(m, req, kv, budget, call, sofar) then Generation(sofar, false)
        else if HitsStop(req.stops, m.detok(gen)) then Generation(gen, true)
        else Reference(m, req.stops, req.tokens, budget, gen)
  {
    hide HitsStop;
  }

  /** With the right logits and sequence to start from, the generate loop is cache-free greedy decoding. */
  lemma {:induction false} GenerateIsReference(m: Model, req: Request, kv: Kv, seqId: nat, budget: int, call: nat,
                                               sofar: seq<Token>)
    requires kv.At(seqId) == kv.last == Cells(req.tokens + sofar) && DecodesSucceed(req)
    ensures Generate(m, req, kv, seqId, budget, call, sofar).0 == Reference(m, req.stops, req.tokens, budget, sofar)
    decreases budget - |sofar|
  {
    GenerateStep(m, req, kv, seqId, budget, call, sofar);
    ReferenceStep(m, req, kv, budget, call, sofar);
    if GoesOn(m, req, kv, budget, call, sofar) {
      hide Generate, Reference, HitsStop, PutNext, DecodesSucceed;
      PutGenerated(m, req, kv, seqId, sofar);
      GenerateIsReference(m, req, PutNext(m, req, kv, seqId, sofar), seqId, budget, call + 1,
        sofar + [m.next(kv.last)]);
    }
  }

  /** A failing decode acts as a smaller budget: what came before it is the reference's. */
  lemma {:induction false} GenerateUntilFailure(m: Model, req: Request, kv: Kv, seqId: nat, budget: int, call: nat,
                                                sofar: seq<Token>, k: nat)
    requires kv.At(seqId) == kv.last == Cells(req.tokens + sofar)
    requires (forall i :: call <= i < call + k ==> req.decodeOk(i)) && !req.decodeOk(call + k)
    ensures Generate(m, req, kv, seqId, budget, call, sofar).0
      == Reference(m, req.stops, req.tokens, if budget < |sofar| + k then budget else |sofar| + k, sofar)
    decreases k
  {
    hide HitsStop, PutNext;
    var cut := if budget < |sofar| + k then budget else |sofar| + k;
    GenerateStep(m, req, kv, seqId, budget, call, sofar);
    if GoesOn(m, req, kv, budget, call, sofar) {
      hide Generate;
      var gen := sofar + [m.next(kv.last)];
      PutGenerated(m, req, kv, seqId, sofar);
      GenerateUntilFailure(m, req, PutNext(m, req, kv, seqId, sofar), seqId, budget, call + 1, gen, k - 1);
      assert cut == if budget < |gen| + (k - 1) then budget else |gen| + (k - 1);
    }
  }

  lemma PutSpares(kv: Kv, e: Entry, other: nat, k: int)
    requires other != e.seqId
    ensures kv.Put(e).At(other) == kv.Put(e).SeqRm(e.seqId, k).At(other) == kv.At(other)
  {
  }

  /** Generating leaves every other sequence alone. */
  lemma {:induction false} GenerateSpares(m: Model, req: Request, kv: Kv, seqId: nat, budget: int, call: nat,
                                          sofar: seq<Token>, other: nat)
    requires other != seqId
    ensures Generate(m, req, kv, seqId, budget, call, sofar).1.At(other) == kv.At(other)
    decreases budget - |sofar|
  {
    GenerateStep(m, req, kv, seqId, budget, call, sofar);
    if GoesOn(m, req, kv, budget, call, sofar) {
      hide Generate, HitsStop;
      var gen := sofar + [m.next(kv.last)];
      PutSpares(kv, Entry(m.next(kv.last), |req.tokens| + |sofar|, seqId, true), other, |req.tokens| + |gen|);
      GenerateSpares(m, req, PutNext(m, req, kv, seqId, sofar), seqId, budget, call + 1, gen, other);
    }
  }

  lemma HeldStop(kv: Kv, seqId: nat, tokens: seq<Token>, level: Option<nat>)
    requires Held(kv.At(seqId), tokens, level) && (level.Some? ==> level.value < |tokens|)
    ensures Held(kv.SeqRm(seqId, |tokens|).At(seqId), tokens, level)
  {
    HeldCut(kv.At(seqId), tokens, |tokens|, level);
    assert tokens[..|tokens|] == tokens;
  }

  lemma HeldPut(m: Model, req: Request, kv: Kv, seqId: nat, sofar: seq<Token>, level: Option<nat>)
    requires Held(kv.At(seqId), req.tokens + sofar, level)
    ensures Held(PutNext(m, req, kv, seqId, sofar).At(seqId), req.tokens + (sofar + [m.next(kv.last)]), level)
  {
    var id := m.next(kv.last);
    HeldAppend(kv.At(seqId), req.tokens + sofar, id, level);
    assert req.tokens + (sofar + [id]) == req.tokens + sofar + [id];
  }

  /** Generating neither spoils nor repairs a sequence. */
  lemma {:induction false} GenerateHolds(m: Model, req: Request, kv: Kv, seqId: nat, budget: int, call: nat,
                                         sofar: seq<Token>, level: Option<nat>)
    requires Held(kv.At(seqId), req.tokens + sofar, level) && (level.Some? ==> level.value <= |req.tokens|)
    ensures var (g, kv') := Generate(m, req, kv, seqId, budget, call, sofar);
      Held(kv'.At(seqId), req.tokens + g.tokens, level)
    decreases budget - |sofar|
  {
    hide *;
    GenerateStep(m, req, kv, seqId, budget, call, sofar);
    if GoesOn(m, req, kv, budget, call, sofar) {
      var kv', gen := PutNext(m, req, kv, seqId, sofar), sofar + [m.next(kv.last)];
      HeldPut(m, req, kv, seqId, sofar, level);
      if HitsStop(req.stops, m.detok(gen)) {
        HeldStop(kv', seqId, req.tokens + gen, level);
      } else {
        StillBelow(m, req, kv, budget, call, sofar);
        GenerateHolds(m, req, kv', seqId, budget, call + 1, gen, level);
      }
    }
  }

  lemma StillBelow(m: Model, req: Request, kv: Kv, budget: int, call: nat, sofar: seq<Token>)
    requires GoesOn(m, req, kv, budget, call, sofar)
    ensures |sofar| < budget
  {
  }

  // ---- one request ----

  /** The prompt has a token that is not already cached, so the request computes logits of its own. */
  predicate Fresh(s: State, sess: Option<string>, req: Request)
    requires sess.Some? ==> sess.value in s.table.sessions
  {
    Trim(s, sess, req.tokens).2 < |req.tokens|
  }

  /** The sequence a request works on: its session's, or sequence 0. */
  function OwnSeq(s: State, sess: Option<string>): nat
    requires sess.Some? ==> sess.value in s.table.sessions
  {
    if sess.Some? then s.table.sessions[sess.value].seqId else 0
  }

  /** The request changes nothing but its own session's history and its own sequence. */
  ghost predicate OnlyOwn(s: State, s': State, sess: Option<string>)
    requires sess.Some? ==> sess.value in s.table.sessions
  {
    && s'.alloc == s.alloc && s'.table.max == s.table.max && s'.table.sessions.Keys == s.table.sessions.Keys
    && (forall a :: a in s.table.sessions && Some(a) != sess ==> s'.table.sessions[a] == s.table.sessions[a])
    && (sess.Some? ==> s'.table.sessions[sess.value].seqId == s.table.sessions[sess.value].seqId)
    && (forall i :: i != OwnSeq(s, sess) ==> s'.kv.At(i) == s.kv.At(i))
  }

  /** The own sequence holds `held` afterwards and, on a session, the recorded history is `recorded`. */
  ghost predicate Holds(s': State, seqId: nat, sess: Option<string>, held: seq<Token>, recorded: seq<Token>) {
    && s'.kv.At(seqId) == Cells(held)
    && (sess.Some? ==> sess.value in s'.table.sessions && s'.table.sessions[sess.value].tokens == recorded)
  }

  lemma OnlyOwnChains(s: State, s1: State, s2: State, sess: Option<string>)
    requires sess.Some? ==> sess.value in s.table.sessions
    requires OnlyOwn(s, s1, sess) && OnlyOwn(s1, s2, sess)
    ensures OnlyOwn(s, s2, sess)
  {
  }

  lemma TrimOnlyOwn(s: State, sess: Option<string>, prompt: seq<Token>)
    requires sess.Some? ==> sess.value in s.table.sessions
    ensures OnlyOwn(s, Trim(s, sess, prompt).0, sess) && Trim(s, sess, prompt).1 == OwnSeq(s, sess)
  {
  }

  lemma SetSessionOnlyOwn(s: State, kv: Kv, sess: Option<string>, tokens: seq<Token>)
    requires sess.Some? ==> sess.value in s.table.sessions
    requires forall i :: i != OwnSeq(s, sess) ==> kv.At(i) == s.kv.At(i)
    ensures OnlyOwn(s, s.(kv := kv), sess) && OnlyOwn(s, SetSession(s.(kv := kv), sess, tokens), sess)
  {
  }

  lemma ResetEffect(s: State, sess: Option<string>)
    requires sess.Some? ==> sess.value in s.table.sessions
    ensures OnlyOwn(s, Reset(s, sess, OwnSeq(s, sess)), sess)
    ensures sess.Some? ==> Holds(Reset(s, sess, OwnSeq(s, sess)), OwnSeq(s, sess), sess, [], [])
  {
    SeqRmClears(s.kv, OwnSeq(s, sess));
    SetSessionOnlyOwn(s, s.kv.SeqRm(OwnSeq(s, sess), -1), sess, []);
    assert Cells([]) == [];
  }

  /** The most tokens a request may generate. */
  function Allowance(cfg: Config, req: Request): int {
    var budget := Budget(|req.tokens|, req.maxTokens, cfg.nCtx);
    if budget < 0 then 0 else budget
  }

  /** Feeding `tokens[nPast..hi]` to a sequence that holds the first `nPast` tokens. */
  lemma FeedEffect(kv: Kv, seqId: nat, tokens: seq<Token>, nPast: nat, hi: nat)
    requires nPast <= hi <= |tokens| && kv.At(seqId) == Cells(tokens[..nPast])
    ensures var kv' := FeedTo(kv, tokens, nPast, hi, seqId);
      && kv'.At(seqId) == Cells(tokens[..hi])
      && (hi == |tokens| && (nPast < hi || kv.last == Cells(tokens)) ==> kv'.last == Cells(tokens))
  {
    FeedToFeeds(kv, tokens, nPast, hi, seqId);
    CellsPrefix(tokens, nPast, hi);
    if hi == |tokens| { assert tokens[..hi] == tokens; }
  }

  /** Whatever the cache holds, prefill and generation stay on the own sequence. */
  lemma AnswerOnlyOwn(cfg: Config, m: Model, s: State, sess: Option<string>, nPast: nat, req: Request)
    requires cfg.Valid() && nPast <= |req.tokens| && (sess.Some? ==> sess.value in s.table.sessions)
    ensures OnlyOwn(s, Answer(cfg, m, s, sess, OwnSeq(s, sess), nPast, req).0, sess)
  {
    var seqId, pre := OwnSeq(s, sess), PrefillOf(cfg, req, nPast);
    var kv := FeedTo(s.kv, req.tokens, nPast, nPast + pre.fed, seqId);
    FeedToFeeds(s.kv, req.tokens, nPast, nPast + pre.fed, seqId);
    if pre.ok {
      var budget := Budget(|req.tokens|, req.maxTokens, cfg.nCtx);
      forall other | other != seqId
        ensures Generate(m, req, kv, seqId, budget, pre.calls, []).1.At(other) == kv.At(other)
      {
        GenerateSpares(m, req, kv, seqId, budget, pre.calls, [], other);
      }
      var (g, kv') := Generate(m, req, kv, seqId, budget, pre.calls, []);
      hide Generate, FeedTo, Fed;
      SetSessionOnlyOwn(s, kv', sess, req.tokens + g.tokens);
    } else {
      SetSessionOnlyOwn(s, kv, sess, []);
    }
  }

  /** Whatever the cache holds, a request changes nothing but its own session's history and its own sequence. */
  lemma ServeOnlyOwn(cfg: Config, m: Model, s: State, sess: Option<string>, req: Request)
    requires cfg.Valid() && (sess.Some? ==> sess.value in s.table.sessions)
    ensures OnlyOwn(s, Serve(cfg, m, s, sess, req).0, sess)
  {
    hide OnlyOwn, Answer, Reset;
    var (s1, seqId, nPast) := Trim(s, sess, req.tokens);
    TrimOnlyOwn(s, sess, req.tokens);
    OwnSeqKept(s, s1, sess);
    if Exhausted(|req.tokens|, req.maxTokens, cfg.nCtx) {
      ResetEffect(s1, sess);
    } else {
      AnswerOnlyOwn(cfg, m, s1, sess, nPast, req);
    }
    OnlyOwnChains(s, s1, Serve(cfg, m, s, sess, req).0, sess);
  }

  lemma OwnSeqKept(s: State, s': State, sess: Option<string>)
    requires (sess.Some? ==> sess.value in s.table.sessions) && OnlyOwn(s, s', sess)
    ensures sess.Some? ==> sess.value in s'.table.sessions
    ensures OwnSeq(s', sess) == OwnSeq(s, sess)
  {
  }

  /** What prefill and generation do to a coherent session. */
  lemma AnswerEffect(cfg: Config, m: Model, s: State, sess: Option<string>, nPast: nat, req: Request)
    requires cfg.Valid() && nPast <= |req.tokens|
    requires sess.Some? ==> sess.value in s.table.sessions && s.table.sessions[sess.value].tokens == req.tokens[..nPast]
    requires s.kv.At(OwnSeq(s, sess)) == Cells(req.tokens[..nPast])
    ensures var (s', reply) := Answer(cfg, m, s, sess, OwnSeq(s, sess), nPast, req);
      var pre := PrefillOf(cfg, req, nPast);
      && (pre.ok ==>
            && Holds(s', OwnSeq(s, sess), sess, req.tokens + reply.generated, req.tokens + reply.generated)
            && reply.prefilled == Some(|req.tokens|) && |reply.generated| <= Allowance(cfg, req))
      && (!pre.ok ==>
            && reply == NO_REPLY
            && Holds(s', OwnSeq(s, sess), sess, req.tokens[..nPast + pre.fed], req.tokens[..nPast]))
  {
    var seqId, pre := OwnSeq(s, sess), PrefillOf(cfg, req, nPast);
    var hi := nPast + pre.fed;
    var kv := FeedTo(s.kv, req.tokens, nPast, hi, seqId);
    FeedEffect(s.kv, seqId, req.tokens, nPast, hi);
    if pre.ok {
      assert req.tokens[..hi] == req.tokens == req.tokens + [];
      var budget := Budget(|req.tokens|, req.maxTokens, cfg.nCtx);
      GenerateHolds(m, req, kv, seqId, budget, pre.calls, [], None);
      GenerateGrows(m, req, kv, seqId, budget, pre.calls, []);
    }
  }

  /** The same for a session at any level. */
  lemma AnswerHolds(cfg: Config, m: Model, s: State, a: string, nPast: nat, req: Request, level: Option<nat>)
    requires cfg.Valid() && nPast <= |req.tokens| && a in s.table.sessions
    requires s.table.sessions[a].tokens == req.tokens[..nPast] && Held(CellsOf(s, a), req.tokens[..nPast], level)
    ensures var s' := Answer(cfg, m, s, Some(a), s.table.sessions[a].seqId, nPast, req).0;
      var pre := PrefillOf(cfg, req, nPast);
      && a in s'.table.sessions
      && Held(CellsOf(s', a), s'.table.sessions[a].tokens,
              if !pre.ok && pre.fed > 0 then Spoilt(level, nPast) else level)
  {
    var seqId, pre := s.table.sessions[a].seqId, PrefillOf(cfg, req, nPast);
    var hi := nPast + pre.fed;
    var kv := FeedTo(s.kv, req.tokens, nPast, hi, seqId);
    FeedToFeeds(s.kv, req.tokens, nPast, hi, seqId);
    assert level.Some? ==> level.value <= nPast;
    hide Held;
    if pre.ok {
      HeldFed(s.kv.At(seqId), req.tokens, nPast, hi, level);
      assert req.tokens[..hi] == req.tokens == req.tokens + [];
      GenerateHolds(m, req, kv, seqId, Budget(|req.tokens|, req.maxTokens, cfg.nCtx), pre.calls, [], level);
    } else if pre.fed > 0 {
      HeldUnrecorded(s.kv.At(seqId), req.tokens, nPast, hi, level);
    } else {
      assert s.kv.At(seqId) + Cells(req.tokens)[nPast..hi] == s.kv.At(seqId);
    }
  }

  lemma PrefillSucceeds(cfg: Config, req: Request, nPast: nat)
    requires cfg.Valid() && nPast <= |req.tokens| && DecodesSucceed(req)
    ensures PrefillOf(cfg, req, nPast).ok
  {
  }

  /** With the prompt's own logits at hand, the reply is that of the cache-free generation. */
  lemma AnswerReply(cfg: Config, m: Model, s: State, sess: Option<string>, seqId: nat, nPast: nat, req: Request)
    requires cfg.Valid() && nPast <= |req.tokens| && DecodesSucceed(req)
    requires sess.Some? ==> sess.value in s.table.sessions
    requires s.kv.At(seqId) == Cells(req.tokens[..nPast])
    requires nPast < |req.tokens| || s.kv.last == Cells(req.tokens)
    ensures Answer(cfg, m, s, sess, seqId, nPast, req).1
      == Decoded(m, req, Budget(|req.tokens|, req.maxTokens, cfg.nCtx))
  {
    var pre := PrefillOf(cfg, req, nPast);
    FeedEffect(s.kv, seqId, req.tokens, nPast, nPast + pre.fed);
    assert req.tokens[..|req.tokens|] == req.tokens == req.tokens + [];
    var kv := FeedTo(s.kv, req.tokens, nPast, nPast + pre.fed, seqId);
    PrefillSucceeds(cfg, req, nPast);
    var budget := Budget(|req.tokens|, req.maxTokens, cfg.nCtx);
    GenerateIsReference(m, req, kv, seqId, budget, pre.calls, []);
    hide Decoded, MakeReply, Generate, Reference, FeedTo;
    DecodedIsMade(m, req, budget);
  }

  /** The whole effect of serving a request whose session is coherent. */
  lemma ServeEffect(cfg: Config, m: Model, s: State, sess: Option<string>, req: Request)
    requires cfg.Valid()
    requires sess.Some? ==> sess.value in s.table.sessions && CoherentSession(s, sess.value)
    ensures var (s', reply) := Serve(cfg, m, s, sess, req);
      var seqId, nPast := OwnSeq(s, sess), Trim(s, sess, req.tokens).2;
      var pre := PrefillOf(cfg, req, nPast);
      && OnlyOwn(s, s', sess)
      && if Exhausted(|req.tokens|, req.maxTokens, cfg.nCtx) then
           reply == NO_REPLY && (sess.Some? ==> Holds(s', seqId, sess, [], []))
         else if pre.ok then
           && Holds(s', seqId, sess, req.tokens + reply.generated, req.tokens + reply.generated)
           && reply.prefilled == Some(|req.tokens|) && |reply.generated| <= Allowance(cfg, req)
         else
           reply == NO_REPLY && Holds(s', seqId, sess, req.tokens[..nPast + pre.fed], req.tokens[..nPast])
  {
    var (s1, seqId, nPast) := Trim(s, sess, req.tokens);
    ServeOnlyOwn(cfg, m, s, sess, req);
    TrimReusesPrefix(s, sess, req.tokens);
    TrimOnlyOwn(s, sess, req.tokens);
    hide OnlyOwn;
    if Exhausted(|req.tokens|, req.maxTokens, cfg.nCtx) {
      ResetEffect(s1, sess);
    } else {
      AnswerEffect(cfg, m, s1, sess, nPast, req);
    }
  }

  // ---- what one request does to its session's level ----

  /** The session's prefill decodes its first batch and fails on a later one. */
  ghost predicate PartialPrefill(cfg: Config, s: State, sess: Option<string>, req: Request)
    requires cfg.Valid() && (sess.Some? ==> sess.value in s.table.sessions)
  {
    && sess.Some? && !Exhausted(|req.tokens|, req.maxTokens, cfg.nCtx)
    && FailsLater(req.decodeOk, |PrefillBatches(cfg, req, Trim(s, sess, req.tokens).2, OwnSeq(s, sess))|)
  }

  /** The level once the part of the history that the prompt does not share is cut off. */
  function TrimmedLevel(s: State, a: string, prompt: seq<Token>, level: Option<nat>): Option<nat>
    requires a in s.table.sessions
  {
    var cached := s.table.sessions[a].tokens;
    var k := Lcp(cached, prompt);
    if k < |cached| then Cut(level, k) else level
  }

  ghost function NextLevel(cfg: Config, s: State, a: string, req: Request, level: Option<nat>): Option<nat>
    requires cfg.Valid() && a in s.table.sessions
  {
    var trimmed := TrimmedLevel(s, a, req.tokens, level);
    if Exhausted(|req.tokens|, req.maxTokens, cfg.nCtx) then None
    else if PartialPrefill(cfg, s, Some(a), req) then Spoilt(trimmed, Trim(s, Some(a), req.tokens).2)
    else trimmed
  }

  lemma TrimHolds(s: State, a: string, prompt: seq<Token>, level: Option<nat>)
    requires a in s.table.sessions && Held(CellsOf(s, a), s.table.sessions[a].tokens, level)
    ensures var (s1, seqId, nPast) := Trim(s, Some(a), prompt);
      && a in s1.table.sessions && s1.table.sessions[a].tokens == prompt[..nPast]
      && s1.table.sessions[a].seqId == seqId == s.table.sessions[a].seqId
      && Held(CellsOf(s1, a), prompt[..nPast], TrimmedLevel(s, a, prompt, level))
  {
    var cached := s.table.sessions[a].tokens;
    var k := Lcp(cached, prompt);
    if k < |cached| {
      HeldCut(CellsOf(s, a), cached, k, level);
    } else {
      assert cached[..k] == cached;
    }
  }

  /**
   What a request makes of its session, exactly. A history spoilt at level `d` is repaired when the prompt leaves
   it at or below `d`, or when it outgrew the context; else it keeps a cell too many at position `d`.
   */
  lemma ServeHolds(cfg: Config, m: Model, s: State, a: string, req: Request, level: Option<nat>)
    requires cfg.Valid() && a in s.table.sessions && Held(CellsOf(s, a), s.table.sessions[a].tokens, level)
    ensures var s' := Serve(cfg, m, s, Some(a), req).0;
      a in s'.table.sessions && Held(CellsOf(s', a), s'.table.sessions[a].tokens, NextLevel(cfg, s, a, req, level))
  {
    var (s1, seqId, nPast) := Trim(s, Some(a), req.tokens);
    var trimmed := TrimmedLevel(s, a, req.tokens, level);
    TrimHolds(s, a, req.tokens, level);
    hide Held, Trim, TrimmedLevel, Answer, Reset, FailsLater, PrefillBatches, Spoilt, Exhausted;
    if Exhausted(|req.tokens|, req.maxTokens, cfg.nCtx) {
      ResetHolds(s1, a);
    } else {
      AnswerHolds(cfg, m, s1, a, nPast, req, trimmed);
      FailsLaterExactly(cfg, req, nPast, seqId);
    }
  }

  lemma ResetHolds(s: State, a: string)
    requires a in s.table.sessions
    ensures var s' := Reset(s, Some(a), s.table.sessions[a].seqId);
      a in s'.table.sessions && Held(CellsOf(s', a), s'.table.sessions[a].tokens, None)
  {
    SeqRmClears(s.kv, s.table.sessions[a].seqId);
  }

  // ---- what a request keeps ----

  lemma OnlyOwnKeepsIds(s: State, s': State, sess: Option<string>)
    requires Ids(s) && (sess.Some? ==> sess.value in s.table.sessions) && OnlyOwn(s, s', sess)
    ensures Ids(s')
  {
    forall a | a in s.table.sessions ensures s'.table.sessions[a].seqId == s.table.sessions[a].seqId {
      if Some(a) == sess { assert sess.value == a; }
    }
    SameIdsKeep(s, s');
  }

  lemma OnlyOwnKeepsFree(s: State, s': State, sess: Option<string>)
    requires Ids(s) && FreeEmpty(s) && (sess.Some? ==> sess.value in s.table.sessions) && OnlyOwn(s, s', sess)
    ensures FreeEmpty(s')
  {
    forall i | s'.alloc.Free(i) ensures s'.kv.At(i) == [] {
      assert s.alloc.Free(i) && i != OwnSeq(s, sess);
    }
  }

  lemma OnlyOwnSpares(s: State, s': State, sess: Option<string>, a: string)
    requires Ids(s) && (sess.Some? ==> sess.value in s.table.sessions) && OnlyOwn(s, s', sess)
    requires a in s.table.sessions && Some(a) != sess
    ensures Same(s, s', a)
  {
    assert s.table.sessions[a].seqId != OwnSeq(s, sess);
  }

  /** The ids and the empty sequences of free ids survive every request, coherent or not. */
  lemma ServeKeepsIds(cfg: Config, m: Model, s: State, sess: Option<string>, req: Request)
    requires cfg.Valid() && Ids(s) && (sess.Some? ==> sess.value in s.table.sessions)
    ensures Ids(Serve(cfg, m, s, sess, req).0)
    ensures FreeEmpty(s) ==> FreeEmpty(Serve(cfg, m, s, sess, req).0)
  {
    hide Ids, FreeEmpty, Serve;
    ServeOnlyOwn(cfg, m, s, sess, req);
    OnlyOwnKeepsIds(s, Serve(cfg, m, s, sess, req).0, sess);
    if FreeEmpty(s) { OnlyOwnKeepsFree(s, Serve(cfg, m, s, sess, req).0, sess); }
  }

  /** Coherence of all sessions survives exactly unless a session's prefill fails part-way. */
  lemma ServeKeeps(cfg: Config, m: Model, s: State, sess: Option<string>, req: Request)
    requires cfg.Valid() && Inv(s) && (sess.Some? ==> sess.value in s.table.sessions)
    ensures Coherent(Serve(cfg, m, s, sess, req).0) <==> !PartialPrefill(cfg, s, sess, req)
  {
    var s' := Serve(cfg, m, s, sess, req).0;
    ServeOnlyOwn(cfg, m, s, sess, req);
    ServeKeepsIds(cfg, m, s, sess, req);
    if sess.Some? {
      assert CoherentSession(s, sess.value);
      ServeHolds(cfg, m, s, sess.value, req, None);
      LevelIsIncoherent(CellsOf(s', sess.value), s'.table.sessions[sess.value].tokens,
        NextLevel(cfg, s, sess.value, req, None));
    }
    hide Ids, FreeEmpty, Serve, Held, PartialPrefill;
    OnlyOwnSparesCoherence(s, s', sess);
  }

  lemma OnlyOwnSparesCoherence(s: State, s': State, sess: Option<string>)
    requires Inv(s) && (sess.Some? ==> sess.value in s.table.sessions) && OnlyOwn(s, s', sess) && FreeEmpty(s')
    ensures sess.Some? ==> sess.value in s'.table.sessions
    ensures Coherent(s') <==> (sess.Some? ==> CoherentSession(s', sess.value))
  {
    forall a | a in s'.table.sessions && Some(a) != sess ensures CoherentSession(s', a) {
      assert CoherentSession(s, a);
      OnlyOwnSpares(s, s', sess, a);
    }
  }
}
