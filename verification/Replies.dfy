/** What every reply of the completion server says: its text, its pieces, and where it stops. */
module Replies {
  import opened Options
  import opened SessionTables
  import opened KvCaches
  import opened Completion
  import opened Streaming
  import opened CompletionTheorems
  import opened ServerRuns

  /** A stop sequence ended the generation exactly if one stands in the text, and none stood in any shorter text. */
  ghost predicate StopsAtFirst(m: Model, stops: Option<seq<string>>, g: Generation) {
    && (g.stopped <==> HitsStop(stops, Text(m, g.tokens)))
    && forall k :: 0 <= k < |g.tokens| ==> !HitsStop(stops, Text(m, g.tokens[..k]))
  }

  ghost predicate NoStopIn(m: Model, stops: Option<seq<string>>, tokens: seq<Token>) {
    forall k :: 0 <= k <= |tokens| ==> !HitsStop(stops, Text(m, tokens[..k]))
  }

  lemma NoStopSnoc(m: Model, stops: Option<seq<string>>, tokens: seq<Token>, id: Token)
    requires NoStopIn(m, stops, tokens)
    ensures var gen := tokens + [id]; var hit := HitsStop(stops, m.detok(gen));
      && StopsAtFirst(m, stops, Generation(gen, hit)) && (!hit ==> NoStopIn(m, stops, gen))
      && StopsAtFirst(m, stops, Generation(tokens, false))
  {
    hide HitsStop;
    var gen := tokens + [id];
    assert gen[..|gen|] == gen && tokens[..|tokens|] == tokens;
    forall k | 0 <= k <= |tokens| ensures gen[..k] == tokens[..k] {
    }
  }

  lemma {:induction false} GenerateStops(m: Model, req: Request, kv: Kv, seqId: nat, budget: int, call: nat,
                                         sofar: seq<Token>)
    requires NoStopIn(m, req.stops, sofar)
    ensures StopsAtFirst(m, req.stops, Generate(m, req, kv, seqId, budget, call, sofar).0)
    decreases budget - |sofar|
  {
    hide *;
    GenerateStep(m, req, kv, seqId, budget, call, sofar);
    NoStopSnoc(m, req.stops, sofar, m.next(kv.last));
    if GoesOn(m, req, kv, budget, call, sofar) {
      var gen := sofar + [m.next(kv.last)];
      if !HitsStop(req.stops, m.detok(gen)) {
        StillBelow(m, req, kv, budget, call, sofar);
        GenerateStops(m, req, PutNext(m, req, kv, seqId, sofar), seqId, budget, call + 1, gen);
      }
    }
  }

  /** A reply that says nothing, or one made of a generation that stops where it should. */
  ghost predicate Made(m: Model, req: Request, r: Reply) {
    r == Reply([], "", [], None) || exists g :: r == MakeReply(m, req, g) && StopsAtFirst(m, req.stops, g)
  }

  lemma AnswerIsMade(cfg: Config, m: Model, s: State, sess: Option<string>, seqId: nat, nPast: nat, req: Request)
    requires cfg.Valid() && nPast <= |req.tokens| && (sess.Some? ==> sess.value in s.table.sessions)
    ensures Made(m, req, Answer(cfg, m, s, sess, seqId, nPast, req).1)
  {
    var pre := PrefillOf(cfg, req, nPast);
    var kv := FeedTo(s.kv, req.tokens, nPast, nPast + pre.fed, seqId);
    NothingIsContained(req.stops);
    assert NoStopIn(m, req.stops, []);
    hide FeedTo, Generate, MakeReply, StopsAtFirst, NoStopIn, HitsStop;
    GenerateStops(m, req, kv, seqId, Budget(|req.tokens|, req.maxTokens, cfg.nCtx), pre.calls, []);
  }

  lemma CompleteIsMade(cfg: Config, m: Model, s: State, req: Request, ch: Choice)
    requires cfg.Valid() && s.alloc.Valid() && Legit(s, req, ch)
    ensures Made(m, req, Complete(cfg, m, s, req, ch).1)
  {
    if req.tokens != [] {
      var (s', sess) := Resolve(s, req, ch);
      var (s1, seqId, nPast) := Trim(s', sess, req.tokens);
      hide Resolve, Trim, Answer, Legit, MakeReply, StopsAtFirst;
      AnswerIsMade(cfg, m, s1, sess, seqId, nPast, req);
    }
  }

  /** The tokens of a reply whose text is streamed: all, but for one that completes a stop sequence. */
  function Sent(req: Request, r: Reply): seq<Token> {
    if HitsStop(req.stops, r.text) && r.generated != [] then r.generated[..|r.generated| - 1] else r.generated
  }

  /**
   In any state and whatever fails: the text is that of all tokens generated, no stop sequence stands in the text of
   fewer, and the pieces are those of all tokens but one that completes a stop sequence.
   */
  lemma ReplyExactly(cfg: Config, m: Model, s: State, req: Request, ch: Choice)
    requires cfg.Valid() && s.alloc.Valid() && Legit(s, req, ch)
    ensures var r := Complete(cfg, m, s, req, ch).1;
      && r.text == Text(m, r.generated)
      && (forall k :: 0 <= k < |r.generated| ==> !HitsStop(req.stops, Text(m, r.generated[..k])))
      && r.pieces == (if req.streaming then Pieces(m, Sent(req, r)) else [])
      && (r.prefilled == Some(|req.tokens|) || r == Reply([], "", [], None))
  {
    CompleteIsMade(cfg, m, s, req, ch);
    var r := Complete(cfg, m, s, req, ch).1;
    hide Complete, Legit, Stream;
    NothingIsContained(req.stops);
    if r != Reply([], "", [], None) {
      var g :| r == MakeReply(m, req, g) && StopsAtFirst(m, req.stops, g);
      StreamIsPieces(m, Streamed(g));
      hide HitsStop;
    } else {
      assert Pieces(m, []) == [];
    }
  }

  /** The pieces of a streamed reply join to the text of the tokens sent exactly if no token rewrites the text. */
  lemma ReplyPiecesExactly(cfg: Config, m: Model, s: State, req: Request, ch: Choice)
    requires cfg.Valid() && s.alloc.Valid() && Legit(s, req, ch) && req.streaming
    ensures var r := Complete(cfg, m, s, req, ch).1;
      && (Flatten(r.pieces) == Text(m, Sent(req, r)) <==> PrefixMonotone(m, Sent(req, r)))
      && (!HitsStop(req.stops, r.text) && PrefixMonotone(m, r.generated) ==> Flatten(r.pieces) == r.text)
  {
    ReplyExactly(cfg, m, s, req, ch);
    var r := Complete(cfg, m, s, req, ch).1;
    hide Complete, Legit, HitsStop;
    StreamExact(m, Sent(req, r));
    StreamIsPieces(m, Sent(req, r));
  }

  /**
   A request on a cleanly reused sequence whose prompt was decoded is answered by the reference up to the first
   decode that fails: with one token for each that succeeded.
   */
  lemma FailedDecodeEndsReply(cfg: Config, m: Model, s: State, req: Request, ch: Choice, k: nat)
    requires cfg.Valid() && s.alloc.Valid() && Legit(s, req, ch) && req.tokens != []
    requires ReusesCleanly(s, req, ch) && FeedsSomething(s, req, ch)
    requires !Exhausted(|req.tokens|, req.maxTokens, cfg.nCtx)
    requires var (s', sess) := Resolve(s, req, ch);
      var pre := PrefillOf(cfg, req, Trim(s', sess, req.tokens).2);
      pre.ok && !req.decodeOk(pre.calls + k) && forall i :: pre.calls <= i < pre.calls + k ==> req.decodeOk(i)
    ensures var budget := Budget(|req.tokens|, req.maxTokens, cfg.nCtx);
      Complete(cfg, m, s, req, ch).1 == Decoded(m, req, if budget < k then budget else k)
  {
    var (s', sess) := Resolve(s, req, ch);
    var (s1, seqId, nPast) := Trim(s', sess, req.tokens);
    hide Resolve, Trim, Legit, Answer, Decoded;
    AnswerUntilFailure(cfg, m, s1, sess, seqId, nPast, req, k);
  }

  lemma AnswerUntilFailure(cfg: Config, m: Model, s: State, sess: Option<string>, seqId: nat, nPast: nat, req: Request,
                           k: nat)
    requires cfg.Valid() && nPast < |req.tokens| && (sess.Some? ==> sess.value in s.table.sessions)
    requires s.kv.At(seqId) == Cells(req.tokens[..nPast])
    requires var pre := PrefillOf(cfg, req, nPast);
      pre.ok && !req.decodeOk(pre.calls + k) && forall i :: pre.calls <= i < pre.calls + k ==> req.decodeOk(i)
    ensures var budget := Budget(|req.tokens|, req.maxTokens, cfg.nCtx);
      Answer(cfg, m, s, sess, seqId, nPast, req).1 == Decoded(m, req, if budget < k then budget else k)
  {
    var pre := PrefillOf(cfg, req, nPast);
    FeedEffect(s.kv, seqId, req.tokens, nPast, nPast + pre.fed);
    assert req.tokens[..|req.tokens|] == req.tokens == req.tokens + [];
    var kv := FeedTo(s.kv, req.tokens, nPast, nPast + pre.fed, seqId);
    var budget := Budget(|req.tokens|, req.maxTokens, cfg.nCtx);
    GenerateUntilFailure(m, req, kv, seqId, budget, pre.calls, [], k);
    hide Decoded, MakeReply, Generate, Reference, FeedTo;
    DecodedIsMade(m, req, if budget < k then budget else k);
  }
}
