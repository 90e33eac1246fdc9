/**
 `Server::Impl::complete_stream` (`src/inference/server.cpp`) as a function from one server state to the
 next. The model, its tokenizer and llama.cpp's failures are parameters.
 */
module Completion {
  import opened Options
  import opened SeqAllocation
  import opened SessionTables
  import opened KvCaches

  /** Greedy sampling is a function of the context; the detokenizer maps no tokens to no text. */
  datatype Model = Model(next: seq<Cell> -> Token, eos: Token, detok: seq<Token> -> string)

  datatype Config = Config(nCtx: nat, nBatch: nat) {
    predicate Valid() {
      0 < nCtx < 0x8000_0000 && nBatch > 0
    }
  }

  /** `decodeOk(i)` tells whether the request's `i`-th call of `llama_decode` succeeds. */
  datatype Request = Request(
    tokens: seq<Token>, maxTokens: int, sessionId: string, fallback: bool,
    streaming: bool, stops: Option<seq<string>>, decodeOk: nat -> bool)
  {
    predicate Valid() {
      |tokens| < 0x8000_0000 && -0x8000_0000 <= maxTokens < 0x8000_0000
    }
  }

  /** The completion, the pieces passed to `on_token`, and the count passed to `on_prefill`. */
  datatype Reply = Reply(generated: seq<Token>, text: string, pieces: seq<string>, prefilled: Option<nat>)

  const NO_REPLY := Reply([], "", [], None)

  datatype State = State(alloc: Pool, table: Table, kv: Kv)

  /** What the hash map's iteration order decides: the LRU victims and the longest-prefix match. */
  datatype Choice = Choice(victim: string, insertVictim: string, pick: Option<string>)

  // ---- resolving the session ----

  function Evict(s: State, victim: string): State
    requires s.alloc.Valid() && victim in s.table.sessions
  {
    var id := s.table.sessions[victim].seqId;
    State(s.alloc.GiveBack(id), s.table.Erase(victim), s.kv.SeqRm(id, -1))
  }

  predicate MustEvict(s: State)
    requires s.alloc.Valid()
  {
    s.alloc.Take().0.None? && |s.table.sessions| > 0
  }

  function Claim(s: State): (r: (State, Option<nat>))
    requires s.alloc.Valid()
    ensures r.0.alloc.Valid()
  {
    TakeExact(s.alloc);
    var (id, pool) := s.alloc.Take();
    (s.(alloc := pool), id)
  }

  /** A sequence id for a new session, evicting the victim and retrying once when there is none. */
  function Allocate(s: State, victim: string): (r: (State, Option<nat>))
    requires s.alloc.Valid() && (MustEvict(s) ==> victim in s.table.sessions)
    ensures r.0.alloc.Valid()
  {
    if MustEvict(s) then Claim(Evict(s, victim)) else Claim(s)
  }

  /** `insert`, freeing the session it evicts, and the `find` that follows it. */
  function Admit(s: State, id: string, seqId: nat, victim: string): State
    requires s.alloc.Valid() && (s.table.InsertEvicts(id) ==> victim in s.table.sessions)
  {
    var s' := if s.table.InsertEvicts(id) then Evict(s, victim) else s;
    s'.(table := s.table.Insert(id, seqId, victim).Find(id))
  }

  predicate NeedsId(s: State, req: Request) {
    req.sessionId != "" && req.sessionId !in s.table.sessions
  }

  ghost predicate Legit(s: State, req: Request, ch: Choice)
    requires s.alloc.Valid()
  {
    req.tokens == [] ||
    (&& (NeedsId(s, req) && MustEvict(s) ==> s.table.IsVictim(ch.victim))
     && (NeedsId(s, req) ==>
           var (s', id) := Allocate(s, ch.victim);
           id.Some? && s'.table.InsertEvicts(req.sessionId) ==> s'.table.IsVictim(ch.insertVictim))
     && (req.sessionId == "" && req.fallback ==> s.table.IsPick(req.tokens, ch.pick)))
  }

  ghost function Resolve(s: State, req: Request, ch: Choice): (r: (State, Option<string>))
    requires s.alloc.Valid() && Legit(s, req, ch) && req.tokens != []
    ensures r.1.Some? ==> r.1.value in r.0.table.sessions
    ensures r.0.alloc.Valid() && r.0.kv.last == s.kv.last
  {
    if NeedsId(s, req) then
      var (s', id) := Allocate(s, ch.victim);
      if id.None? then (s', None) else (Admit(s', req.sessionId, id.value, ch.insertVictim), Some(req.sessionId))
    else if req.sessionId != "" then
      (s.(table := s.table.Find(req.sessionId)), Some(req.sessionId))
    else if req.fallback && ch.pick.Some? then
      (s.(table := s.table.Touch(ch.pick.value)), ch.pick)
    else
      (s, None)
  }

  // ---- reusing the cached prefix ----

  /** The length of the longest common prefix. */
  function Lcp(a: seq<Token>, b: seq<Token>): (k: nat)
    ensures k <= |a| && k <= |b| && forall i :: 0 <= i < k ==> a[i] == b[i]
    ensures k < |a| && k < |b| ==> a[k] != b[k]
  {
    if a == [] || b == [] || a[0] != b[0] then 0
    else
      Lcp(a[1..], b[1..]) + 1
  }

  /** The trimmed state, the sequence to use, and the number of prompt tokens already cached on it. */
  function Trim(s: State, sess: Option<string>, prompt: seq<Token>): (r: (State, nat, nat))
    requires sess.Some? ==> sess.value in s.table.sessions
    ensures r.2 <= |prompt| && r.0.table.sessions.Keys == s.table.sessions.Keys && r.0.alloc == s.alloc
  {
    if sess.None? then (s.(kv := s.kv.SeqRm(0, -1)), 0, 0)
    else
      var Session(_, seqId, cached, _) := s.table.sessions[sess.value];
      var k := Lcp(cached, prompt);
      if k < |cached| then
        (s.(table := s.table.SetTokens(sess.value, cached[..k]), kv := s.kv.SeqRm(seqId, k)), seqId, k)
      else
        (s, seqId, k)
  }

  // ---- the context bound, in the code's 32-bit arithmetic ----

  function U32(x: int): nat {
    x % 0x1_0000_0000
  }

  predicate OverContext(nPrompt: nat, maxTokens: int, nCtx: nat) {
    U32(U32(nPrompt) + U32(maxTokens)) >= nCtx
  }

  function Budget(nPrompt: nat, maxTokens: int, nCtx: nat): int {
    if OverContext(nPrompt, maxTokens, nCtx) then nCtx - nPrompt - 1 else maxTokens
  }

  predicate Exhausted(nPrompt: nat, maxTokens: int, nCtx: nat) {
    OverContext(nPrompt, maxTokens, nCtx) && Budget(nPrompt, maxTokens, nCtx) <= 0
  }

  // ---- prefill ----

  function ChunkSize(feed: nat, nBatch: nat): (n: nat)
    requires nBatch > 0
    ensures 0 < n <= nBatch
  {
    var n := if feed < 1 then 1 else feed;
    if n < nBatch then n else nBatch
  }

  /** How many tokens the batches fed before the first failure, and how many calls that took. */
  datatype Prefill = Prefill(fed: nat, calls: nat, ok: bool)

  function RunPrefill(decodeOk: nat -> bool, feed: nat, chunk: nat, start: nat, call: nat): (p: Prefill)
    requires chunk > 0
    ensures p.fed <= feed && (p.ok ==> p.fed == feed)
    ensures !p.ok ==> p.fed < feed && exists i :: i >= call && !decodeOk(i)
    decreases if start < feed then feed - start else 0
  {
    if start >= feed then Prefill(feed, call, true)
    else if !decodeOk(call) then Prefill(start, call + 1, false)
    else RunPrefill(decodeOk, feed, chunk, start + chunk, call + 1)
  }

  // ---- generation ----

  predicate OccursAt(text: string, pattern: string, i: nat) {
    i + |pattern| <= |text| && text[i..i + |pattern|] == pattern
  }

  predicate Contains(text: string, pattern: string) {
    exists i | 0 <= i <= |text| :: OccursAt(text, pattern, i)
  }

  predicate HitsStop(stops: Option<seq<string>>, text: string) {
    stops.Some? && exists i | 0 <= i < |stops.value| :: stops.value[i] != "" && Contains(text, stops.value[i])
  }

  /** The tokens generated and whether a stop sequence ended the generation. */
  datatype Generation = Generation(tokens: seq<Token>, stopped: bool)

  function Generate(m: Model, req: Request, kv: Kv, seqId: nat, budget: int, call: nat, sofar: seq<Token>)
    : (Generation, Kv)
    decreases budget - |sofar|
  {
    if |sofar| >= budget then (Generation(sofar, false), kv)
    else
      var id := m.next(kv.last);
      if id == m.eos || !req.decodeOk(call) then (Generation(sofar, false), kv)
      else
        var kv' := kv.Put(Entry(id, |req.tokens| + |sofar|, seqId, true));
        var gen := sofar + [id];
        if HitsStop(req.stops, m.detok(gen)) then (Generation(gen, true), kv'.SeqRm(seqId, |req.tokens| + |gen|))
        else Generate(m, req, kv', seqId, budget, call + 1, gen)
  }

  // ---- streaming ----

  /** What one more token does to the pieces sent and the text remembered as sent, `full` being the new text. */
  function Emit(sent: (seq<string>, string), full: string): (seq<string>, string) {
    var (pieces, emitted) := sent;
    if |full| > |emitted| && emitted <= full then (pieces + [full[|emitted|..]], full)
    else if full != emitted then (pieces + [full], full)
    else sent
  }

  /** The `on_token` calls after the tokens `gen`, and the text remembered as sent. */
  function Stream(m: Model, gen: seq<Token>): (seq<string>, string) {
    if gen == [] then ([], "") else Emit(Stream(m, gen[..|gen| - 1]), m.detok(gen))
  }

  /** The last token of a generation that hit a stop sequence is not streamed. */
  function Streamed(g: Generation): seq<Token> {
    if g.stopped && g.tokens != [] then g.tokens[..|g.tokens| - 1] else g.tokens
  }

  function MakeReply(m: Model, req: Request, g: Generation): Reply {
    Reply(g.tokens, if g.tokens == [] then "" else m.detok(g.tokens),
          if req.streaming then Stream(m, Streamed(g)).0 else [], Some(|req.tokens|))
  }

  // ---- the whole request ----

  function SetSession(s: State, sess: Option<string>, tokens: seq<Token>): State
    requires sess.Some? ==> sess.value in s.table.sessions
  {
    if sess.Some? then s.(table := s.table.SetTokens(sess.value, tokens)) else s
  }

  function PrefillOf(cfg: Config, req: Request, nPast: nat): (p: Prefill)
    requires cfg.Valid() && nPast <= |req.tokens|
    ensures nPast + p.fed <= |req.tokens|
  {
    var feed := |req.tokens| - nPast;
    RunPrefill(req.decodeOk, feed, ChunkSize(feed, cfg.nBatch), 0, 0)
  }

  /** A session that has outgrown the context is emptied. */
  function Reset(s: State, sess: Option<string>, seqId: nat): State
    requires sess.Some? ==> sess.value in s.table.sessions
  {
    if sess.Some? then SetSession(s.(kv := s.kv.SeqRm(seqId, -1)), sess, []) else s
  }

  /** Prefill the prompt beyond the first `nPast` tokens, generate, and record the session's history. */
  function Answer(cfg: Config, m: Model, s: State, sess: Option<string>, seqId: nat, nPast: nat, req: Request)
    : (r: (State, Reply))
    requires cfg.Valid() && nPast <= |req.tokens| && (sess.Some? ==> sess.value in s.table.sessions)
    ensures r.0.alloc == s.alloc
  {
    var pre := PrefillOf(cfg, req, nPast);
    var kv := FeedTo(s.kv, req.tokens, nPast, nPast + pre.fed, seqId);
    if !pre.ok then (s.(kv := kv), NO_REPLY)
    else
      var budget := Budget(|req.tokens|, req.maxTokens, cfg.nCtx);
      var (g, kv') := Generate(m, req, kv, seqId, budget, pre.calls, []);
      (SetSession(s.(kv := kv'), sess, req.tokens + g.tokens), MakeReply(m, req, g))
  }

  /** Everything after the session is resolved. */
  function Serve(cfg: Config, m: Model, s: State, sess: Option<string>, req: Request): (r: (State, Reply))
    requires cfg.Valid() && (sess.Some? ==> sess.value in s.table.sessions)
    ensures r.0.alloc == s.alloc
  {
    var (s', seqId, nPast) := Trim(s, sess, req.tokens);
    if Exhausted(|req.tokens|, req.maxTokens, cfg.nCtx) then (Reset(s', sess, seqId), NO_REPLY)
    else Answer(cfg, m, s', sess, seqId, nPast, req)
  }

  ghost function Complete(cfg: Config, m: Model, s: State, req: Request, ch: Choice): (r: (State, Reply))
    requires cfg.Valid() && s.alloc.Valid() && Legit(s, req, ch)
    ensures r.0.alloc.Valid()
  {
    if req.tokens == [] then (s, NO_REPLY)
    else
      var (s', sess) := Resolve(s, req, ch);
      Serve(cfg, m, s', sess, req)
  }
}
