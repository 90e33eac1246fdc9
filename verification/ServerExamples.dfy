/** Runs from the initial state in which the completion server breaks a promise. */
module ServerExamples {
  import opened Options
  import opened SeqAllocation
  import opened SessionTables
  import opened KvCaches
  import opened Completion
  import opened SessionInvariants
  import opened CompletionTheorems
  import opened Prefilling
  import opened ServerRuns
  import opened SessionOrder

  const NO_CHOICE: Choice := Choice("", "", None)

  function Ask(tokens: seq<Token>, maxTokens: int, session: string): Request {
    Request(tokens, maxTokens, session, false, false, None, (i: nat) => true)
  }

  // ---- opening sessions one after another ----

  /** The name of the session opened `i`-th: "a", "aa", "aaa", ... */
  function Name(i: nat): (name: string)
    ensures |name| == i + 1
  {
    seq(i + 1, _ => 'a')
  }

  /** The name of one of the first `k` sessions. */
  predicate IsName(a: string, k: nat) {
    1 <= |a| <= k && a == Name(|a| - 1)
  }

  /** The first `k` sessions are open, the `i`-th on sequence `i + 1`, and the cursor is past the last of them. */
  ghost function Opened(s: State, n: nat, k: nat): (b: bool)
    ensures b ==> Ids(s)
  {
    && Ids(s) && s.alloc.max == n && s.alloc.next == (if k + 1 < n then k + 1 else 0)
    && (forall a :: a in s.table.sessions <==> IsName(a, k))
    && (forall a :: a in s.table.sessions ==> s.table.sessions[a].seqId == |a|)
  }

  lemma OpenedMeans(s: State, n: nat, k: nat)
    requires Opened(s, n, k)
    ensures Ids(s) && s.alloc.Valid()
  {
  }

  lemma InitialIsOpened(nSeq: nat)
    requires nSeq >= 2
    ensures Opened(Initial(nSeq), nSeq, 0) && Recency(Initial(nSeq).table, [])
  {
    InitialIsTracked(nSeq);
  }

  lemma TakesNext(s: State, n: nat, k: nat)
    requires Opened(s, n, k) && k + 1 < n
    ensures s.alloc.Take().0 == Some(k + 1)
    ensures s.alloc.Take().1.next == if k + 2 < n then k + 2 else 0
  {
    TakeExact(s.alloc);
    assert !OwnerOf(s, k + 1);
    assert s.alloc.Free(k + 1) && s.alloc.Distance(k + 1) == 0;
  }

  /** A request for the next name opens its session. */
  lemma OpensNext(s: State, n: nat, k: nat, req: Request)
    requires Opened(s, n, k) && k + 1 < n && req.tokens != [] && req.sessionId == Name(k)
    ensures NeedsId(s, req) && !MustEvict(s) && Legit(s, req, NO_CHOICE)
    ensures var (t, sess) := Resolve(s, req, NO_CHOICE); sess == Some(Name(k)) && Opened(t, n, k + 1)
  {
    TakesNext(s, n, k);
    AdmitAfterTake(s, Name(k), "");
    assert Legit(s, req, NO_CHOICE);
    ResolveKeepsIds(s, req, NO_CHOICE);
    var t := Resolve(s, req, NO_CHOICE).0;
    AdmittedOpens(s, t, n, k);
  }

  lemma AdmittedOpens(s: State, t: State, n: nat, k: nat)
    requires Opened(s, n, k) && k + 1 < n && Ids(t) && Admitted(s, t, Name(k), k + 1)
    requires t.alloc.next == if k + 2 < n then k + 2 else 0
    ensures Opened(t, n, k + 1)
  {
    hide Ids, Name;
    forall a ensures a in t.table.sessions <==> IsName(a, k + 1) {
      assert IsName(a, k + 1) <==> IsName(a, k) || a == Name(k);
      assert a in t.table.sessions <==> a in s.table.sessions || a == Name(k);
    }
  }

  lemma OwnKeepsOpened(s: State, t: State, n: nat, k: nat, sess: Option<string>)
    requires Opened(s, n, k) && (sess.Some? ==> sess.value in s.table.sessions) && Ids(t) && OnlyOwn(s, t, sess)
    ensures Opened(t, n, k)
  {
    hide Ids, Name, IsName;
    forall a | a in t.table.sessions ensures t.table.sessions[a].seqId == |a| {
      if Some(a) == sess { assert sess.value == a; }
    }
  }

  lemma OpenedServed(cfg: Config, m: Model, s: State, n: nat, k: nat, sess: Option<string>, req: Request)
    requires cfg.Valid() && Opened(s, n, k) && (sess.Some? ==> sess.value in s.table.sessions)
    ensures Opened(Serve(cfg, m, s, sess, req).0, n, k)
  {
    hide *;
    assert Ids(s);
    ServeOnlyOwn(cfg, m, s, sess, req);
    ServeKeepsIds(cfg, m, s, sess, req);
    OwnKeepsOpened(s, Serve(cfg, m, s, sess, req).0, n, k, sess);
  }

  /** The steps that ask for the sessions from the `lo`-th on. */
  function Asks(lo: nat, hi: nat): seq<Step>
    decreases hi - lo
  {
    if lo >= hi then [] else [Step(Ask([1], 0, Name(lo)), NO_CHOICE)] + Asks(lo + 1, hi)
  }

  lemma AsksStep(lo: nat, hi: nat)
    ensures Asks(lo, hi)
      == if lo >= hi then [] else [Step(Ask([1], 0, Name(lo)), NO_CHOICE)] + Asks(lo + 1, hi)
  {
  }

  function Names(lo: nat, hi: nat): seq<string>
    decreases hi - lo
  {
    if lo >= hi then [] else [Name(lo)] + Names(lo + 1, hi)
  }

  lemma {:induction false} NamesSnoc(lo: nat, hi: nat)
    requires lo <= hi
    ensures Names(lo, hi + 1) == Names(lo, hi) + [Name(hi)]
    decreases hi - lo
  {
    if lo < hi { NamesSnoc(lo + 1, hi); }
  }

  lemma OpenOne(cfg: Config, m: Model, s: State, n: nat, k: nat)
    requires cfg.Valid() && Opened(s, n, k) && k + 1 < n && Recency(s.table, Names(0, k))
    ensures var req := Ask([1], 0, Name(k));
      && Legit(s, req, NO_CHOICE)
      && var t := Complete(cfg, m, s, req, NO_CHOICE).0;
         Opened(t, n, k + 1) && Recency(t.table, Names(0, k + 1))
  {
    var req := Ask([1], 0, Name(k));
    OpensNext(s, n, k, req);
    ListedExactly(s.table, Names(0, k));
    WithoutBack(Names(0, k), Name(k));
    NamesSnoc(0, k);
    hide Recency, Opened, Resolve, Legit, Names, Serve, MustEvict;
    CompleteListed(cfg, m, s, Names(0, k), req, NO_CHOICE);
    var (s', sess) := Resolve(s, req, NO_CHOICE);
    OpenedServed(cfg, m, s', n, k + 1, sess, req);
  }

  /** Asking for the remaining sessions opens them all, in order of use. */
  lemma {:induction false} OpenAll(cfg: Config, m: Model, s: State, n: nat, k: nat)
    requires cfg.Valid() && Opened(s, n, k) && k + 1 <= n && Recency(s.table, Names(0, k))
    ensures LegitRun(cfg, m, s, Asks(k, n - 1))
    ensures var t := After(cfg, m, s, Asks(k, n - 1)); Opened(t, n, n - 1) && Recency(t.table, Names(0, n - 1))
    decreases n - k
  {
    hide *;
    AsksStep(k, n - 1);
    OpenedMeans(s, n, k);
    if k + 1 == n {
      RunNothing(cfg, m, s);
    } else {
      OpenOne(cfg, m, s, n, k);
      var step := Step(Ask([1], 0, Name(k)), NO_CHOICE);
      var t := Complete(cfg, m, s, step.req, NO_CHOICE).0;
      OpenAll(cfg, m, t, n, k + 1);
      RunStep(cfg, m, s, step, Asks(k + 1, n - 1));
    }
  }

  // ---- using them again, all but the last ----

  /** The names in order of use once the first `j` were used again. */
  function Rotated(n: nat, j: nat): seq<string>
    requires n >= 1
  {
    Names(j, n - 1) + Names(0, j)
  }

  lemma RotatedStep(n: nat, j: nat)
    requires j + 1 < n
    ensures Rotated(n, j) != [] && Rotated(n, j)[0] == Name(j)
    ensures Without(Rotated(n, j), Name(j)) + [Name(j)] == Rotated(n, j + 1)
  {
    NamesSnoc(0, j);
    assert Rotated(n, j)[1..] == Names(j + 1, n - 1) + Names(0, j);
  }

  lemma FindsIt(s: State, n: nat, j: nat, req: Request)
    requires j + 1 < n && Opened(s, n, n - 1) && req.tokens != [] && req.sessionId == Name(j)
    ensures !NeedsId(s, req) && Legit(s, req, NO_CHOICE)
    ensures Resolve(s, req, NO_CHOICE) == (s.(table := s.table.Find(Name(j))), Some(Name(j)))
  {
    assert IsName(Name(j), n - 1) && Name(j) in s.table.sessions;
  }

  lemma FindKeepsOpened(s: State, n: nat, k: nat, id: string)
    requires Opened(s, n, k)
    ensures Opened(s.(table := s.table.Find(id)), n, k)
  {
    TouchKeeps(s, id);
    hide Ids, Name, IsName;
  }

  lemma UseOne(cfg: Config, m: Model, s: State, n: nat, j: nat)
    requires j + 1 < n && cfg.Valid() && Opened(s, n, n - 1) && Recency(s.table, Rotated(n, j))
    ensures var req := Ask([1], 0, Name(j));
      && Legit(s, req, NO_CHOICE)
      && var t := Complete(cfg, m, s, req, NO_CHOICE).0;
         Opened(t, n, n - 1) && Recency(t.table, Rotated(n, j + 1))
  {
    var req := Ask([1], 0, Name(j));
    AskMeans(Name(j));
    hide *;
    FindsIt(s, n, j, req);
    RotatedStep(n, j);
    FindKeepsOpened(s, n, n - 1, Name(j));
    OpenedMeans(s, n, n - 1);
    Reuses(s, Rotated(n, j), req, Name(j));
    CompleteListed(cfg, m, s, Rotated(n, j), req, NO_CHOICE);
    CompleteServes(cfg, m, s, req, NO_CHOICE);
    OpenedServed(cfg, m, Resolve(s, req, NO_CHOICE).0, n, n - 1, Some(Name(j)), req);
  }

  lemma AskMeans(name: string)
    ensures Ask([1], 0, name).tokens != [] && Ask([1], 0, name).sessionId == name
  {
  }

  lemma Reuses(s: State, order: seq<string>, req: Request, a: string)
    requires s.alloc.Valid() && Legit(s, req, NO_CHOICE) && req.tokens != [] && !NeedsId(s, req)
    requires Resolve(s, req, NO_CHOICE).1 == Some(a)
    ensures NextOrder(s, order, req, NO_CHOICE) == Without(order, a) + [a]
  {
    hide Resolve, Legit;
  }

  lemma CompleteServes(cfg: Config, m: Model, s: State, req: Request, ch: Choice)
    requires cfg.Valid() && s.alloc.Valid() && Legit(s, req, ch) && req.tokens != []
    ensures var (s', sess) := Resolve(s, req, ch); Complete(cfg, m, s, req, ch) == Serve(cfg, m, s', sess, req)
  {
    hide Resolve, Legit, Serve;
  }

  lemma {:induction false} UseAgain(cfg: Config, m: Model, s: State, n: nat, j: nat)
    requires j + 2 <= n && cfg.Valid() && Opened(s, n, n - 1) && Recency(s.table, Rotated(n, j))
    ensures LegitRun(cfg, m, s, Asks(j, n - 2))
    ensures var t := After(cfg, m, s, Asks(j, n - 2)); Opened(t, n, n - 1) && Recency(t.table, Rotated(n, n - 2))
    decreases n - j
  {
    hide *;
    AsksStep(j, n - 2);
    OpenedMeans(s, n, n - 1);
    if j + 2 == n {
      RunNothing(cfg, m, s);
    } else {
      UseOne(cfg, m, s, n, j);
      var step := Step(Ask([1], 0, Name(j)), NO_CHOICE);
      var t := Complete(cfg, m, s, step.req, NO_CHOICE).0;
      UseAgain(cfg, m, t, n, j + 1);
      RunStep(cfg, m, s, step, Asks(j + 1, n - 2));
    }
  }

  // ---- and then a new one ----

  lemma AllTaken(s: State, n: nat)
    requires n >= 2 && Opened(s, n, n - 1)
    ensures s.alloc.Take().0.None? && MustEvict(s) && s.alloc.Skipped() == n - 1
  {
    TakeExact(s.alloc);
    assert IsName(Name(0), n - 1) && Name(0) in s.table.sessions;
    forall i | 1 <= i < n ensures s.alloc.inUse[i] {
      assert IsName(Name(i - 1), n - 1) && Name(i - 1) in s.table.sessions;
    }
  }

  lemma FrontIsVictim(t: Table, order: seq<string>)
    requires Recency(t, order) && order != []
    ensures t.IsVictim(order[0])
  {
  }

  /** Whoever chooses, the victim is the session opened last, whose id every scan misses. */
  lemma LastIsEvicted(s: State, n: nat, req: Request, ch: Choice)
    requires n >= 2 && Opened(s, n, n - 1) && Recency(s.table, Rotated(n, n - 2))
    requires req.tokens != [] && NeedsId(s, req) && Legit(s, req, ch)
    ensures var (t, sess) := Resolve(s, req, ch); sess == None && t.table.sessions == s.table.sessions - {Name(n - 2)}
  {
    hide *;
    OpenedMeans(s, n, n - 1);
    AllTaken(s, n);
    RotatedStep(n, n - 2);
    VictimOf(s, Rotated(n, n - 2), req, ch);
    LastHoldsSkipped(s, n);
    NewSessionRefusedExactly(s, req, ch);
    RefusedTable(s, req, ch);
  }

  lemma LastHoldsSkipped(s: State, n: nat)
    requires n >= 2 && Opened(s, n, n - 1)
    ensures Name(n - 2) in s.table.sessions && s.table.sessions[Name(n - 2)].seqId == n - 1
  {
    assert IsName(Name(n - 2), n - 1);
  }

  lemma RefusedTable(s: State, req: Request, ch: Choice)
    requires s.alloc.Valid() && Legit(s, req, ch) && req.tokens != [] && NeedsId(s, req) && MustEvict(s)
    requires Resolve(s, req, ch).1 == None
    ensures Resolve(s, req, ch).0.table.sessions == s.table.sessions - {ch.victim}
  {
  }

  lemma LastMayBeEvicted(s: State, n: nat, req: Request)
    requires n >= 2 && Opened(s, n, n - 1) && Recency(s.table, Rotated(n, n - 2))
    requires req.tokens != [] && NeedsId(s, req)
    ensures Legit(s, req, Choice(Name(n - 2), "", None))
  {
    AllTaken(s, n);
    RotatedStep(n, n - 2);
    FrontIsVictim(s.table, Rotated(n, n - 2));
    LastHoldsSkipped(s, n);
    hide Rotated, Recency, Name, Opened, Ids, IsName;
    SkippedStaysTaken(s, Name(n - 2));
  }

  lemma SkippedStaysTaken(s: State, victim: string)
    requires Ids(s) && s.alloc.Take().0.None? && victim in s.table.sessions
    requires s.table.sessions[victim].seqId == s.alloc.Skipped()
    ensures Evict(s, victim).alloc.Take().0.None?
  {
    var e := Evict(s, victim);
    TakeExact(s.alloc);
    TakeExact(e.alloc);
    assert e.alloc.Skipped() == s.alloc.Skipped();
  }

  /**
   For every number of sequences: open a session for each but one, use all of them again but the one opened
   last, and ask for a new one. The session opened last is evicted for it, and the request is answered without
   a session all the same.
   */
  lemma EvictedForNothing(cfg: Config, m: Model, nSeq: nat, req: Request)
    requires cfg.Valid() && nSeq >= 2 && req.tokens != [] && req.sessionId != "" && !IsName(req.sessionId, nSeq - 1)
    ensures var steps, last := Asks(0, nSeq - 1) + Asks(0, nSeq - 2), Name(nSeq - 2);
      && LegitRun(cfg, m, Initial(nSeq), steps)
      && var s := After(cfg, m, Initial(nSeq), steps);
         && last in s.table.sessions && Legit(s, req, Choice(last, "", None))
         && forall ch :: Legit(s, req, ch) ==>
              var (t, sess) := Resolve(s, req, ch); sess == None && t.table.sessions == s.table.sessions - {last}
  {
    var first, again := Asks(0, nSeq - 1), Asks(0, nSeq - 2);
    InitialIsOpened(nSeq);
    OpenAll(cfg, m, Initial(nSeq), nSeq, 0);
    var s1 := After(cfg, m, Initial(nSeq), first);
    assert Rotated(nSeq, 0) == Names(0, nSeq - 1);
    UseAgain(cfg, m, s1, nSeq, 0);
    RunConcat(cfg, m, Initial(nSeq), first, again);
    assert IsName(Name(nSeq - 2), nSeq - 1);
    var s := After(cfg, m, s1, again);
    assert Name(nSeq - 2) in s.table.sessions && NeedsId(s, req);
    hide Opened, Recency, Rotated, After, LegitRun, Legit, Resolve, Asks, Name, Initial;
    LastMayBeEvicted(s, nSeq, req);
    forall ch | Legit(s, req, ch)
      ensures var (t, sess) := Resolve(s, req, ch);
        sess == None && t.table.sessions == s.table.sessions - {Name(nSeq - 2)}
    {
      LastIsEvicted(s, nSeq, req, ch);
    }
  }

  /** The cursor of a pool of two at zero: its only id is the one that every scan misses. */
  lemma NothingToTake(p: Pool)
    requires p.Valid() && p.max == 2 && p.next == 0
    ensures p.Take() == (None, p)
  {
    TakeExact(p);
  }

  lemma NoNewSession(s: State, req: Request, ch: Choice)
    requires s.alloc.Valid() && s.alloc.max == 2 && s.alloc.next == 0 && Legit(s, req, ch) && req.tokens != []
    ensures var t := Resolve(s, req, ch).0;
      t.table.sessions.Keys <= s.table.sessions.Keys && t.alloc.max == 2 && t.alloc.next == 0
  {
    NothingToTake(s.alloc);
    if MustEvict(s) && NeedsId(s, req) { NothingToTake(Evict(s, ch.victim).alloc); }
  }

  /** So with two sequences no session is ever created after the first, over every run. */
  lemma {:induction false} OneSessionEver(cfg: Config, m: Model, s: State, steps: seq<Step>)
    requires cfg.Valid() && s.alloc.Valid() && s.alloc.max == 2 && s.alloc.next == 0 && LegitRun(cfg, m, s, steps)
    ensures After(cfg, m, s, steps).table.sessions.Keys <= s.table.sessions.Keys
    decreases |steps|
  {
    if steps != [] {
      var Step(req, ch) := steps[0];
      NoNewSessionServed(cfg, m, s, req, ch);
      hide Complete;
      OneSessionEver(cfg, m, Complete(cfg, m, s, req, ch).0, steps[1..]);
    }
  }

  lemma NoNewSessionServed(cfg: Config, m: Model, s: State, req: Request, ch: Choice)
    requires cfg.Valid() && s.alloc.Valid() && s.alloc.max == 2 && s.alloc.next == 0 && Legit(s, req, ch)
    ensures var t := Complete(cfg, m, s, req, ch).0;
      t.table.sessions.Keys <= s.table.sessions.Keys && t.alloc.max == 2 && t.alloc.next == 0
  {
    if req.tokens != [] {
      NoNewSession(s, req, ch);
      var (s', sess) := Resolve(s, req, ch);
      hide Resolve, Legit, Serve;
      ServeOnlyOwn(cfg, m, s', sess, req);
    }
  }

  // ---- logits left over by another request ----

  lemma FirstIsLegit(s: State, nSeq: nat, req: Request)
    requires nSeq >= 2 && s == Initial(nSeq) && req.tokens != [] && req.sessionId == "a"
    ensures Legit(s, req, NO_CHOICE)
    ensures var (t, sess) := Resolve(s, req, NO_CHOICE);
      && sess == Some("a") && Inv(t) && t.table.sessions.Keys == {"a"} && t.table.sessions["a"].tokens == []
  {
    InitialIsTracked(nSeq);
    InitialIsOpened(nSeq);
    assert Name(0) == "a";
    OpensNext(s, nSeq, 0, req);
    ResolveKeeps(s, req, NO_CHOICE);
    ResolveKeepsFree(s, req, NO_CHOICE);
    OnlyA(Resolve(s, req, NO_CHOICE).0, nSeq);
    hide Resolve, Legit, Ids;
  }

  lemma OnlyA(s: State, n: nat)
    requires Opened(s, n, 1)
    ensures s.table.sessions.Keys == {"a"}
  {
    assert Name(0) == "a";
    forall a ensures a in s.table.sessions <==> a == "a" {
      assert a in s.table.sessions <==> IsName(a, 1);
    }
  }

  /** The state once session "a" was given the prompt [1] and asked for nothing. */
  ghost function WithA(cfg: Config, m: Model, nSeq: nat): State
    requires cfg.Valid() && nSeq >= 2
  {
    FirstIsLegit(Initial(nSeq), nSeq, Ask([1], 0, "a"));
    Complete(cfg, m, Initial(nSeq), Ask([1], 0, "a"), NO_CHOICE).0
  }

  /** Session "a" alone, coherent, with the history [1]. */
  ghost function HasA(s: State): (b: bool)
    ensures b ==> s.alloc.Valid()
  {
    Inv(s) && s.table.sessions.Keys == {"a"} && s.table.sessions["a"].tokens == [1]
  }

  lemma WithAFacts(cfg: Config, m: Model, nSeq: nat)
    requires cfg.Valid() && cfg.nCtx >= 2 && nSeq >= 2
    ensures HasA(WithA(cfg, m, nSeq))
  {
    var s, req := Initial(nSeq), Ask([1], 0, "a");
    FirstIsLegit(s, nSeq, req);
    CompleteServes(cfg, m, s, req, NO_CHOICE);
    ServesNothing(cfg, m, Resolve(s, req, NO_CHOICE).0, req);
  }

  /** A coherent session asked for nothing holds just the prompt. */
  lemma ServesNothing(cfg: Config, m: Model, s: State, req: Request)
    requires cfg.Valid() && cfg.nCtx >= 2 && Inv(s) && s.table.sessions.Keys == {"a"} && req == Ask([1], 0, "a")
    ensures HasA(Serve(cfg, m, s, Some("a"), req).0)
  {
    assert CoherentSession(s, "a");
    assert !Exhausted(1, 0, cfg.nCtx) && Allowance(cfg, req) == 0;
    var nPast := Trim(s, Some("a"), req.tokens).2;
    PrefillSucceeds(cfg, req, nPast);
    FailsLaterExactly(cfg, req, nPast, OwnSeq(s, Some("a")));
    hide Serve, Ids, Coherent, Trim, Exhausted, FailsLater, PrefillBatches;
    ServeEffect(cfg, m, s, Some("a"), req);
    ServeKeepsIds(cfg, m, s, Some("a"), req);
    ServeKeeps(cfg, m, s, Some("a"), req);
    var reply := Serve(cfg, m, s, Some("a"), req).1;
    assert reply.generated == [] && req.tokens + [] == [1];
  }

  /** After a request that generates nothing, the logits left over are its prompt's. */
  lemma LogitsLeft(cfg: Config, m: Model, s: State, req: Request, ch: Choice)
    requires cfg.Valid() && s.alloc.Valid() && Legit(s, req, ch) && DecodesSucceed(req) && req.tokens != []
    requires !Exhausted(|req.tokens|, req.maxTokens, cfg.nCtx) && Allowance(cfg, req) == 0
    requires ReusesCleanly(s, req, ch) && FeedsSomething(s, req, ch)
    ensures Complete(cfg, m, s, req, ch).0.kv.last == Cells(req.tokens)
  {
    PrefilledExactly(s, req, ch);
    var (s', sess) := Resolve(s, req, ch);
    var (s1, seqId, nPast) := Trim(s', sess, req.tokens);
    hide Resolve, Legit, Trim, ReusesCleanly, FeedsSomething;
    PrefillSucceeds(cfg, req, nPast);
  }

  /**
   One model throughout, any configuration: session "a" caches [1], a stateless request decodes [2], and then the
   prompt [1] on session "a" is answered as if it were [2].
   */
  lemma StaleLogitsAnswer(cfg: Config, nSeq: nat)
    requires cfg.Valid() && cfg.nCtx >= 3 && nSeq >= 2
    ensures var m := EndsOn(Cells([2]));
      var first, second, again := Ask([1], 0, "a"), Ask([2], 0, ""), Ask([1], 1, "a");
      var steps := [Step(first, NO_CHOICE), Step(second, NO_CHOICE)];
      && LegitRun(cfg, m, Initial(nSeq), steps)
      && var s := After(cfg, m, Initial(nSeq), steps);
         && Legit(s, again, NO_CHOICE)
         && Complete(cfg, m, s, again, NO_CHOICE).1 != ReferenceReply(cfg, m, again)
  {
    var m := EndsOn(Cells([2]));
    var first, second := Step(Ask([1], 0, "a"), NO_CHOICE), Step(Ask([2], 0, ""), NO_CHOICE);
    FirstIsLegit(Initial(nSeq), nSeq, first.req);
    WithAFacts(cfg, m, nSeq);
    var s := WithA(cfg, m, nSeq);
    assert s == Complete(cfg, m, Initial(nSeq), first.req, first.ch).0;
    hide Complete, Initial, WithA, Legit, HasA, Resolve;
    ThenTwo(cfg, m, s);
    TwoSteps(cfg, m, Initial(nSeq), first, second);
    ThenOneAgain(cfg, m, Complete(cfg, m, s, second.req, second.ch).0);
  }

  lemma TwoSteps(cfg: Config, m: Model, s: State, first: Step, second: Step)
    requires cfg.Valid() && s.alloc.Valid() && Legit(s, first.req, first.ch)
    requires Legit(Complete(cfg, m, s, first.req, first.ch).0, second.req, second.ch)
    ensures LegitRun(cfg, m, s, [first, second])
    ensures After(cfg, m, s, [first, second])
      == Complete(cfg, m, Complete(cfg, m, s, first.req, first.ch).0, second.req, second.ch).0
  {
    hide Complete, Legit;
    var s1 := Complete(cfg, m, s, first.req, first.ch).0;
    assert [first] + [second] == [first, second] && [second] + [] == [second];
    RunStep(cfg, m, s1, second, []);
    RunStep(cfg, m, s, first, [second]);
  }

  lemma ThenTwo(cfg: Config, m: Model, s: State)
    requires cfg.Valid() && cfg.nCtx >= 2 && HasA(s)
    ensures Legit(s, Ask([2], 0, ""), NO_CHOICE)
    ensures var t := Complete(cfg, m, s, Ask([2], 0, ""), NO_CHOICE).0;
      && t.alloc.Valid() && t.kv.last == Cells([2]) && "a" in t.table.sessions && t.table.sessions["a"].tokens == [1]
      && CoherentSession(t, "a")
  {
    var req := Ask([2], 0, "");
    assert Stateless(req) == req;
    StatelessIsClean(s, req, NO_CHOICE);
    assert !Exhausted(1, 0, cfg.nCtx) && Allowance(cfg, req) == 0;
    LogitsLeft(cfg, m, s, req, NO_CHOICE);
    assert CoherentSession(s, "a");
    OtherSessionsUntouched(cfg, m, s, req, NO_CHOICE, "a");
    hide Complete, Ids, Coherent;
  }

  lemma ThenOneAgain(cfg: Config, m: Model, t: State)
    requires cfg.Valid() && cfg.nCtx >= 3 && m == EndsOn(Cells([2])) && t.alloc.Valid() && t.kv.last == Cells([2])
    requires "a" in t.table.sessions && t.table.sessions["a"].tokens == [1]
    ensures Legit(t, Ask([1], 1, "a"), NO_CHOICE)
    ensures Complete(cfg, m, t, Ask([1], 1, "a"), NO_CHOICE).1 != ReferenceReply(cfg, m, Ask([1], 1, "a"))
  {
    var req := Ask([1], 1, "a");
    assert Lcp([1], [1]) == 1;
    assert !FeedsSomething(t, req, NO_CHOICE);
    PrefilledExactly(t, req, NO_CHOICE);
    assert !Exhausted(1, 1, cfg.nCtx) && Budget(1, 1, cfg.nCtx) == 1;
    CompleteGenerates(cfg, m, t, req, NO_CHOICE);
    var (kv, seqId) := Prefilled(t, req, NO_CHOICE);
    var (t', sess) := Resolve(t, req, NO_CHOICE);
    var calls := PrefillOf(cfg, req, Trim(t', sess, req.tokens).2).calls;
    assert Cells([2])[0] != Cells([1])[0];
    hide Complete, Prefilled, Generate, Reference, Resolve, Trim;
    StaleLogitsDiverge(req, kv, seqId, 1, calls);
  }

  // ---- a prefill that fails after its first batch ----

  lemma TwoBatches(cfg: Config, req: Request, seqId: nat)
    requires cfg.Valid() && cfg.nBatch < |req.tokens|
    ensures |PrefillBatches(cfg, req, 0, seqId)| > 1
  {
    var n := |req.tokens|;
    BatchesCount(req.tokens, 0, seqId, ChunkSize(n, cfg.nBatch), 0);
    assert ChunkSize(n, cfg.nBatch) == cfg.nBatch;
    assert BatchCount(n - cfg.nBatch, cfg.nBatch) > 0;
  }

  lemma SecondBatchFails(cfg: Config, s: State, req: Request)
    requires cfg.Valid() && "a" in s.table.sessions && s.table.sessions["a"].tokens == []
    requires cfg.nBatch < |req.tokens| < cfg.nCtx && req.maxTokens == 0 && req.decodeOk(0) && !req.decodeOk(1)
    ensures PartialPrefill(cfg, s, Some("a"), req)
  {
    assert Trim(s, Some("a"), req.tokens).2 == 0;
    assert !Exhausted(|req.tokens|, 0, cfg.nCtx);
    hide Trim, PrefillBatches, Exhausted;
    TwoBatches(cfg, req, OwnSeq(s, Some("a")));
  }

  /**
   Any prompt of more than one batch that fits the context, in any configuration: when the second batch fails, the
   new session ends incoherent.
   */
  lemma PartWayFailure(cfg: Config, m: Model, nSeq: nat, prompt: seq<Token>)
    requires cfg.Valid() && nSeq >= 2 && cfg.nBatch < |prompt| < cfg.nCtx
    ensures var s, req := Initial(nSeq), Ask(prompt, 0, "a").(decodeOk := (i: nat) => i == 0);
      && Legit(s, req, NO_CHOICE) && Inv(s)
      && Ids(Complete(cfg, m, s, req, NO_CHOICE).0) && !Coherent(Complete(cfg, m, s, req, NO_CHOICE).0)
  {
    var s, req := Initial(nSeq), Ask(prompt, 0, "a").(decodeOk := (i: nat) => i == 0);
    InitialIsTracked(nSeq);
    FirstIsLegit(s, nSeq, req);
    assert req.decodeOk(0) && !req.decodeOk(1);
    SecondBatchFails(cfg, Resolve(s, req, NO_CHOICE).0, req);
    hide Complete, Initial, Ids, Coherent, Legit, Resolve, PartialPrefill;
    assert FailsPartWay(cfg, s, req, NO_CHOICE);
    CompleteKeeps(cfg, m, s, req, NO_CHOICE);
    CompleteKeepsIds(cfg, m, s, req, NO_CHOICE);
  }
}
