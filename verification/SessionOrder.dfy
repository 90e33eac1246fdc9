/** Over whole runs of requests the server's sessions form an LRU list: who is evicted, and who is next. */
module SessionOrder {
  import opened Options
  import opened SeqAllocation
  import opened SessionTables
  import opened Completion
  import opened SessionInvariants
  import opened ServerRuns

  /** A session that is used moves to the back; the one evicted for a new session is taken off the front. */
  ghost function NextOrder(s: State, order: seq<string>, req: Request, ch: Choice): seq<string>
    requires s.alloc.Valid() && Legit(s, req, ch)
  {
    if req.tokens == [] then order
    else
      var rest := if NeedsId(s, req) && MustEvict(s) && order != [] then order[1..] else order;
      var sess := Resolve(s, req, ch).1;
      if sess.None? then rest else Without(rest, sess.value) + [sess.value]
  }

  lemma EvictListed(s: State, order: seq<string>, victim: string)
    requires s.alloc.Valid() && Recency(s.table, order) && s.table.IsVictim(victim)
    ensures order != [] && order[0] == victim && Recency(Evict(s, victim).table, order[1..])
  {
    VictimIsFront(s.table, order, victim);
    DropFront(s.table, order);
  }

  lemma WithoutBack(order: seq<string>, id: string)
    requires id !in order
    ensures Without(order + [id], id) == order && Without(order, id) == order
  {
    WithoutAbsent(order, id);
    var k := WithoutSplits(order + [id], id);
    assert forall i :: 0 <= i < |order| ==> (order + [id])[i] == order[i] != id;
    assert (order + [id])[|order|] == id && (order + [id])[..|order|] == order;
  }

  lemma InsertListed(t: Table, order: seq<string>, id: string, seqId: nat, victim: string)
    requires Recency(t, order) && id !in t.sessions && !t.InsertEvicts(id)
    ensures Recency(t.Insert(id, seqId, victim).Find(id), Without(order, id) + [id])
  {
    ListedExactly(t, order);
    WithoutBack(order, id);
    ToBack(t, order, id, Session(id, seqId, [], t.clock));
    hide Recency;
    TouchAgrees(t.Insert(id, seqId, victim), order + [id], id);
  }

  lemma AdmitListed(s: State, order: seq<string>, id: string, victim: string)
    requires Ids(s) && Recency(s.table, order) && id !in s.table.sessions && s.alloc.Take().0.Some?
    ensures !Claim(s).0.table.InsertEvicts(id)
    ensures Recency(Admit(Claim(s).0, id, s.alloc.Take().0.value, victim).table, Without(order, id) + [id])
  {
    AdmitAfterTake(s, id, victim);
    InsertListed(s.table, order, id, s.alloc.Take().0.value, victim);
  }

  lemma NewListed(s: State, order: seq<string>, req: Request, ch: Choice)
    requires Ids(s) && Recency(s.table, order) && Legit(s, req, ch) && req.tokens != [] && NeedsId(s, req)
    ensures Recency(Resolve(s, req, ch).0.table, NextOrder(s, order, req, ch))
  {
    hide Recency, Ids;
    var e, rest := s, order;
    if MustEvict(s) {
      EvictListed(s, order, ch.victim);
      EvictKeepsIds(s, ch.victim);
      e, rest := Evict(s, ch.victim), order[1..];
    }
    TakeExact(e.alloc);
    if e.alloc.Take().0.Some? { AdmitListed(e, rest, req.sessionId, ch.insertVictim); }
  }

  lemma ResolveListed(s: State, order: seq<string>, req: Request, ch: Choice)
    requires Ids(s) && Recency(s.table, order) && Legit(s, req, ch) && req.tokens != []
    ensures Recency(Resolve(s, req, ch).0.table, NextOrder(s, order, req, ch))
  {
    if NeedsId(s, req) {
      NewListed(s, order, req, ch);
    } else {
      hide Recency, Ids;
      if req.sessionId != "" {
        TouchAgrees(s.table, order, req.sessionId);
      } else if req.fallback && ch.pick.Some? {
        TouchAgrees(s.table, order, ch.pick.value);
      }
    }
  }

  /** The same sessions with the same times of use. */
  ghost predicate SameTimes(t: Table, t': Table) {
    && t'.clock == t.clock && t'.sessions.Keys == t.sessions.Keys
    && forall a :: a in t.sessions ==> t'.sessions[a].lastUsed == t.sessions[a].lastUsed
  }

  lemma SameTimesListed(t: Table, t': Table, order: seq<string>)
    requires Recency(t, order) && SameTimes(t, t')
    ensures Recency(t', order)
  {
  }

  /** Trimming, answering and resetting read no clock. */
  lemma ServeKeepsTimes(cfg: Config, m: Model, s: State, sess: Option<string>, req: Request)
    requires cfg.Valid() && (sess.Some? ==> sess.value in s.table.sessions)
    ensures SameTimes(s.table, Serve(cfg, m, s, sess, req).0.table)
  {
    hide Exhausted;
  }

  lemma CompleteListed(cfg: Config, m: Model, s: State, order: seq<string>, req: Request, ch: Choice)
    requires cfg.Valid() && Ids(s) && Recency(s.table, order) && Legit(s, req, ch)
    ensures Recency(Complete(cfg, m, s, req, ch).0.table, NextOrder(s, order, req, ch))
  {
    if req.tokens != [] {
      hide Recency, Ids, Resolve, Legit, Serve, NextOrder, SameTimes;
      var (s', sess) := Resolve(s, req, ch);
      ResolveListed(s, order, req, ch);
      ServeKeepsTimes(cfg, m, s', sess, req);
      SameTimesListed(s'.table, Serve(cfg, m, s', sess, req).0.table, NextOrder(s, order, req, ch));
    }
  }

  ghost function OrderAfter(cfg: Config, m: Model, s: State, order: seq<string>, steps: seq<Step>): seq<string>
    requires cfg.Valid() && s.alloc.Valid() && LegitRun(cfg, m, s, steps)
    decreases |steps|
  {
    if steps == [] then order
    else
      var Step(req, ch) := steps[0];
      OrderAfter(cfg, m, Complete(cfg, m, s, req, ch).0, NextOrder(s, order, req, ch), steps[1..])
  }

  /** Over every run, whatever fails, the times of last use put the sessions in the order of the list. */
  lemma {:induction false} RunListed(cfg: Config, m: Model, s: State, order: seq<string>, steps: seq<Step>)
    requires cfg.Valid() && Ids(s) && Recency(s.table, order) && LegitRun(cfg, m, s, steps)
    ensures Recency(After(cfg, m, s, steps).table, OrderAfter(cfg, m, s, order, steps))
    decreases |steps|
  {
    if steps != [] {
      hide Recency, Ids, Complete, NextOrder, Legit;
      var Step(req, ch) := steps[0];
      CompleteKeepsIds(cfg, m, s, req, ch);
      CompleteListed(cfg, m, s, order, req, ch);
      RunListed(cfg, m, Complete(cfg, m, s, req, ch).0, NextOrder(s, order, req, ch), steps[1..]);
    }
  }

  /** So the session that a request evicts is the front of the list that the run has built. */
  lemma EvictedIsFront(cfg: Config, m: Model, nSeq: nat, steps: seq<Step>, req: Request, ch: Choice)
    requires cfg.Valid() && nSeq >= 2 && LegitRun(cfg, m, Initial(nSeq), steps)
    requires var s := After(cfg, m, Initial(nSeq), steps);
      Legit(s, req, ch) && req.tokens != [] && NeedsId(s, req) && MustEvict(s)
    ensures var order := OrderAfter(cfg, m, Initial(nSeq), [], steps); order != [] && ch.victim == order[0]
  {
    InitialIsListed(nSeq);
    hide *;
    RunListed(cfg, m, Initial(nSeq), [], steps);
    VictimOf(After(cfg, m, Initial(nSeq), steps), OrderAfter(cfg, m, Initial(nSeq), [], steps), req, ch);
  }

  lemma InitialIsListed(nSeq: nat)
    requires nSeq >= 2
    ensures Ids(Initial(nSeq)) && Recency(Initial(nSeq).table, [])
  {
    InitialIsTracked(nSeq);
  }

  lemma VictimOf(s: State, order: seq<string>, req: Request, ch: Choice)
    requires s.alloc.Valid() && Recency(s.table, order) && req.tokens != [] && NeedsId(s, req) && MustEvict(s)
    requires Legit(s, req, ch)
    ensures order != [] && ch.victim == order[0]
  {
    VictimIsFront(s.table, order, ch.victim);
  }
}
