/** What every request keeps true of the sequence ids and of the KV cache. */
module SessionInvariants {
  import opened SeqAllocation
  import opened SessionTables
  import opened KvCaches
  import opened Completion

  /** The ids in use are exactly the pairwise distinct, non-zero ids of the live sessions. */
  ghost function Ids(s: State): (b: bool)
    ensures b ==> s.alloc.Valid()
  {
    && s.alloc.Valid() && !s.alloc.inUse[0] && s.table.max == s.alloc.max - 1
    && (forall a :: a in s.table.sessions ==>
          1 <= s.table.sessions[a].seqId < s.alloc.max && s.alloc.inUse[s.table.sessions[a].seqId])
    && (forall a, b :: a in s.table.sessions && b in s.table.sessions && a != b ==>
          s.table.sessions[a].seqId != s.table.sessions[b].seqId)
    && (forall i :: 1 <= i < s.alloc.max && s.alloc.inUse[i] ==> OwnerOf(s, i))
  }

  ghost predicate OwnerOf(s: State, i: nat) {
    exists a :: a in s.table.sessions && s.table.sessions[a].seqId == i
  }

  /** Each free id's sequence is empty. */
  ghost function FreeEmpty(s: State): (b: bool)
    ensures b ==> s.alloc.Valid()
  {
    s.alloc.Valid() && forall i :: s.alloc.Free(i) ==> s.kv.At(i) == []
  }

  /** Each live session's KV sequence is its token history, and each free id's sequence is empty. */
  ghost predicate Coherent(s: State) {
    FreeEmpty(s) && forall a :: a in s.table.sessions ==> CoherentSession(s, a)
  }

  ghost predicate CoherentSession(s: State, a: string)
    requires a in s.table.sessions
  {
    CellsOf(s, a) == Cells(s.table.sessions[a].tokens)
  }

  ghost predicate Inv(s: State) {
    Ids(s) && Coherent(s)
  }

  /** What the cache holds on a session's sequence. */
  function CellsOf(s: State, a: string): seq<Cell>
    requires a in s.table.sessions
  {
    s.kv.At(s.table.sessions[a].seqId)
  }

  /** The session's id, history and sequence are the same in both states. */
  ghost predicate Same(s: State, t: State, a: string) {
    && a in s.table.sessions && a in t.table.sessions
    && t.table.sessions[a].seqId == s.table.sessions[a].seqId
    && t.table.sessions[a].tokens == s.table.sessions[a].tokens
    && CellsOf(t, a) == CellsOf(s, a)
  }

  ghost predicate Blank(t: State, a: string)
    requires a in t.table.sessions
  {
    t.table.sessions[a].tokens == [] && CellsOf(t, a) == []
  }

  /** Every session of `t` is as it was in `s`, or new and blank. */
  ghost predicate Inherits(s: State, t: State) {
    forall a :: a in t.table.sessions ==> if a in s.table.sessions then Same(s, t, a) else Blank(t, a)
  }

  // ---- counting ids ----

  ghost function Used(sessions: map<string, Session>): set<nat> {
    set a | a in sessions :: sessions[a].seqId
  }

  lemma {:induction false} DistinctIdsCount(sessions: map<string, Session>)
    requires forall a, b :: a in sessions && b in sessions && a != b ==> sessions[a].seqId != sessions[b].seqId
    ensures |Used(sessions)| == |sessions|
    decreases |sessions|
  {
    if |sessions| > 0 {
      var a :| a in sessions;
      var fewer := sessions - {a};
      DistinctIdsCount(fewer);
      forall i ensures i in Used(sessions) <==> i in Used(fewer) + {sessions[a].seqId} {
        if i in Used(sessions) {
          var b :| b in sessions && sessions[b].seqId == i;
          assert b == a || (b in fewer && fewer[b].seqId == i);
        }
      }
      assert Used(sessions) == Used(fewer) + {sessions[a].seqId};
      assert forall b :: b in fewer ==> fewer[b].seqId != sessions[a].seqId;
      assert sessions[a].seqId !in Used(fewer);
    } else {
      assert Used(sessions) == {};
    }
  }

  lemma {:induction false} BelowCount(ids: set<nat>, max: nat)
    requires forall i :: i in ids ==> i < max
    ensures |ids| <= max
  {
    if max > 0 {
      BelowCount(ids - {max - 1}, max - 1);
      assert ids <= (ids - {max - 1}) + {max - 1};
    }
  }

  lemma TwoMore(used: set<nat>, max: nat, free: nat)
    requires 1 <= free < max && forall i :: i in used ==> 1 <= i < max && i != free
    ensures |used| + 2 <= max
  {
    assert |used + {0}| == |used| + 1;
    assert |used + {0} + {free}| == |used| + 2;
    BelowCount(used + {0} + {free}, max);
  }

  lemma UsedLeavesRoom(sessions: map<string, Session>, max: nat, free: nat)
    requires 1 <= free < max
    requires forall a :: a in sessions ==> 1 <= sessions[a].seqId < max && sessions[a].seqId != free
    requires forall a, b :: a in sessions && b in sessions && a != b ==> sessions[a].seqId != sessions[b].seqId
    ensures |sessions| < max - 1
  {
    var used := Used(sessions);
    DistinctIdsCount(sessions);
    assert forall i :: i in used ==> 1 <= i < max && i != free;
    TwoMore(used, max, free);
  }

  /** While some id is free the table is not full, so an `insert` after a successful `take` evicts nothing. */
  lemma InsertNeverEvicts(s: State, free: nat, id: string)
    requires Ids(s) && s.alloc.Free(free)
    ensures |s.table.sessions| < s.table.max && !s.table.InsertEvicts(id)
  {
    UsedLeavesRoom(s.table.sessions, s.alloc.max, free);
  }

  // ---- eviction and admission ----

  lemma EvictKeepsIds(s: State, victim: string)
    requires Ids(s) && victim in s.table.sessions
    ensures Ids(Evict(s, victim)) && Evict(s, victim).alloc.Free(s.table.sessions[victim].seqId)
  {
    var s' := Evict(s, victim);
    forall i | 1 <= i < s'.alloc.max && s'.alloc.inUse[i] ensures OwnerOf(s', i) {
      assert OwnerOf(s, i);
      var a :| a in s.table.sessions && s.table.sessions[a].seqId == i;
      assert a in s'.table.sessions;
    }
  }

  lemma EvictKeepsFree(s: State, victim: string)
    requires Ids(s) && FreeEmpty(s) && victim in s.table.sessions
    ensures FreeEmpty(Evict(s, victim))
  {
    var e := Evict(s, victim);
    SeqRmClears(s.kv, s.table.sessions[victim].seqId);
    forall i | e.alloc.Free(i) && i != s.table.sessions[victim].seqId ensures e.kv.At(i) == [] {
      assert s.alloc.Free(i);
    }
  }

  /** Evicting one session leaves the others' histories and sequences alone. */
  lemma EvictSpares(s: State, victim: string)
    requires Ids(s) && victim in s.table.sessions
    ensures forall a :: a in Evict(s, victim).table.sessions <==> a in s.table.sessions && a != victim
    ensures forall a :: a in Evict(s, victim).table.sessions ==> Same(s, Evict(s, victim), a)
  {
  }

  /** `t` is `s` with a new session `id` of empty history on the free sequence `k`. */
  ghost predicate Admitted(s: State, t: State, id: string, k: nat)
    requires s.alloc.Valid()
  {
    && s.alloc.Free(k) && id !in s.table.sessions
    && t.alloc.Valid() && t.alloc.max == s.alloc.max && t.alloc.inUse == s.alloc.inUse[k := true]
    && t.kv == s.kv && t.table.max == s.table.max
    && t.table.sessions.Keys == s.table.sessions.Keys + {id}
    && (forall a :: a in s.table.sessions ==> t.table.sessions[a] == s.table.sessions[a])
    && t.table.sessions[id].seqId == k && t.table.sessions[id].tokens == []
  }

  /** After a successful `take` nobody is evicted by `insert`, and the new session starts with no history. */
  lemma AdmitAfterTake(s: State, id: string, victim: string)
    requires Ids(s) && id !in s.table.sessions && s.alloc.Take().0.Some?
    ensures var s' := Claim(s).0; var k := s.alloc.Take().0.value;
      && !s'.table.InsertEvicts(id)
      && Admitted(s, Admit(s', id, k, victim), id, k)
  {
    TakeExact(s.alloc);
    InsertNeverEvicts(s, s.alloc.Take().0.value, id);
  }

  lemma AdmittedKeepsIds(s: State, t: State, id: string, k: nat)
    requires Ids(s) && Admitted(s, t, id, k)
    ensures Ids(t)
  {
    forall a | a in t.table.sessions
      ensures 1 <= t.table.sessions[a].seqId < t.alloc.max && t.alloc.inUse[t.table.sessions[a].seqId]
      ensures a != id ==> t.table.sessions[a].seqId != k
    {
      assert a != id ==> a in s.table.sessions;
    }
    forall a, b | a in t.table.sessions && b in t.table.sessions && a != b
      ensures t.table.sessions[a].seqId != t.table.sessions[b].seqId
    {
      assert a != id ==> a in s.table.sessions;
      assert b != id ==> b in s.table.sessions;
    }
    forall i | 1 <= i < t.alloc.max && t.alloc.inUse[i] ensures OwnerOf(t, i) {
      if i == k {
        assert id in t.table.sessions;
      } else {
        assert OwnerOf(s, i);
        var a :| a in s.table.sessions && s.table.sessions[a].seqId == i;
        assert a in t.table.sessions;
      }
    }
  }

  lemma AdmittedKeepsFree(s: State, t: State, id: string, k: nat)
    requires FreeEmpty(s) && Admitted(s, t, id, k)
    ensures FreeEmpty(t) && Blank(t, id)
  {
    forall i | t.alloc.Free(i) ensures t.kv.At(i) == [] {
      assert s.alloc.Free(i);
    }
  }

  lemma AdmittedSpares(s: State, t: State, id: string, k: nat, a: string)
    requires s.alloc.Valid() && Admitted(s, t, id, k) && a in t.table.sessions && a != id
    ensures Same(s, t, a)
  {
    assert a in s.table.sessions;
  }

  /** Resolving a session keeps the ids, whatever the allocator and the table decide. */
  lemma ResolveKeepsIds(s: State, req: Request, ch: Choice)
    requires Ids(s) && Legit(s, req, ch) && req.tokens != []
    ensures Ids(Resolve(s, req, ch).0)
  {
    if NeedsId(s, req) {
      var e := if MustEvict(s) then Evict(s, ch.victim) else s;
      if MustEvict(s) { EvictKeepsIds(s, ch.victim); }
      if e.alloc.Take().0.Some? {
        TakeExact(e.alloc);
        AdmitAfterTake(e, req.sessionId, ch.insertVictim);
        AdmittedKeepsIds(e, Resolve(s, req, ch).0, req.sessionId, e.alloc.Take().0.value);
      } else {
        TakeExact(e.alloc);
      }
    } else {
      TouchKeeps(s, req.sessionId);
      if ch.pick.Some? { TouchKeeps(s, ch.pick.value); }
    }
  }

  /** It leaves every session that stays as it was, and no session goes but the victim. */
  lemma ResolveSpares(s: State, req: Request, ch: Choice, a: string)
    requires Ids(s) && Legit(s, req, ch) && req.tokens != [] && a in s.table.sessions
    ensures var t := Resolve(s, req, ch).0;
      if NeedsId(s, req) && MustEvict(s) && a == ch.victim then a !in t.table.sessions else Same(s, t, a)
  {
    if NeedsId(s, req) {
      var e := if MustEvict(s) then Evict(s, ch.victim) else s;
      if MustEvict(s) {
        EvictKeepsIds(s, ch.victim);
        EvictSpares(s, ch.victim);
      }
      hide Ids, Evict, Same, Admit, CellsOf;
      TakeExact(e.alloc);
      if a in e.table.sessions {
        assert Same(s, e, a) by { SameAsItself(s, a); }
        if e.alloc.Take().0.Some? {
          AdmitSpares(e, req.sessionId, ch.insertVictim, a);
          SameChains(s, e, Resolve(s, req, ch).0, a);
        }
      } else {
        if e.alloc.Take().0.Some? { AdmitAddsOne(e, req.sessionId, ch.insertVictim); }
      }
    }
  }

  lemma SameAsItself(s: State, a: string)
    requires a in s.table.sessions
    ensures Same(s, s, a)
  {
  }

  lemma SameChains(s: State, e: State, t: State, a: string)
    requires Same(s, e, a) && Same(e, t, a)
    ensures Same(s, t, a)
  {
  }

  lemma AdmitSpares(s: State, id: string, victim: string, a: string)
    requires Ids(s) && id !in s.table.sessions && s.alloc.Take().0.Some? && a in s.table.sessions
    ensures !Claim(s).0.table.InsertEvicts(id)
    ensures Same(s, Admit(Claim(s).0, id, s.alloc.Take().0.value, victim), a)
  {
    AdmitAfterTake(s, id, victim);
    AdmittedSpares(s, Admit(Claim(s).0, id, s.alloc.Take().0.value, victim), id, s.alloc.Take().0.value, a);
  }

  lemma AdmitAddsOne(s: State, id: string, victim: string)
    requires Ids(s) && id !in s.table.sessions && s.alloc.Take().0.Some?
    ensures !Claim(s).0.table.InsertEvicts(id)
    ensures Admit(Claim(s).0, id, s.alloc.Take().0.value, victim).table.sessions.Keys == s.table.sessions.Keys + {id}
  {
    AdmitAfterTake(s, id, victim);
  }

  /** Free ids stay empty, and a session that enters is blank. */
  lemma ResolveKeepsFree(s: State, req: Request, ch: Choice)
    requires Ids(s) && FreeEmpty(s) && Legit(s, req, ch) && req.tokens != []
    ensures var t := Resolve(s, req, ch).0;
      FreeEmpty(t) && forall a :: a in t.table.sessions && a !in s.table.sessions ==> Blank(t, a)
  {
    if NeedsId(s, req) {
      var e := if MustEvict(s) then Evict(s, ch.victim) else s;
      if MustEvict(s) {
        EvictKeepsIds(s, ch.victim);
        EvictKeepsFree(s, ch.victim);
      }
      TakeExact(e.alloc);
      if e.alloc.Take().0.Some? {
        AdmitAfterTake(e, req.sessionId, ch.insertVictim);
        AdmittedKeepsFree(e, Resolve(s, req, ch).0, req.sessionId, e.alloc.Take().0.value);
      }
    }
  }

  lemma ResolveInherits(s: State, req: Request, ch: Choice)
    requires Ids(s) && FreeEmpty(s) && Legit(s, req, ch) && req.tokens != []
    ensures Inherits(s, Resolve(s, req, ch).0)
  {
    hide Ids, FreeEmpty, Legit, Resolve, Same, Blank;
    ResolveKeepsFree(s, req, ch);
    forall a | a in s.table.sessions && a in Resolve(s, req, ch).0.table.sessions
      ensures Same(s, Resolve(s, req, ch).0, a)
    {
      ResolveSpares(s, req, ch, a);
    }
  }

  lemma InheritsCoherence(s: State, t: State)
    requires Coherent(s) && FreeEmpty(t) && Inherits(s, t)
    ensures Coherent(t)
  {
    forall a | a in t.table.sessions ensures CoherentSession(t, a) {
      if a in s.table.sessions {
        assert CoherentSession(s, a) && Same(s, t, a);
      } else {
        assert Blank(t, a);
      }
    }
  }

  /** Resolving a session keeps both invariants. */
  lemma ResolveKeeps(s: State, req: Request, ch: Choice)
    requires Inv(s) && Legit(s, req, ch) && req.tokens != []
    ensures Inv(Resolve(s, req, ch).0)
  {
    hide Ids, FreeEmpty, Legit, Resolve, Inherits;
    ResolveKeepsIds(s, req, ch);
    ResolveKeepsFree(s, req, ch);
    ResolveInherits(s, req, ch);
    InheritsCoherence(s, Resolve(s, req, ch).0);
  }

  lemma TouchKeeps(s: State, id: string)
    requires Ids(s)
    ensures Ids(s.(table := s.table.Find(id)))
  {
    var t := s.(table := s.table.Find(id));
    assert t.table.sessions.Keys == s.table.sessions.Keys;
    forall a | a in s.table.sessions ensures t.table.sessions[a].seqId == s.table.sessions[a].seqId {
    }
    SameIdsKeep(s, t);
  }

  /** The ids depend on each session's id only. */
  lemma SameIdsKeep(s: State, t: State)
    requires Ids(s) && t.alloc == s.alloc && t.table.max == s.table.max
    requires t.table.sessions.Keys == s.table.sessions.Keys
    requires forall a :: a in s.table.sessions ==> t.table.sessions[a].seqId == s.table.sessions[a].seqId
    ensures Ids(t)
  {
    forall i | 1 <= i < t.alloc.max && t.alloc.inUse[i] ensures OwnerOf(t, i) {
      assert OwnerOf(s, i);
      var a :| a in s.table.sessions && s.table.sessions[a].seqId == i;
      assert a in t.table.sessions;
    }
  }
}
