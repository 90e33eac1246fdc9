/** `SessionTable`: token histories with LRU eviction (`src/inference/session.{hpp,cpp}`). */
module SessionTables {
  import opened Options

  type Token = int

  datatype Session = Session(id: string, seqId: nat, tokens: seq<Token>, lastUsed: nat)

  /**
   The table as a value. A `Session*` of the source is the session's key. `clock` is the time that the
   next reading of the steady clock returns; every reading advances it.
   */
  datatype Table = Table(max: nat, sessions: map<string, Session>, clock: nat) {
    function Touch(id: string): Table
      requires id in sessions
    {
      this.(sessions := sessions[id := sessions[id].(lastUsed := clock)], clock := clock + 1)
    }

    function Find(id: string): Table {
      if id in sessions then Touch(id) else this
    }

    /** A session whose last use is not after that of any other. */
    ghost predicate IsVictim(id: string) {
      id in sessions && forall other :: other in sessions ==> sessions[id].lastUsed <= sessions[other].lastUsed
    }

    function Erase(id: string): Table {
      this.(sessions := map k | k in sessions && k != id :: sessions[k])
    }

    predicate InsertEvicts(id: string) {
      |sessions| >= max && id !in sessions
    }

    /** `insert`, which first erases `victim` when the table is full and `id` is new. */
    function Insert(id: string, seqId: nat, victim: string): Table {
      var t := if InsertEvicts(id) then Erase(victim) else this;
      t.(sessions := t.sessions[id := Session(id, seqId, [], clock)], clock := clock + 1)
    }

    /** The cached tokens of session `id` are a non-empty prefix of the prompt. */
    predicate Matches(id: string, prompt: seq<Token>)
      requires id in sessions
    {
      sessions[id].tokens != [] && sessions[id].tokens <= prompt
    }

    /** What `find_by_prefix` may return: a longest match, or nothing when nothing matches. */
    ghost predicate IsPick(prompt: seq<Token>, pick: Option<string>) {
      match pick
      case None => forall id :: id in sessions ==> !Matches(id, prompt)
      case Some(best) =>
        && best in sessions && Matches(best, prompt)
        && forall id :: id in sessions && Matches(id, prompt) ==> |sessions[id].tokens| <= |sessions[best].tokens|
    }

    function SetTokens(id: string, tokens: seq<Token>): Table
      requires id in sessions
    {
      this.(sessions := sessions[id := sessions[id].(tokens := tokens)])
    }
  }

  // ---- timestamps refine an LRU list ----

  /** `order` lists the sessions from the least to the most recently used, as the timestamps tell it. */
  ghost predicate Recency(t: Table, order: seq<string>) {
    && InOrder(t, order)
    && forall id :: id in t.sessions ==> id in order && t.sessions[id].lastUsed < t.clock
  }

  ghost predicate InOrder(t: Table, order: seq<string>) {
    && (forall i :: 0 <= i < |order| ==> order[i] in t.sessions)
    && (forall i, j :: 0 <= i < j < |order| ==> t.sessions[order[i]].lastUsed < t.sessions[order[j]].lastUsed)
  }

  /** `order` without its first `id`. */
  function Without(order: seq<string>, id: string): (r: seq<string>) {
    if order == [] then [] else if order[0] == id then order[1..] else [order[0]] + Without(order[1..], id)
  }

  /** The table's operations; `pick` and `victim` are the choices that the hash map's iteration order leaves open. */
  datatype Op =
    | Find(id: string)
    | FindByPrefix(prompt: seq<Token>, pick: Option<string>)
    | Insert(id: string, seqId: nat, victim: string)
    | EvictLru(victim: string)
    | SetTokens(id: string, tokens: seq<Token>)

  ghost predicate Legal(t: Table, op: Op) {
    match op
    case Find(_) => true
    case FindByPrefix(prompt, pick) => t.IsPick(prompt, pick)
    case Insert(id, _, victim) => t.InsertEvicts(id) ==> t.IsVictim(victim)
    case EvictLru(victim) => |t.sessions| > 0 ==> t.IsVictim(victim)
    case SetTokens(id, _) => id in t.sessions
  }

  /** One operation on the table: the new table and the session it evicted, if any. */
  ghost function ApplyTable(t: Table, op: Op): (Table, seq<string>)
    requires Legal(t, op)
  {
    match op
    case Find(id) => (t.Find(id), [])
    case FindByPrefix(_, pick) => (if pick.Some? then t.Touch(pick.value) else t, [])
    case Insert(id, seqId, victim) => (t.Insert(id, seqId, victim), if t.InsertEvicts(id) then [victim] else [])
    case EvictLru(victim) => if |t.sessions| == 0 then (t, []) else (t.Erase(victim), [victim])
    case SetTokens(id, tokens) => (t.SetTokens(id, tokens), [])
  }

  /** The same operation on a textbook LRU list: use moves to the back, eviction takes the front. */
  function ApplyList(max: nat, order: seq<string>, op: Op): (seq<string>, seq<string>) {
    match op
    case Find(id) => (if id in order then Without(order, id) + [id] else order, [])
    case FindByPrefix(_, pick) => (if pick.Some? then Without(order, pick.value) + [pick.value] else order, [])
    case Insert(id, _, _) =>
      if |order| >= max && id !in order && order != [] then (order[1..] + [id], [order[0]])
      else (Without(order, id) + [id], [])
    case EvictLru(_) => if order == [] then (order, []) else (order[1..], [order[0]])
    case SetTokens(_, _) => (order, [])
  }

  ghost predicate LegalRun(t: Table, ops: seq<Op>)
    decreases |ops|
  {
    ops == [] || (Legal(t, ops[0]) && LegalRun(ApplyTable(t, ops[0]).0, ops[1..]))
  }

  ghost function RunTable(t: Table, ops: seq<Op>): seq<string>
    requires LegalRun(t, ops)
    decreases |ops|
  {
    if ops == [] then [] else
      var (t', evicted) := ApplyTable(t, ops[0]);
      evicted + RunTable(t', ops[1..])
  }

  function RunList(max: nat, order: seq<string>, ops: seq<Op>): seq<string>
    decreases |ops|
  {
    if ops == [] then [] else
      var (order', evicted) := ApplyList(max, order, ops[0]);
      evicted + RunList(max, order', ops[1..])
  }

  lemma {:induction false} WithoutSplits(order: seq<string>, id: string) returns (k: nat)
    ensures k <= |order| && id !in order[..k]
    ensures k == |order| ==> Without(order, id) == order
    ensures k < |order| ==> order[k] == id && Without(order, id) == order[..k] + order[k + 1..]
  {
    if order == [] || order[0] == id {
      k := 0;
    } else {
      var i := WithoutSplits(order[1..], id);
      k := i + 1;
      assert order[..k] == [order[0]] + order[1..][..i];
      if k < |order| {
        assert order[1..][i + 1..] == order[k + 1..];
      }
    }
  }

  /** Taking one session out of a list without repetitions leaves the others. */
  lemma {:induction false} RestMembers(order: seq<string>, id: string)
    requires forall i, j :: 0 <= i < j < |order| ==> order[i] != order[j]
    ensures forall other :: other in Without(order, id) <==> other in order && other != id
  {
    if order != [] {
      assert order == [order[0]] + order[1..];
      if order[0] != id {
        RestMembers(order[1..], id);
      }
    }
  }

  lemma DropOneKeepsOrder(t: Table, order: seq<string>, k: nat)
    requires InOrder(t, order) && k < |order|
    ensures InOrder(t, order[..k] + order[k + 1..])
  {
    var rest := order[..k] + order[k + 1..];
    forall i | 0 <= i < |rest| ensures rest[i] in t.sessions {
      if i < k { assert rest[i] == order[i]; } else { assert rest[i] == order[i + 1]; }
    }
    forall i, j | 0 <= i < j < |rest| ensures t.sessions[rest[i]].lastUsed < t.sessions[rest[j]].lastUsed {
      if j < k {
        assert rest[i] == order[i] && rest[j] == order[j];
      } else if i < k {
        assert rest[i] == order[i] && rest[j] == order[j + 1];
      } else {
        assert rest[i] == order[i + 1] && rest[j] == order[j + 1];
      }
    }
  }

  lemma RestSorted(t: Table, order: seq<string>, id: string)
    requires InOrder(t, order)
    ensures InOrder(t, Without(order, id))
  {
    var k := WithoutSplits(order, id);
    if k < |order| { DropOneKeepsOrder(t, order, k); }
  }

  /** Replacing a session that the list does not have keeps the list in order. */
  lemma OthersInOrder(t: Table, rest: seq<string>, id: string, s: Session)
    requires InOrder(t, rest) && id !in rest
    ensures InOrder(t.(sessions := t.sessions[id := s], clock := t.clock + 1), rest)
  {
    var t' := t.(sessions := t.sessions[id := s], clock := t.clock + 1);
    forall i | 0 <= i < |rest| ensures rest[i] in t'.sessions && t'.sessions[rest[i]] == t.sessions[rest[i]] {
      assert rest[i] in rest;
    }
  }

  lemma BackInOrder(t: Table, rest: seq<string>, id: string)
    requires InOrder(t, rest) && id in t.sessions
    requires forall i :: 0 <= i < |rest| ==>
      rest[i] in t.sessions && t.sessions[rest[i]].lastUsed < t.sessions[id].lastUsed
    ensures InOrder(t, rest + [id])
  {
    var order := rest + [id];
    forall i | 0 <= i < |order| ensures order[i] in t.sessions {
      assert order[i] == if i < |rest| then rest[i] else id;
    }
    forall i, j | 0 <= i < j < |order| ensures t.sessions[order[i]].lastUsed < t.sessions[order[j]].lastUsed {
      assert order[i] == rest[i] && order[j] == if j < |rest| then rest[j] else id;
    }
  }

  lemma OrderHasNoRepeats(t: Table, order: seq<string>)
    requires InOrder(t, order)
    ensures forall i, j :: 0 <= i < j < |order| ==> order[i] != order[j]
  {
  }

  /** What the list lacks of the sessions. */
  lemma BackHasAll(t: Table, order: seq<string>, id: string, s: Session)
    requires Recency(t, order) && s.lastUsed == t.clock
    ensures var t' := t.(sessions := t.sessions[id := s], clock := t.clock + 1);
      forall other :: other in t'.sessions ==>
        other in Without(order, id) + [id] && t'.sessions[other].lastUsed < t'.clock
  {
    OrderHasNoRepeats(t, order);
    RestMembers(order, id);
    var t', back := t.(sessions := t.sessions[id := s], clock := t.clock + 1), Without(order, id) + [id];
    assert back[|back| - 1] == id;
    hide InOrder, Without;
    forall other | other in t'.sessions && other != id ensures other in back {
      assert other in t.sessions && other in order;
      assert other in Without(order, id);
    }
  }

  /** A session given the newest timestamp belongs at the back. */
  lemma ToBack(t: Table, order: seq<string>, id: string, s: Session)
    requires Recency(t, order) && s.lastUsed == t.clock
    ensures Recency(t.(sessions := t.sessions[id := s], clock := t.clock + 1), Without(order, id) + [id])
  {
    var t', rest := t.(sessions := t.sessions[id := s], clock := t.clock + 1), Without(order, id);
    OrderHasNoRepeats(t, order);
    RestMembers(order, id);
    RestSorted(t, order, id);
    BackHasAll(t, order, id, s);
    hide InOrder, Without;
    OthersInOrder(t, rest, id, s);
    forall i | 0 <= i < |rest| ensures rest[i] in t'.sessions && t'.sessions[rest[i]].lastUsed < t.clock {
      assert rest[i] in rest;
      InOrderMembers(t, rest, i);
    }
    BackInOrder(t', rest, id);
  }

  lemma InOrderMembers(t: Table, order: seq<string>, i: nat)
    requires InOrder(t, order) && i < |order|
    ensures order[i] in t.sessions
  {
  }

  lemma ErasedInOrder(t: Table, rest: seq<string>, id: string)
    requires InOrder(t, rest) && id !in rest
    ensures InOrder(t.Erase(id), rest)
  {
    forall i | 0 <= i < |rest| ensures rest[i] in t.Erase(id).sessions {
      assert rest[i] in rest;
    }
  }

  ghost predicate NoRepeats(order: seq<string>) {
    forall i, j :: 0 <= i < j < |order| ==> order[i] != order[j]
  }

  lemma RecencyMeans(t: Table, order: seq<string>)
    requires Recency(t, order)
    ensures InOrder(t, order) && NoRepeats(order) && forall id :: id in t.sessions <==> id in order
  {
  }

  /** A list without the `k`-th of its distinct members. */
  lemma WithoutOne(order: seq<string>, k: nat)
    requires NoRepeats(order) && k < |order|
    ensures var rest := order[..k] + order[k + 1..];
      order[k] !in rest && forall id :: id in order && id != order[k] ==> id in rest
  {
    assert order == order[..k] + [order[k]] + order[k + 1..];
  }

  /** Erasing a session takes it out of the list. */
  lemma Drop(t: Table, order: seq<string>, k: nat)
    requires Recency(t, order) && k < |order|
    ensures Recency(t.Erase(order[k]), order[..k] + order[k + 1..])
  {
    var rest := order[..k] + order[k + 1..];
    RecencyMeans(t, order);
    DropOneKeepsOrder(t, order, k);
    WithoutOne(order, k);
    hide InOrder, NoRepeats;
    ErasedInOrder(t, rest, order[k]);
    forall id | id in t.Erase(order[k]).sessions ensures id in rest {
      assert id in t.sessions && id in order;
    }
  }

  lemma DropFront(t: Table, order: seq<string>)
    requires Recency(t, order) && order != []
    ensures Recency(t.Erase(order[0]), order[1..])
  {
    hide Recency;
    Drop(t, order, 0);
    assert order[..0] + order[0 + 1..] == order[1..];
  }

  lemma DropBack(t: Table, order: seq<string>)
    requires Recency(t, order) && order != []
    ensures Recency(t.Erase(order[|order| - 1]), order[..|order| - 1])
  {
    hide Recency;
    var n := |order| - 1;
    Drop(t, order, n);
    assert order[..n] + order[n + 1..] == order[..n];
  }

  lemma {:induction false} RecencySize(t: Table, order: seq<string>)
    requires Recency(t, order)
    ensures |order| == |t.sessions|
    decreases |order|
  {
    if order == [] {
      assert t.sessions == map[];
    } else {
      var last := order[|order| - 1];
      InOrderMembers(t, order, |order| - 1);
      DropBack(t, order);
      hide InOrder;
      EraseSize(t, last);
      RecencySize(t.Erase(last), order[..|order| - 1]);
    }
  }

  lemma EraseSize(t: Table, id: string)
    requires id in t.sessions
    ensures |t.Erase(id).sessions| == |t.sessions| - 1
  {
    assert t.Erase(id).sessions.Keys == t.sessions.Keys - {id};
  }

  lemma VictimIsFront(t: Table, order: seq<string>, victim: string)
    requires Recency(t, order) && t.IsVictim(victim)
    ensures order != [] && order[0] == victim
  {
    assert victim in order;
    var k :| 0 <= k < |order| && order[k] == victim;
    assert order[0] in t.sessions;
  }

  ghost predicate StepAgrees(t: Table, order: seq<string>, op: Op)
    requires Legal(t, op)
  {
    var (t', evicted), (order', dropped) := ApplyTable(t, op), ApplyList(t.max, order, op);
    Recency(t', order') && evicted == dropped && t'.max == t.max
  }

  lemma TouchAgrees(t: Table, order: seq<string>, id: string)
    requires Recency(t, order) && id in t.sessions
    ensures Recency(t.Touch(id), Without(order, id) + [id])
  {
    ToBack(t, order, id, t.sessions[id].(lastUsed := t.clock));
  }

  lemma ListedExactly(t: Table, order: seq<string>)
    requires Recency(t, order)
    ensures forall id :: id in order <==> id in t.sessions
  {
  }

  lemma InsertAgrees(t: Table, order: seq<string>, id: string, seqId: nat, victim: string)
    requires Recency(t, order) && t.max > 0 && Legal(t, Insert(id, seqId, victim))
    ensures StepAgrees(t, order, Insert(id, seqId, victim))
  {
    RecencySize(t, order);
    ListedExactly(t, order);
    hide Recency, InOrder, Without;
    if t.InsertEvicts(id) {
      EvictingInsert(t, order, id, seqId, victim);
    } else {
      ToBack(t, order, id, Session(id, seqId, [], t.clock));
    }
  }

  /** An insertion into a full table is an eviction and then a plain insertion. */
  lemma EvictingInsert(t: Table, order: seq<string>, id: string, seqId: nat, victim: string)
    requires Recency(t, order) && t.InsertEvicts(id) && t.IsVictim(victim) && id !in order
    ensures order != [] && order[0] == victim && Recency(t.Insert(id, seqId, victim), order[1..] + [id])
  {
    VictimIsFront(t, order, victim);
    DropFront(t, order);
    RestLacks(order, id);
    hide Recency, InOrder;
    WithoutAbsent(order[1..], id);
    ToBack(t.Erase(victim), order[1..], id, Session(id, seqId, [], t.clock));
  }

  lemma RestLacks(order: seq<string>, id: string)
    requires order != [] && id !in order
    ensures id !in order[1..]
  {
  }

  lemma WithoutAbsent(order: seq<string>, id: string)
    requires id !in order
    ensures Without(order, id) == order
  {
    var k := WithoutSplits(order, id);
  }

  lemma EvictAgrees(t: Table, order: seq<string>, victim: string)
    requires Recency(t, order) && Legal(t, EvictLru(victim))
    ensures StepAgrees(t, order, EvictLru(victim))
  {
    RecencySize(t, order);
    if |t.sessions| > 0 {
      VictimIsFront(t, order, victim);
      DropFront(t, order);
      hide Recency, InOrder;
    }
  }

  lemma TokensAgree(t: Table, order: seq<string>, id: string, tokens: seq<Token>)
    requires Recency(t, order) && id in t.sessions
    ensures Recency(t.SetTokens(id, tokens), order)
  {
    var t' := t.SetTokens(id, tokens);
    forall a | a in t.sessions ensures t'.sessions[a].lastUsed == t.sessions[a].lastUsed {
    }
  }

  lemma StepRefinesList(t: Table, order: seq<string>, op: Op)
    requires Recency(t, order) && t.max > 0 && Legal(t, op)
    ensures StepAgrees(t, order, op)
  {
    ListedExactly(t, order);
    match op
    case Find(id) =>
      hide Recency;
      if id in t.sessions { TouchAgrees(t, order, id); }
    case FindByPrefix(_, pick) =>
      hide Recency;
      if pick.Some? { TouchAgrees(t, order, pick.value); }
    case Insert(id, seqId, victim) =>
      hide Recency;
      InsertAgrees(t, order, id, seqId, victim);
    case EvictLru(victim) =>
      hide Recency;
      EvictAgrees(t, order, victim);
    case SetTokens(id, tokens) =>
      TokensAgree(t, order, id, tokens);
  }

  /** Over any run, the sessions evicted by timestamp are exactly those an LRU list evicts, in the same order. */
  lemma {:induction false} TimestampsAreLru(t: Table, order: seq<string>, ops: seq<Op>)
    requires Recency(t, order) && t.max > 0 && LegalRun(t, ops)
    ensures RunTable(t, ops) == RunList(t.max, order, ops)
    decreases |ops|
  {
    if ops != [] {
      StepRefinesList(t, order, ops[0]);
      TimestampsAreLru(ApplyTable(t, ops[0]).0, ApplyList(t.max, order, ops[0]).0, ops[1..]);
    }
  }

  class SessionTable {
    var max: nat
    var sessions: map<string, Session>
    var clock: nat

    ghost function View(): Table
      reads this
    {
      Table(max, sessions, clock)
    }

    constructor (maxSessions: nat)
      ensures View() == Table(maxSessions, map[], 0)
    {
      max, sessions, clock := maxSessions, map[], 0;
    }

    method Touch(id: string)
      requires id in sessions
      modifies this
      ensures View() == old(View()).Touch(id)
    {
      sessions := sessions[id := sessions[id].(lastUsed := clock)];
      clock := clock + 1;
    }

    method Find(id: string) returns (found: bool)
      modifies this
      ensures found <==> id in old(sessions)
      ensures View() == old(View()).Find(id)
    {
      if id !in sessions {
        return false;
      }
      Touch(id);
      return true;
    }

    /** `std::min_element` over the map, which visits the sessions in an unspecified order. */
    method LeastRecentlyUsed() returns (victim: string)
      requires |sessions| > 0
      ensures View().IsVictim(victim)
    {
      var rest := sessions.Keys;
      assert |rest| == |sessions|;
      victim :| victim in rest;
      rest := rest - {victim};
      while rest != {}
        invariant rest <= sessions.Keys && victim in sessions
        invariant forall id :: id in sessions && id !in rest ==> sessions[victim].lastUsed <= sessions[id].lastUsed
        decreases rest
      {
        var id :| id in rest;
        if sessions[id].lastUsed < sessions[victim].lastUsed {
          victim := id;
        }
        rest := rest - {id};
      }
    }

    method Insert(id: string, seqId: nat) returns (evicted: Option<nat>, ghost victim: string)
      requires max > 0
      modifies this
      ensures old(View()).InsertEvicts(id) ==> old(View()).IsVictim(victim)
      ensures evicted == if old(View()).InsertEvicts(id) then Some(old(sessions)[victim].seqId) else None
      ensures View() == old(View()).Insert(id, seqId, victim)
    {
      evicted, victim := None, "";
      if |sessions| >= max && id !in sessions {
        var v := LeastRecentlyUsed();
        victim := v;
        evicted := Some(sessions[v].seqId);
        sessions := map k | k in sessions && k != v :: sessions[k];
      }
      sessions := sessions[id := Session(id, seqId, [], clock)];
      clock := clock + 1;
    }

    method FindByPrefix(prompt: seq<Token>) returns (best: Option<string>)
      modifies this
      ensures old(View()).IsPick(prompt, best)
      ensures View() == if best.Some? then old(View()).Touch(best.value) else old(View())
    {
      best := None;
      var bestLen := 0;
      var rest := sessions.Keys;
      while rest != {}
        invariant rest <= sessions.Keys && View() == old(View())
        invariant best.None? ==> bestLen == 0
        invariant best.Some? ==>
          && best.value in sessions && View().Matches(best.value, prompt)
          && bestLen == |sessions[best.value].tokens|
        invariant forall id :: id in sessions && id !in rest && View().Matches(id, prompt) ==>
          |sessions[id].tokens| <= bestLen
        decreases rest
      {
        var id :| id in rest;
        rest := rest - {id};
        var tokens := sessions[id].tokens;
        if |tokens| == 0 || |tokens| > |prompt| || tokens != prompt[..|tokens|] {
          continue;
        }
        if |tokens| > bestLen {
          bestLen := |tokens|;
          best := Some(id);
        }
      }
      if best.Some? {
        Touch(best.value);
      }
    }

    method EvictLru() returns (evicted: Option<nat>, ghost victim: string)
      modifies this
      ensures |old(sessions)| == 0 ==> evicted == None && View() == old(View())
      ensures |old(sessions)| > 0 ==>
        && old(View()).IsVictim(victim)
        && evicted == Some(old(sessions)[victim].seqId)
        && View() == old(View()).Erase(victim)
    {
      victim := "";
      if |sessions| == 0 {
        return None, victim;
      }
      var v := LeastRecentlyUsed();
      victim := v;
      evicted := Some(sessions[v].seqId);
      sessions := map k | k in sessions && k != v :: sessions[k];
    }

    /** An assignment to `sess->tokens`. */
    method SetTokens(id: string, tokens: seq<Token>)
      requires id in sessions
      modifies this
      ensures View() == old(View()).SetTokens(id, tokens)
    {
      sessions := sessions[id := sessions[id].(tokens := tokens)];
    }
  }
}
