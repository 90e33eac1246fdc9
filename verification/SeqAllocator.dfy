/** `SeqAllocator`: the pool of KV sequence ids (`src/inference/session.{hpp,cpp}`). */
module SeqAllocation {
  import opened Options

  /** The allocator's state as a value: `max_`, the round-robin cursor `next_`, and `in_use_`. */
  datatype Pool = Pool(max: nat, next: nat, inUse: seq<bool>) {
    predicate Valid() {
      max >= 2 && |inUse| == max && next < max
    }

    /** Id 0 is the stateless sequence and is never handed out. */
    predicate Free(id: nat)
      requires Valid()
    {
      1 <= id < max && !inUse[id]
    }

    /** The slot looked at `i` places after the cursor. */
    function Slot(i: nat): (id: nat)
      requires Valid()
      ensures id < max
    {
      (next + i) % max
    }

    /** How far after the cursor an id lies, going round. */
    function Distance(id: nat): (d: nat)
      requires Valid() && id < max
      ensures d < max
    {
      if id >= next then id - next else id + max - next
    }

    /** The one slot that the scan never reaches: the cursor's cyclic predecessor. */
    function Skipped(): (id: nat)
      requires Valid()
      ensures id < max
    {
      if next == 0 then max - 1 else next - 1
    }

    /** The scan of `take` from its `i`-th slot on; it stops after `max - 1` slots. */
    function Scan(i: nat): (r: Option<nat>)
      requires Valid()
      ensures r.Some? ==> Free(r.value)
      decreases max - 1 - i
    {
      if i >= max - 1 then None
      else if Free(Slot(i)) then Some(Slot(i))
      else Scan(i + 1)
    }

    function Claim(id: nat): (p: Pool)
      requires Valid() && id < max
      ensures p.Valid()
    {
      this.(inUse := inUse[id := true], next := (id + 1) % max)
    }

    function Take(): (Option<nat>, Pool)
      requires Valid()
    {
      var r := Scan(0);
      (r, if r.Some? then Claim(r.value) else this)
    }

    function GiveBack(id: int): (p: Pool)
      requires Valid()
      ensures p.Valid()
    {
      if 0 < id < max then this.(inUse := inUse[id := false]) else this
    }
  }

  lemma WrapOnce(n: nat, max: nat)
    requires n < max + max
    ensures n % max == if n < max then n else n - max
  {
    var q, r := n / max, n % max;
    assert n == q * max + r && 0 <= r < max;
    assert q >= 2 ==> q * max >= 2 * max;
    assert q == 1 ==> q * max == max;
  }

  lemma SlotIsAddition(p: Pool, i: nat)
    requires p.Valid() && i < p.max
    ensures p.Slot(i) == if p.next + i < p.max then p.next + i else p.next + i - p.max
  {
    WrapOnce(p.next + i, p.max);
  }

  /** Scanning `i` places from the cursor and measuring the distance from the cursor are inverse. */
  lemma SlotDistance(p: Pool, i: nat, id: nat)
    requires p.Valid() && i < p.max && id < p.max
    ensures p.Distance(p.Slot(i)) == i
    ensures p.Slot(p.Distance(id)) == id
    ensures i == p.max - 1 <==> p.Slot(i) == p.Skipped()
    ensures id == p.Skipped() <==> p.Distance(id) == p.max - 1
  {
    SlotIsAddition(p, i);
    SlotIsAddition(p, p.Distance(id));
  }

  lemma {:induction false} ScanExact(p: Pool, i: nat)
    requires p.Valid()
    ensures p.Scan(i).None? <==> forall id :: p.Free(id) && i <= p.Distance(id) ==> id == p.Skipped()
    ensures p.Scan(i).Some? ==>
      var id := p.Scan(i).value;
      && p.Free(id) && id != p.Skipped() && i <= p.Distance(id)
      && forall other :: p.Free(other) && i <= p.Distance(other) ==> p.Distance(id) <= p.Distance(other)
    decreases p.max - 1 - i
  {
    forall id | 0 <= id < p.max ensures p.Slot(p.Distance(id)) == id
      ensures id == p.Skipped() <==> p.Distance(id) == p.max - 1
    {
      SlotDistance(p, 0, id);
    }
    if i < p.max - 1 {
      SlotDistance(p, i, 0);
      ScanExact(p, i + 1);
    }
  }

  /**
   `take` in full: it fails exactly when every id but the cursor's predecessor is in use (so the
   source's remark that a sweep finds any freed slot is off by that one slot); otherwise it hands out
   the first free non-zero id in cyclic order from the cursor, and the id handed out becomes the one
   slot that the next scan skips.
   */
  lemma TakeExact(p: Pool)
    requires p.Valid()
    ensures
      var (r, p') := p.Take();
      && p'.Valid() && p'.max == p.max
      && (r.None? <==> forall id :: 1 <= id < p.max && id != p.Skipped() ==> p.inUse[id])
      && (r.None? ==> p' == p)
      && (r.Some? ==>
            && p.Free(r.value)
            && (forall other :: p.Free(other) ==> p.Distance(r.value) <= p.Distance(other))
            && p'.inUse == p.inUse[r.value := true]
            && p'.Skipped() == r.value)
  {
    ScanExact(p, 0);
    var (r, p') := p.Take();
    if r.None? {
      forall id | 1 <= id < p.max && id != p.Skipped() ensures p.inUse[id] {
        assert p.Free(id) <==> !p.inUse[id];
      }
    } else {
      assert p.Free(r.value) && !p.inUse[r.value];
      WrapOnce(r.value + 1, p.max);
    }
  }

  /** With every id in use, giving one back and retrying returns that id, unless it is the skipped one. */
  lemma RetryAfterGiveBack(p: Pool, id: nat)
    requires p.Valid() && 1 <= id < p.max
    requires forall k :: 1 <= k < p.max ==> p.inUse[k]
    ensures p.Take().0.None?
    ensures p.GiveBack(id).Take().0 == if id == p.Skipped() then None else Some(id)
  {
    TakeExact(p);
    var q := p.GiveBack(id);
    TakeExact(q);
    assert q.Skipped() == p.Skipped();
    assert q.Free(id);
    if id != p.Skipped() {
      assert q.Free(q.Take().0.value);
    }
  }

  class SeqAllocator {
    var max: nat
    var next: nat
    var inUse: seq<bool>

    ghost function View(): Pool
      reads this
    {
      Pool(max, next, inUse)
    }

    ghost predicate Valid()
      reads this
    {
      View().Valid()
    }

    /** `max_` is at least 2 but `in_use_` has the size asked for, so fewer than two sequences make no usable pool. */
    constructor (maxSeqs: nat)
      ensures View() == Pool(if maxSeqs < 2 then 2 else maxSeqs, 1, seq(maxSeqs, _ => false))
      ensures Valid() <==> maxSeqs >= 2
    {
      max, next := if maxSeqs < 2 then 2 else maxSeqs, 1;
      inUse := seq(maxSeqs, _ => false);
    }

    method Take() returns (r: Option<nat>)
      requires Valid()
      modifies this
      ensures Valid()
      ensures (r, View()) == old(View()).Take()
    {
      ghost var p := View();
      TakeExact(p);
      var i := 1;
      while i < max
        invariant 1 <= i <= max
        invariant View() == p
        invariant p.Scan(0) == p.Scan(i - 1)
      {
        var idx := (next + i - 1) % max;
        assert idx == p.Slot(i - 1);
        if idx != 0 && !inUse[idx] {
          inUse := inUse[idx := true];
          next := (idx + 1) % max;
          return Some(idx);
        }
        i := i + 1;
      }
      return None;
    }

    method GiveBack(id: int)
      requires Valid()
      modifies this
      ensures Valid()
      ensures View() == old(View()).GiveBack(id)
    {
      if id > 0 && id < max {
        inUse := inUse[id := false];
      }
    }
  }
}
