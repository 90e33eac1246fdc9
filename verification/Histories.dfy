/** How a sequence of the KV cache can stand to the token history recorded for it. */
module Histories {
  import opened Options
  import opened SessionTables
  import opened KvCaches

  /** How many cells are at position `d`. */
  function Count(cells: seq<Cell>, d: nat): nat {
    if cells == [] then 0
    else Count(cells[..|cells| - 1], d) + if cells[|cells| - 1].pos == d then 1 else 0
  }

  /**
   Without a level the cells are exactly the history. At level `d` they agree with it below position `d`,
   where there is a cell too many: a second one, or one past the end of the history.
   */
  predicate Held(cells: seq<Cell>, tokens: seq<Token>, level: Option<nat>) {
    match level
    case None => cells == Cells(tokens)
    case Some(d) =>
      && d <= |tokens| && Below(cells, d) == Cells(tokens[..d])
      && Count(cells, d) > if d < |tokens| then 1 else 0
  }

  lemma CountSnoc(cells: seq<Cell>, c: Cell, d: nat)
    ensures Count(cells + [c], d) == Count(cells, d) + if c.pos == d then 1 else 0
  {
    assert (cells + [c])[..|cells|] == cells;
  }

  lemma {:induction false} BelowSnoc(cells: seq<Cell>, c: Cell, k: int)
    ensures Below(cells + [c], k) == Below(cells, k) + if c.pos < k then [c] else []
  {
    if cells == [] {
      assert [] + [c] == [c] && [c][1..] == [];
    } else {
      assert (cells + [c])[1..] == cells[1..] + [c];
      BelowSnoc(cells[1..], c, k);
    }
  }

  lemma CellsSnoc(tokens: seq<Token>, t: Token)
    ensures Cells(tokens + [t]) == Cells(tokens) + [Cell(|tokens|, t)]
  {
  }

  lemma {:induction false} CountCells(tokens: seq<Token>, d: nat)
    ensures Count(Cells(tokens), d) == if d < |tokens| then 1 else 0
  {
    if tokens != [] {
      var front, last := tokens[..|tokens| - 1], tokens[|tokens| - 1];
      assert tokens == front + [last];
      CellsSnoc(front, last);
      CountSnoc(Cells(front), Cell(|front|, last), d);
      CountCells(front, d);
    }
  }

  /** At a level the cells are not the history. */
  lemma LevelIsIncoherent(cells: seq<Cell>, tokens: seq<Token>, level: Option<nat>)
    requires Held(cells, tokens, level)
    ensures cells == Cells(tokens) <==> level.None?
  {
    if level.Some? { CountCells(tokens, level.value); }
  }

  /** The next token at the next position changes no level. */
  lemma HeldAppend(cells: seq<Cell>, tokens: seq<Token>, t: Token, level: Option<nat>)
    requires Held(cells, tokens, level)
    ensures Held(cells + [Cell(|tokens|, t)], tokens + [t], level)
  {
    match level
    case None => CellsSnoc(tokens, t);
    case Some(d) =>
      CountSnoc(cells, Cell(|tokens|, t), d);
      BelowSnoc(cells, Cell(|tokens|, t), d);
      assert (tokens + [t])[..d] == tokens[..d];
      assert Below(cells, d) + [] == Below(cells, d);
  }

  /** A cell past the end of the history brings in a level there, unless there is one already. */
  lemma HeldExtra(cells: seq<Cell>, tokens: seq<Token>, c: Cell, level: Option<nat>)
    requires Held(cells, tokens, level)
    requires if level.None? then c.pos == |tokens| else c.pos >= |tokens|
    ensures Held(cells + [c], tokens, Some(if level.Some? then level.value else |tokens|))
  {
    var d := if level.Some? then level.value else |tokens|;
    CountSnoc(cells, c, d);
    BelowSnoc(cells, c, d);
    assert Below(cells, d) + [] == Below(cells, d);
    if level.None? {
      BelowSlice(cells, d, d);
      assert tokens[..d] == tokens && cells[..d] == cells;
    }
  }

  lemma {:induction false} BelowTwice(cells: seq<Cell>, k: int, d: int)
    requires d <= k
    ensures Below(Below(cells, k), d) == Below(cells, d)
  {
    if cells != [] { BelowTwice(cells[1..], k, d); }
  }

  lemma {:induction false} CountBelow(cells: seq<Cell>, k: int, d: nat)
    requires d < k
    ensures Count(Below(cells, k), d) == Count(cells, d)
  {
    if cells != [] {
      var front, last := cells[..|cells| - 1], cells[|cells| - 1];
      assert cells == front + [last];
      BelowSnoc(front, last, k);
      CountBelow(front, k, d);
      CountSnoc(front, last, d);
      if last.pos < k { CountSnoc(Below(front, k), last, d); } else { assert Below(front, k) + [] == Below(front, k); }
    }
  }

  /** The level left by truncating at position `k`. */
  function Cut(level: Option<nat>, k: nat): Option<nat> {
    if level.Some? && k <= level.value then None else level
  }

  /** Truncating at or below its level repairs a sequence; truncating above leaves the level. */
  lemma HeldCut(cells: seq<Cell>, tokens: seq<Token>, k: nat, level: Option<nat>)
    requires Held(cells, tokens, level) && k <= |tokens|
    ensures Held(Below(cells, k), tokens[..k], Cut(level, k))
  {
    match level
    case None =>
      BelowSlice(cells, k, k);
      assert Cells(tokens)[..k] == Cells(tokens[..k]);
    case Some(d) =>
      if d < k {
        BelowTwice(cells, k, d);
        CountBelow(cells, k, d);
        assert tokens[..k][..d] == tokens[..d];
      } else {
        BelowTwice(cells, d, k);
        BelowSlice(Cells(tokens[..d]), k, k);
        assert Cells(tokens[..d])[..k] == Cells(tokens[..k]);
      }
  }

  /** Feeding `tokens[lo..hi]` after the first `lo` tokens. */
  lemma {:induction false} HeldFed(cells: seq<Cell>, tokens: seq<Token>, lo: nat, hi: nat, level: Option<nat>)
    requires lo <= hi <= |tokens| && Held(cells, tokens[..lo], level)
    ensures Held(cells + Cells(tokens)[lo..hi], tokens[..hi], level)
    decreases hi
  {
    if lo == hi {
      assert cells + Cells(tokens)[lo..hi] == cells;
    } else {
      var last := hi - 1;
      HeldFed(cells, tokens, lo, last, level);
      var fed := cells + Cells(tokens)[lo..last];
      HeldAppend(fed, tokens[..last], tokens[last], level);
      assert tokens[..hi] == tokens[..last] + [tokens[last]];
      assert cells + Cells(tokens)[lo..hi] == fed + [Cell(last, tokens[last])];
    }
  }

  /** The level that unrecorded cells bring in at the end `lo` of the history. */
  function Spoilt(level: Option<nat>, lo: nat): Option<nat> {
    if level.Some? then level else Some(lo)
  }

  /** Feeding `tokens[lo..hi]` without recording it. */
  lemma {:induction false} HeldUnrecorded(cells: seq<Cell>, tokens: seq<Token>, lo: nat, hi: nat, level: Option<nat>)
    requires lo < hi <= |tokens| && Held(cells, tokens[..lo], level)
    ensures Held(cells + Cells(tokens)[lo..hi], tokens[..lo], Spoilt(level, lo))
    decreases hi
  {
    var last := hi - 1;
    var fed := cells + Cells(tokens)[lo..last];
    assert cells + Cells(tokens)[lo..hi] == fed + [Cell(last, tokens[last])];
    if lo == last {
      assert fed == cells;
      HeldExtra(cells, tokens[..lo], Cell(last, tokens[last]), level);
    } else {
      HeldUnrecorded(cells, tokens, lo, last, level);
      HeldExtra(fed, tokens[..lo], Cell(last, tokens[last]), Spoilt(level, lo));
    }
  }
}
