/** The llama.cpp KV cache as the server uses it: one list of (position, token) cells per sequence id. */
module KvCaches {
  import opened SessionTables

  datatype Cell = Cell(pos: nat, tok: Token)

  /** One slot of a `llama_batch`. */
  datatype Entry = Entry(tok: Token, pos: nat, seqId: nat, logits: bool)

  /** `last` is the context that the logits buffer belongs to. */
  datatype Kv = Kv(seqs: map<nat, seq<Cell>>, last: seq<Cell>) {
    function At(seqId: nat): seq<Cell> {
      if seqId in seqs then seqs[seqId] else []
    }

    /** `llama_memory_seq_rm(mem, seqId, from, -1)`; a negative `from` means the whole sequence. */
    function SeqRm(seqId: nat, from: int): Kv {
      this.(seqs := seqs[seqId := Below(At(seqId), from)])
    }

    function Put(e: Entry): Kv {
      var ctx := At(e.seqId) + [Cell(e.pos, e.tok)];
      Kv(seqs[e.seqId := ctx], if e.logits then ctx else last)
    }

    /** A successful `llama_decode`: the entries join their sequences in order. */
    function Decode(batch: seq<Entry>): Kv {
      if batch == [] then this else Decode(batch[..|batch| - 1]).Put(batch[|batch| - 1])
    }
  }

  function Below(cells: seq<Cell>, from: int): seq<Cell> {
    if cells == [] then []
    else if cells[0].pos < from then [cells[0]] + Below(cells[1..], from)
    else Below(cells[1..], from)
  }

  /** The cells of a sequence that holds `tokens` at positions 0, 1, 2, ... */
  function Cells(tokens: seq<Token>): seq<Cell> {
    seq(|tokens|, i requires 0 <= i < |tokens| => Cell(i, tokens[i]))
  }

  /** The batch entries that feed `tokens[lo..hi]`, asking for logits on the last token only. */
  function Entries(tokens: seq<Token>, lo: nat, hi: nat, seqId: nat): seq<Entry>
    requires lo <= hi <= |tokens|
  {
    seq(hi - lo, i requires 0 <= i < hi - lo => Entry(tokens[lo + i], lo + i, seqId, lo + i + 1 == |tokens|))
  }

  /** The cache after `tokens[lo..hi]` were fed to a sequence. */
  function FeedTo(kv: Kv, tokens: seq<Token>, lo: nat, hi: nat, seqId: nat): Kv
    requires lo <= hi <= |tokens|
  {
    kv.Decode(Entries(tokens, lo, hi, seqId))
  }

  lemma {:induction false} BelowSlice(cells: seq<Cell>, lo: int, k: nat)
    requires k <= |cells|
    requires forall i :: 0 <= i < k ==> cells[i].pos < lo
    requires forall i :: k <= i < |cells| ==> cells[i].pos >= lo
    ensures Below(cells, lo) == cells[..k]
  {
    if cells == [] {
    } else if k == 0 {
      BelowSlice(cells[1..], lo, 0);
    } else {
      BelowSlice(cells[1..], lo, k - 1);
      assert cells[..k] == [cells[0]] + cells[1..][..k - 1];
    }
  }

  /** Truncating a coherent sequence at position `k` leaves exactly its first `k` tokens. */
  lemma SeqRmTruncates(kv: Kv, seqId: nat, tokens: seq<Token>, k: nat)
    requires kv.At(seqId) == Cells(tokens) && k <= |tokens|
    ensures kv.SeqRm(seqId, k).At(seqId) == Cells(tokens[..k])
  {
    BelowSlice(Cells(tokens), k, k);
    assert Cells(tokens)[..k] == Cells(tokens[..k]);
  }

  lemma SeqRmClears(kv: Kv, seqId: nat)
    ensures kv.SeqRm(seqId, -1).At(seqId) == []
  {
    BelowSlice(kv.At(seqId), -1, 0);
  }

  /** Decoding two batches one after the other is decoding their concatenation, so batching is immaterial. */
  lemma {:induction false} DecodeConcat(kv: Kv, a: seq<Entry>, b: seq<Entry>)
    ensures kv.Decode(a).Decode(b) == kv.Decode(a + b)
    decreases |b|
  {
    if b == [] {
      assert a + b == a;
    } else {
      DecodeConcat(kv, a, b[..|b| - 1]);
      assert (a + b)[..|a + b| - 1] == a + b[..|b| - 1];
    }
  }

  lemma EntriesConcat(tokens: seq<Token>, lo: nat, mid: nat, hi: nat, seqId: nat)
    requires lo <= mid <= hi <= |tokens|
    ensures Entries(tokens, lo, mid, seqId) + Entries(tokens, mid, hi, seqId) == Entries(tokens, lo, hi, seqId)
  {
  }

  lemma DecodeSnoc(kv: Kv, batch: seq<Entry>, e: Entry)
    ensures kv.Decode(batch + [e]) == kv.Decode(batch).Put(e)
  {
    assert (batch + [e])[..|batch|] == batch;
  }

  lemma EntriesSnoc(tokens: seq<Token>, lo: nat, hi: nat, seqId: nat)
    requires lo <= hi < |tokens|
    ensures Entries(tokens, lo, hi + 1, seqId)
      == Entries(tokens, lo, hi, seqId) + [Entry(tokens[hi], hi, seqId, hi + 1 == |tokens|)]
    ensures Cells(tokens)[lo..hi + 1] == Cells(tokens)[lo..hi] + [Cell(hi, tokens[hi])]
  {
  }

  /** `kv'` is `kv` after `tokens[lo..hi]` were fed to sequence `seqId`: every sequence and the logits buffer. */
  ghost predicate Fed(kv: Kv, kv': Kv, tokens: seq<Token>, lo: nat, hi: nat, seqId: nat)
    requires lo <= hi <= |tokens|
  {
    && kv'.At(seqId) == kv.At(seqId) + Cells(tokens)[lo..hi]
    && (forall other :: other != seqId ==> kv'.At(other) == kv.At(other))
    && kv'.last == if lo < hi == |tokens| then kv'.At(seqId) else kv.last
  }

  lemma FedStep(kv: Kv, mid: Kv, tokens: seq<Token>, lo: nat, hi: nat, seqId: nat)
    requires lo <= hi < |tokens| && Fed(kv, mid, tokens, lo, hi, seqId)
    ensures Fed(kv, mid.Put(Entry(tokens[hi], hi, seqId, hi + 1 == |tokens|)), tokens, lo, hi + 1, seqId)
  {
    var kv' := mid.Put(Entry(tokens[hi], hi, seqId, hi + 1 == |tokens|));
    var fed := Cells(tokens)[lo..hi];
    assert Cells(tokens)[lo..hi + 1] == fed + [Cell(hi, tokens[hi])];
    assert kv.At(seqId) + (fed + [Cell(hi, tokens[hi])]) == kv.At(seqId) + fed + [Cell(hi, tokens[hi])];
  }

  lemma FeedToSnoc(kv: Kv, tokens: seq<Token>, lo: nat, hi: nat, seqId: nat)
    requires lo <= hi < |tokens|
    ensures FeedTo(kv, tokens, lo, hi + 1, seqId)
      == FeedTo(kv, tokens, lo, hi, seqId).Put(Entry(tokens[hi], hi, seqId, hi + 1 == |tokens|))
  {
    EntriesSnoc(tokens, lo, hi, seqId);
    DecodeSnoc(kv, Entries(tokens, lo, hi, seqId), Entry(tokens[hi], hi, seqId, hi + 1 == |tokens|));
  }

  lemma FeedToNothing(kv: Kv, tokens: seq<Token>, lo: nat, seqId: nat)
    requires lo <= |tokens|
    ensures FeedTo(kv, tokens, lo, lo, seqId) == kv
  {
    assert Entries(tokens, lo, lo, seqId) == [];
  }

  lemma FedNothing(kv: Kv, tokens: seq<Token>, lo: nat, seqId: nat)
    requires lo <= |tokens|
    ensures Fed(kv, kv, tokens, lo, lo, seqId)
  {
    assert kv.At(seqId) + Cells(tokens)[lo..lo] == kv.At(seqId);
  }

  lemma {:induction false} FeedToFeeds(kv: Kv, tokens: seq<Token>, lo: nat, hi: nat, seqId: nat)
    requires lo <= hi <= |tokens|
    ensures Fed(kv, FeedTo(kv, tokens, lo, hi, seqId), tokens, lo, hi, seqId)
    decreases hi
  {
    hide *;
    if lo == hi {
      FeedToNothing(kv, tokens, lo, seqId);
      FedNothing(kv, tokens, lo, seqId);
    } else {
      var last := hi - 1;
      FeedToFeeds(kv, tokens, lo, last, seqId);
      FeedToSnoc(kv, tokens, lo, last, seqId);
      FedStep(kv, FeedTo(kv, tokens, lo, last, seqId), tokens, lo, last, seqId);
    }
  }
}
