/** What the `on_token` pieces of a streamed completion add up to. */
module Streaming {
  import opened Options
  import opened SessionTables
  import opened Completion

  function Flatten(pieces: seq<string>): string {
    if pieces == [] then "" else Flatten(pieces[..|pieces| - 1]) + pieces[|pieces| - 1]
  }

  /** The code's `detokenize`, which yields no text for no tokens. */
  function Text(m: Model, gen: seq<Token>): string {
    if gen == [] then "" else m.detok(gen)
  }

  /** The `i`-th token only extends the text. */
  ghost predicate Extends(m: Model, gen: seq<Token>, i: nat)
    requires i < |gen|
  {
    Text(m, gen[..i]) <= Text(m, gen[..i + 1])
  }

  ghost predicate PrefixMonotone(m: Model, gen: seq<Token>) {
    forall i :: 0 <= i < |gen| ==> Extends(m, gen, i)
  }

  lemma FlattenSnoc(pieces: seq<string>, piece: string)
    ensures Flatten(pieces + [piece]) == Flatten(pieces) + piece
  {
    assert (pieces + [piece])[..|pieces|] == pieces;
  }

  lemma MonotoneSnoc(m: Model, gen: seq<Token>)
    requires gen != []
    ensures var front := gen[..|gen| - 1];
      PrefixMonotone(m, gen) <==> PrefixMonotone(m, front) && Text(m, front) <= Text(m, gen)
  {
    var front := gen[..|gen| - 1];
    assert gen[..|front| + 1] == gen;
    forall i | 0 <= i < |front| ensures Extends(m, front, i) <==> Extends(m, gen, i) {
      assert front[..i] == gen[..i] && front[..i + 1] == gen[..i + 1];
    }
    if PrefixMonotone(m, gen) {
      assert Extends(m, gen, |front|);
    }
  }

  /**
   One resend makes the stream longer than the text for good, so the pieces join to the text only if there was none.
   */
  lemma {:induction false} StreamExact(m: Model, gen: seq<Token>)
    ensures var (pieces, emitted) := Stream(m, gen);
      && emitted == Text(m, gen)
      && (PrefixMonotone(m, gen) ==> Flatten(pieces) == emitted)
      && (!PrefixMonotone(m, gen) ==> |Flatten(pieces)| > |emitted|)
  {
    if gen != [] {
      var front := gen[..|gen| - 1];
      StreamExact(m, front);
      MonotoneSnoc(m, gen);
      var (pieces, emitted) := Stream(m, front);
      var full := m.detok(gen);
      FlattenSnoc(pieces, full);
      if emitted <= full {
        FlattenSnoc(pieces, full[|emitted|..]);
        assert full == emitted + full[|emitted|..];
      }
    }
  }

  // ---- the same without a memory of what was sent ----

  /** What one more token sends: the new end of the text, or all of it again when it was not only extended. */
  function Piece(sent: string, full: string): seq<string> {
    if full == sent then [] else if sent <= full then [full[|sent|..]] else [full]
  }

  function Pieces(m: Model, gen: seq<Token>): seq<string> {
    if gen == [] then []
    else
      var front := gen[..|gen| - 1];
      Pieces(m, front) + Piece(Text(m, front), Text(m, gen))
  }

  lemma {:induction false} StreamIsPieces(m: Model, gen: seq<Token>)
    ensures Stream(m, gen) == (Pieces(m, gen), Text(m, gen))
  {
    if gen != [] {
      StreamIsPieces(m, gen[..|gen| - 1]);
      assert Pieces(m, gen[..|gen| - 1]) + [] == Pieces(m, gen[..|gen| - 1]);
    }
  }

  lemma PiecesSnoc(m: Model, gen: seq<Token>, id: Token)
    ensures Pieces(m, gen + [id]) == Pieces(m, gen) + Piece(Text(m, gen), Text(m, gen + [id]))
  {
    assert (gen + [id])[..|gen|] == gen;
  }

  /**
   The pieces of a reply join to the text of the generated tokens, or of all but the last when a stop
   sequence ended the generation, exactly when detokenization only ever extended the text.
   */
  lemma PiecesJoinExactly(m: Model, req: Request, g: Generation)
    requires req.streaming
    ensures Flatten(MakeReply(m, req, g).pieces) == Text(m, Streamed(g)) <==> PrefixMonotone(m, Streamed(g))
  {
    StreamExact(m, Streamed(g));
  }

  // ---- stop sequences ----

  lemma ContainsExactly(text: string, pattern: string)
    ensures Contains(text, pattern) <==> exists before, after :: text == before + pattern + after
  {
    if Contains(text, pattern) {
      var i :| 0 <= i <= |text| && OccursAt(text, pattern, i);
      assert text == text[..i] + pattern + text[i + |pattern|..];
    }
    if before, after :| text == before + pattern + after {
      assert OccursAt(text, pattern, |before|);
    }
  }

  /** A stop sequence is hit exactly when a non-empty one stands somewhere in the text. */
  lemma HitsStopExactly(stops: Option<seq<string>>, text: string)
    ensures HitsStop(stops, text) <==>
      stops.Some? && exists stop, before, after :: stop in stops.value && stop != "" && text == before + stop + after
  {
    hide Contains;
    if HitsStop(stops, text) {
      var i :| 0 <= i < |stops.value| && stops.value[i] != "" && Contains(text, stops.value[i]);
      ContainsExactly(text, stops.value[i]);
    }
    if stops.Some? {
      if stop, before, after :| stop in stops.value && stop != "" && text == before + stop + after {
        ContainsExactly(text, stop);
      }
    }
  }
}
