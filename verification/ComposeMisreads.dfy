/** What the compose reader misreads or drops: keys without a value, and lines out of place. */
module ComposeMisreads {
  import opened ComposeText
  import opened ComposeParser
  import opened ComposeRoundTrip
  import opened ComposeInlineItems

  lemma {:induction false} ParsedMapIsMap(ls: Lines, pos: nat, indent: nat, entries: map<string, Node>)
    ensures var (r, next) := ParseMap(ls, pos, indent, entries); r.Ok? ==> r.value.Map?
    decreases Left(ls, pos)
  {
    hide ParseKv;
    if pos < |ls| && ls[pos].indent == indent && !Dash(ls[pos].text) {
      var (more, next) := ParseKv(ls, pos + 1, ls[pos].text, entries);
      if more.Ok? { ParsedMapIsMap(ls, next, indent, more.value); }
    }
  }

  /**
   A key with nothing after its colon is read as one without a value exactly when the next line, if there is one, is at
   the left margin or looks like neither an item nor a key: how deep it stands is not compared with the key.
   */
  lemma NullExactly(ls: Lines, pos: nat, key: Written, into: map<string, Node>)
    requires Keyable(key)
    ensures var text := key.Print() + ":";
      ParseKv(ls, pos, text, into) == (Ok(into[key.text := EMPTY_NODE]), pos) <==>
        pos >= |ls| || ls[pos].indent == 0
        || !(Dash(ls[pos].text) || HasColonSpace(ls[pos].text) || EndsWithColon(ls[pos].text))
  {
    KeyLine(key);
    if NestedFollows(ls, pos) {
      ItemsNeedDashes(ls, pos, ls[pos].indent, []);
      ParsedMapIsMap(ls, pos, ls[pos].indent, map[]);
    }
    hide ParseSeq, ParseMap, Dash, HasColonSpace, EndsWithColon, Keyable, SplitFrom, Trim, Unquote;
    var r := ParseKv(ls, pos, key.Print() + ":", into).0;
    assert r.Ok? && r.value == into[key.text := EMPTY_NODE] ==> r.value[key.text] == EMPTY_NODE;
  }

  /** Off the left margin, such a key takes all entries after it for its value. */
  lemma NullSwallows(ls: Lines, pos: nat, key: Written, rest: seq<Entry>, indent: nat, into: map<string, Node>)
    requires At(ls, pos, PrintEntries(rest, indent), indent) && PlainEntries(rest) && rest != []
    requires Keyable(key) && indent > 0
    ensures ParseKv(ls, pos, key.Print() + ":", into)
      == (Ok(into[key.text := Map(AddEntries(rest, map[]))]), pos + |PrintEntries(rest, indent)|)
  {
    hide *;
    KeyLine(key);
    FirstOfBranch(rest, indent);
    FirstOf(ls, pos, PrintEntries(rest, indent), indent);
    ParsePrintedEntries(ls, pos, rest, indent, map[]);
    MappingBelow(ls, pos, key, into, Map(AddEntries(rest, map[])), pos + |PrintEntries(rest, indent)|);
  }

  lemma MappingBelow(ls: Lines, pos: nat, key: Written, into: map<string, Node>, child: Node, next: nat)
    requires Keyable(key) && pos < |ls| && ls[pos].indent > 0 && !Dash(ls[pos].text)
    requires HasColonSpace(ls[pos].text) || EndsWithColon(ls[pos].text)
    requires ParseMap(ls, pos, ls[pos].indent, map[]) == (Ok(child), next)
    ensures ParseKv(ls, pos, key.Print() + ":", into) == (Ok(into[key.text := child]), next)
  {
    hide ParseSeq, ParseMap, Dash, HasColonSpace, EndsWithColon, Keyable;
    KeyLine(key);
  }

  lemma {:induction false} LastBinding(entries: seq<Entry>, a: map<string, Node>, b: map<string, Node>, key: string)
    requires HasKey(entries, key)
    ensures key in AddEntries(entries, a) && key in AddEntries(entries, b)
    ensures AddEntries(entries, a)[key] == AddEntries(entries, b)[key]
  {
    var e, rest := entries[0], entries[1..];
    var a', b' := a[e.key.text := ToNode(e.tree)], b[e.key.text := ToNode(e.tree)];
    if HasKey(rest, key) {
      LastBinding(rest, a', b', key);
    } else {
      assert forall i :: 0 < i < |entries| ==> entries[i] == rest[i - 1];
      OtherKeysStay(rest, a', key);
      OtherKeysStay(rest, b', key);
    }
  }

  /** The two readings differ. */
  lemma SwallowedDiffers(rest: seq<Entry>, into: map<string, Node>, key: string)
    ensures Map(into[key := Map(AddEntries(rest, map[]))]) != Map(AddEntries(rest, into[key := EMPTY_NODE]))
  {
    var child := AddEntries(rest, map[]);
    if HasKey(rest, key) {
      LastBinding(rest, into[key := EMPTY_NODE], map[], key);
      NotItsOwnValue(child, key);
    } else {
      OtherKeysStay(rest, into[key := EMPTY_NODE], key);
    }
    hide AddEntries;
    assert into[key := Map(child)][key] == Map(child);
  }

  /**
   A mapping that begins with a key without a value, other entries following, is read as written exactly at the left
   margin; anywhere else that key becomes a mapping of all the others.
   */
  lemma NullEntryExactly(ls: Lines, pos: nat, key: Written, rest: seq<Entry>, indent: nat, into: map<string, Node>)
    requires At(ls, pos, [Line(indent, key.Print() + ":")] + PrintEntries(rest, indent), indent)
    requires Keyable(key) && PlainEntries(rest) && rest != []
    ensures var end := pos + 1 + |PrintEntries(rest, indent)|;
      && (ParseMap(ls, pos, indent, into) == (Ok(Map(AddEntries(rest, into[key.text := EMPTY_NODE]))), end)
          <==> indent == 0)
      && (indent > 0 ==>
            ParseMap(ls, pos, indent, into) == (Ok(Map(into[key.text := Map(AddEntries(rest, map[]))])), end))
  {
    hide *;
    var printed := PrintEntries(rest, indent);
    var end := pos + 1 + |printed|;
    FirstOfBranch(rest, indent);
    AtSplits(ls, pos, [Line(indent, key.Print() + ":")], printed, indent, indent + 1);
    KeyLine(key);
    if indent == 0 {
      NullExactly(ls, pos + 1, key, into);
      MapStep(ls, pos, indent, into, into[key.text := EMPTY_NODE], pos + 1);
      ParsePrintedEntries(ls, pos + 1, rest, indent, into[key.text := EMPTY_NODE]);
    } else {
      NullSwallows(ls, pos + 1, key, rest, indent, into);
      MapStep(ls, pos, indent, into, into[key.text := Map(AddEntries(rest, map[]))], end);
      NothingAfter(ls, end, printed, indent, pos + 1);
      MapEnds(ls, end, indent, into[key.text := Map(AddEntries(rest, map[]))]);
      SwallowedDiffers(rest, into, key.text);
    }
  }

  lemma NothingAfter(ls: Lines, end: nat, printed: seq<Line>, indent: nat, pos: nat)
    requires At(ls, pos, printed, indent) && end == pos + |printed|
    ensures At(ls, end, [], indent)
  {
  }

  // ---- lines out of place ----

  /** `printed` sits in `ls` at `pos`, and any line that follows has another indentation, deeper or not. */
  ghost predicate Before(ls: Lines, pos: nat, printed: seq<Line>, indent: nat) {
    && pos + |printed| <= |ls| && ls[pos..pos + |printed|] == printed
    && (pos + |printed| < |ls| ==> ls[pos + |printed|].indent != indent)
  }

  lemma PrintedCons(entries: seq<Entry>, indent: nat)
    requires entries != [] && entries[0].tree.Leaf?
    ensures PrintEntries(entries, indent)
      == [Line(indent, entries[0].key.Print() + ":" + " " + entries[0].tree.value.Print())]
         + PrintEntries(entries[1..], indent)
  {
  }

  lemma TailBefore(ls: Lines, pos: nat, head: Line, tail: seq<Line>, indent: nat)
    requires Before(ls, pos, [head] + tail, indent)
    ensures pos < |ls| && ls[pos] == head && Before(ls, pos + 1, tail, indent)
  {
    var printed := [head] + tail;
    assert ls[pos] == ls[pos..pos + |printed|][0];
    assert ls[pos + 1..pos + 1 + |tail|] == ls[pos..pos + |printed|][1..];
  }

  lemma FirstBefore(ls: Lines, pos: nat, entries: seq<Entry>, indent: nat)
    requires Before(ls, pos, PrintEntries(entries, indent), indent) && entries != [] && entries[0].tree.Leaf?
    ensures pos < |ls|
    ensures ls[pos] == Line(indent, entries[0].key.Print() + ":" + " " + entries[0].tree.value.Print())
    ensures Before(ls, pos + 1, PrintEntries(entries[1..], indent), indent)
    ensures |PrintEntries(entries, indent)| == 1 + |PrintEntries(entries[1..], indent)|
  {
    hide *;
    PrintedCons(entries, indent);
    TailBefore(ls, pos, Line(indent, entries[0].key.Print() + ":" + " " + entries[0].tree.value.Print()),
      PrintEntries(entries[1..], indent), indent);
  }

  lemma MapStops(ls: Lines, pos: nat, entries: seq<Entry>, indent: nat, into: map<string, Node>)
    requires Before(ls, pos, PrintEntries(entries, indent), indent) && entries == []
    ensures ParseMap(ls, pos, indent, into) == (Ok(Map(AddEntries(entries, into))), pos)
  {
  }

  /**
   A mapping ends at the first line with another indentation, also a deeper one. At the top level that is the end of
   the parse: such a line and all after it are dropped, whatever they say.
   */
  lemma {:induction false} StrayLineEnds(ls: Lines, pos: nat, entries: seq<Entry>, indent: nat, into: map<string, Node>)
    requires Before(ls, pos, PrintEntries(entries, indent), indent) && PlainEntries(entries) && Flat(entries)
    ensures ParseMap(ls, pos, indent, into)
      == (Ok(Map(AddEntries(entries, into))), pos + |PrintEntries(entries, indent)|)
    decreases |entries|
  {
    hide *;
    if entries == [] {
      MapStops(ls, pos, entries, indent, into);
      NothingPrinted(indent);
    } else {
      var e := entries[0];
      FirstFlat(entries, into);
      FirstBefore(ls, pos, entries, indent);
      ScalarLine(e.key, e.tree.value);
      ScalarKv(ls, pos + 1, e.key, e.tree.value, into);
      MapStep(ls, pos, indent, into, into[e.key.text := Scalar(e.tree.value.text)], pos + 1);
      StrayLineEnds(ls, pos + 1, entries[1..], indent, into[e.key.text := Scalar(e.tree.value.text)]);
    }
  }

  lemma NothingPrinted(indent: nat)
    ensures PrintEntries([], indent) == []
  {
  }

  /** So do a sequence, and the further keys of an inline item; and these end at `- ` only, not at a dash alone. */
  lemma BlocksEnd(ls: Lines, pos: nat, indent: nat, items: seq<Node>, into: map<string, Node>)
    requires pos < |ls|
    ensures ls[pos].indent != indent || !Dash(ls[pos].text) ==>
      ParseSeq(ls, pos, indent, items) == (Ok(Seq(items)), pos)
    ensures ls[pos].indent != indent || "- " <= ls[pos].text ==> ParseSiblings(ls, pos, indent, into) == (Ok(into), pos)
    ensures ls[pos] == Line(indent, "-") ==> ParseSiblings(ls, pos, indent, into).0 == Bad("-")
  {
    NoColonNoSplit("-", 0, false, false);
    hide Dash;
  }
}
