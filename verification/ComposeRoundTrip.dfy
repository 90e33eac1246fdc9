/** Printing a compose tree and parsing it back. */
module ComposeRoundTrip {
  import opened Options
  import opened ComposeText
  import opened ComposeParser

  /** A scalar as it is written: as it stands, or between quotes. */
  datatype Written = Written(text: string, quote: Option<char>) {
    function Print(): string {
      if quote.None? then text else Quote(text, quote.value)
    }

    predicate Valid() {
      if quote.None? then PlainScalar(text) else QuoteChar(quote.value) && !HasMeeting(text, OtherQuote(quote.value))
    }
  }

  /** Nested mappings and sequences of scalars, with keys in file order. */
  datatype Tree = Leaf(value: Written) | Branch(entries: seq<Entry>) | Items(items: seq<Item>)

  datatype Entry = Entry(key: Written, tree: Tree)

  /** An item on the line of its dash, a dash alone, or a dash with a mapping or a sequence below it. */
  datatype Item = Text(value: Written) | Bare | Nested(tree: Tree)

  // ---- the fragment ----

  predicate PlainScalar(s: string) {
    s != "" && Trimmed(s) && !Quoted(s)
  }

  predicate PlainKey(s: string) {
    PlainScalar(s) && !HasQuote(s) && !HasColonSpace(s) && !StartsWith(s, "- ")
  }

  /** A key without quotes must not end early; between quotes it may hold anything. */
  predicate Keyable(key: Written) {
    key.Valid() && (key.quote.None? ==> PlainKey(key.text))
  }

  predicate Plain(t: Tree) {
    match t
    case Leaf(value) => value.Valid()
    case Branch(entries) =>
      && entries != []
      && forall i :: 0 <= i < |entries| ==> Keyable(entries[i].key) && Plain(entries[i].tree)
    case Items(items) => items != [] && forall i :: 0 <= i < |items| ==> PlainItem(items[i])
  }

  /** An item on its dash's line must not read as an inline `key: value`. */
  predicate PlainItem(item: Item) {
    match item
    case Text(value) => value.Valid() && !InlineMap(value.Print())
    case Bare => true
    case Nested(tree) => !tree.Leaf? && Plain(tree)
  }

  predicate PlainItems(items: seq<Item>) {
    forall i :: 0 <= i < |items| ==> PlainItem(items[i])
  }

  predicate PlainEntries(entries: seq<Entry>) {
    forall i :: 0 <= i < |entries| ==> Keyable(entries[i].key) && Plain(entries[i].tree)
  }

  // ---- printing, and what the parse should give ----

  function PrintItem(item: Item, indent: nat): seq<Line>
    decreases item, 1
  {
    match item
    case Text(value) => [Line(indent, "- " + value.Print())]
    case Bare => [Line(indent, "-")]
    case Nested(tree) => [Line(indent, "-")] + PrintBlock(tree, indent + 2)
  }

  function PrintItems(items: seq<Item>, indent: nat): seq<Line>
    decreases items, 0
  {
    if items == [] then [] else PrintItem(items[0], indent) + PrintItems(items[1..], indent)
  }

  /** The lines of a mapping or a sequence. */
  function PrintBlock(tree: Tree, indent: nat): seq<Line>
    decreases tree, 0
  {
    match tree
    case Leaf(_) => []
    case Branch(entries) => PrintEntries(entries, indent)
    case Items(items) => PrintItems(items, indent)
  }

  function PrintEntry(e: Entry, indent: nat): seq<Line>
    decreases e, 1
  {
    if e.tree.Leaf? then [Line(indent, e.key.Print() + ":" + " " + e.tree.value.Print())]
    else [Line(indent, e.key.Print() + ":")] + PrintBlock(e.tree, indent + 2)
  }

  function PrintEntries(entries: seq<Entry>, indent: nat): seq<Line>
    decreases entries, 0
  {
    if entries == [] then [] else PrintEntry(entries[0], indent) + PrintEntries(entries[1..], indent)
  }

  function ItemNode(item: Item): Node
    decreases item, 2
  {
    match item
    case Text(value) => Scalar(value.text)
    case Bare => EMPTY_NODE
    case Nested(tree) => ToNode(tree)
  }

  function ItemNodes(items: seq<Item>): seq<Node>
    decreases items, 0
  {
    if items == [] then [] else [ItemNode(items[0])] + ItemNodes(items[1..])
  }

  function ToNode(t: Tree): Node
    decreases t, 1
  {
    match t
    case Leaf(value) => Scalar(value.text)
    case Branch(entries) => Map(AddEntries(entries, map[]))
    case Items(items) => Seq(ItemNodes(items))
  }

  /** A later entry replaces an earlier one with the same key. */
  function AddEntries(entries: seq<Entry>, into: map<string, Node>): map<string, Node>
    decreases entries, 0
  {
    if entries == [] then into
    else
      var e := entries[0];
      assert e decreases to e.tree;
      AddEntries(entries[1..], into[e.key.text := ToNode(e.tree)])
  }

  // ---- lines ----

  /** `printed` sits in `ls` at `pos`, and whatever follows is indented less than `indent`. */
  ghost predicate At(ls: Lines, pos: nat, printed: seq<Line>, indent: nat) {
    && pos + |printed| <= |ls| && ls[pos..pos + |printed|] == printed
    && (pos + |printed| < |ls| ==> ls[pos + |printed|].indent < indent)
  }

  lemma WrittenReads(w: Written)
    requires w.Valid()
    ensures w.Print() != "" && Trimmed(w.Print()) && Unquote(w.Print()) == w.text
  {
    if w.quote.Some? { UnquoteInvertsQuoteExactly(w.text, w.quote.value); }
  }

  /** A key as written ends at the colon after it. */
  lemma SplitAfterWritten(key: Written, rest: string)
    requires Keyable(key) && (rest == "" || rest[0] == ' ')
    ensures SplitFrom(key.Print() + ":" + rest, 0, false, false) == Some(|key.Print()|)
  {
    if key.quote.None? {
      SplitAfterKey(key.text, rest, 0);
    } else {
      var text, q := key.Print() + ":" + rest, key.quote.value;
      assert text[0] == q && text[1..] == Doubled(key.text, q) + [q] + ":" + rest;
      hide Doubled;
      SplitAfterQuoted(text, 1, key.text, q, rest);
    }
  }

  lemma KeyLine(key: Written)
    requires Keyable(key)
    ensures var text, n := key.Print() + ":", |key.Print()|;
      && !Dash(text) && EndsWithColon(text) && SplitFrom(text, 0, false, false) == Some(n)
      && Unquote(Trim(text[..n])) == key.text && Trim(text[n + 1..]) == ""
  {
    var text, n := key.Print() + ":", |key.Print()|;
    assert text + "" == text;
    WrittenReads(key);
    SplitAfterWritten(key, "");
    TrimTrimmed(key.Print());
    assert text[..n] == key.Print() && text[n + 1..] == "";
    NoDash(key, "");
  }

  lemma NoDash(key: Written, rest: string)
    requires Keyable(key)
    ensures !Dash(key.Print() + ":" + rest)
  {
    var k := key.Print();
    var text := k + ":" + rest;
    WrittenReads(key);
    assert text[0] == k[0] && text[1] == if |k| > 1 then k[1] else ':';
    assert key.quote.None? && |k| > 1 && k[0] == '-' && k[1] == ' ' ==> "- " <= k;
  }

  lemma ScalarLine(key: Written, value: Written)
    requires Keyable(key) && value.Valid()
    ensures var text, n := key.Print() + ":" + " " + value.Print(), |key.Print()|;
      && !Dash(text) && HasColonSpace(text) && SplitFrom(text, 0, false, false) == Some(n)
      && Unquote(Trim(text[..n])) == key.text
      && Trim(text[n + 1..]) == value.Print() != "" && Unquote(value.Print()) == value.text
  {
    var k, v := key.Print(), value.Print();
    WrittenReads(key);
    WrittenReads(value);
    SplitAfterWritten(key, " " + v);
    NoDash(key, " " + v);
    hide Dash, SplitFrom, Keyable;
    TrimTrimmed(k);
    TrimTrimmed(v);
    PairText(k, v);
  }

  lemma PairText(k: string, v: string)
    ensures var text := k + ":" + " " + v;
      && text == k + ":" + (" " + v) && text[..|k|] == k && text[|k| + 1..] == " " + v && HasColonSpace(text)
  {
    var text := k + ":" + " " + v;
    assert ColonSpaceAt(text, |k|);
  }

  predicate NonEmptyTexts(lines: seq<Line>) {
    forall i :: 0 <= i < |lines| ==> lines[i].text != ""
  }

  lemma NonEmptyConcat(a: seq<Line>, b: seq<Line>)
    requires NonEmptyTexts(a) && NonEmptyTexts(b)
    ensures NonEmptyTexts(a + b)
  {
  }

  lemma {:induction false} PrintedItemsNonEmpty(items: seq<Item>, indent: nat)
    ensures NonEmptyTexts(PrintItems(items, indent))
    decreases items, 0
  {
    if items != [] {
      PrintedItemNonEmpty(items[0], indent);
      PrintedItemsNonEmpty(items[1..], indent);
      NonEmptyConcat(PrintItem(items[0], indent), PrintItems(items[1..], indent));
    }
  }

  lemma {:induction false} PrintedItemNonEmpty(item: Item, indent: nat)
    ensures NonEmptyTexts(PrintItem(item, indent))
    decreases item, 1
  {
    match item
    case Text(_) =>
    case Bare =>
    case Nested(tree) =>
      PrintedBlockNonEmpty(tree, indent + 2);
      NonEmptyConcat([Line(indent, "-")], PrintBlock(tree, indent + 2));
  }

  lemma {:induction false} PrintedBlockNonEmpty(tree: Tree, indent: nat)
    ensures NonEmptyTexts(PrintBlock(tree, indent))
    decreases tree, 0
  {
    match tree
    case Leaf(_) =>
    case Branch(entries) => PrintedIsNonEmpty(entries, indent);
    case Items(items) => PrintedItemsNonEmpty(items, indent);
  }

  lemma {:induction false} PrintedIsNonEmpty(entries: seq<Entry>, indent: nat)
    ensures NonEmptyTexts(PrintEntries(entries, indent))
    decreases entries, 0
  {
    if entries != [] {
      PrintedEntryNonEmpty(entries[0], indent);
      PrintedIsNonEmpty(entries[1..], indent);
      NonEmptyConcat(PrintEntry(entries[0], indent), PrintEntries(entries[1..], indent));
    }
  }

  lemma {:induction false} PrintedEntryNonEmpty(e: Entry, indent: nat)
    ensures NonEmptyTexts(PrintEntry(e, indent))
    decreases e, 1
  {
    if !e.tree.Leaf? {
      PrintedBlockNonEmpty(e.tree, indent + 2);
      NonEmptyConcat([Line(indent, e.key.Print() + ":")], PrintBlock(e.tree, indent + 2));
    }
  }

  /** Two printed pieces in a row, the second at most as deep as the first expects. */
  lemma AtSplits(ls: Lines, pos: nat, a: seq<Line>, b: seq<Line>, indent: nat, deeper: nat)
    requires At(ls, pos, a + b, indent) && a != [] && indent <= deeper && (b != [] ==> b[0].indent < deeper)
    ensures At(ls, pos, a, deeper) && At(ls, pos + |a|, b, indent)
    ensures pos + |a| + |b| <= |ls| && ls[pos] == a[0] && (b != [] ==> ls[pos + |a|] == b[0])
  {
    assert (a + b)[..|a|] == a && (a + b)[|a|..] == b;
    assert ls[pos..pos + |a|] == ls[pos..pos + |a + b|][..|a|];
    assert ls[pos + |a|..pos + |a| + |b|] == ls[pos..pos + |a + b|][|a|..];
    assert ls[pos] == ls[pos..pos + |a + b|][0];
    if b != [] { assert ls[pos + |a|] == ls[pos..pos + |a + b|][|a|]; }
  }

  // ---- sequences ----

  /** One `- item` line is one turn of the loop of `parse_seq`. */
  lemma TextStep(ls: Lines, pos: nat, value: Written, indent: nat, done: seq<Node>)
    requires pos < |ls| && ls[pos] == Line(indent, "- " + value.Print()) && PlainItem(Text(value))
    ensures ParseSeq(ls, pos, indent, done) == ParseSeq(ls, pos + 1, indent, done + [Scalar(value.text)])
  {
    assert ls[pos].text[2..] == value.Print() && "- " <= ls[pos].text;
    WrittenReads(value);
    TrimTrimmed(value.Print());
  }

  /** So is a dash with nothing deeper after it. */
  lemma BareStep(ls: Lines, pos: nat, indent: nat, done: seq<Node>)
    requires pos < |ls| && ls[pos] == Line(indent, "-") && (pos + 1 < |ls| ==> ls[pos + 1].indent <= indent)
    ensures ParseSeq(ls, pos, indent, done) == ParseSeq(ls, pos + 1, indent, done + [EMPTY_NODE])
  {
  }

  /** A dash with a block below it takes the block. */
  lemma NestedStep(ls: Lines, pos: nat, indent: nat, done: seq<Node>, block: Node, next: nat)
    requires pos + 1 < |ls| && ls[pos] == Line(indent, "-") && ls[pos + 1].indent > indent
    requires ParseBlock(ls, pos + 1, ls[pos + 1].indent) == (Ok(block), next)
    ensures ParseSeq(ls, pos, indent, done) == ParseSeq(ls, next, indent, done + [block])
  {
    hide ParseBlock;
  }

  lemma SeqEnds(ls: Lines, pos: nat, indent: nat, done: seq<Node>)
    requires At(ls, pos, [], indent)
    ensures ParseSeq(ls, pos, indent, done) == (Ok(Seq(done)), pos)
  {
  }

  lemma ItemNodesStep(done: seq<Node>, items: seq<Item>)
    requires items != []
    ensures done + ItemNodes(items) == done + [ItemNode(items[0])] + ItemNodes(items[1..])
  {
    hide ItemNode;
    assert done + ([ItemNode(items[0])] + ItemNodes(items[1..]))
      == done + [ItemNode(items[0])] + ItemNodes(items[1..]);
  }

  /** Printed items start at their own indentation, with a dash. */
  lemma ItemsStart(items: seq<Item>, indent: nat)
    requires items != []
    ensures PrintItem(items[0], indent) != [] && PrintItems(items, indent) != []
    ensures PrintItems(items, indent)[0] == PrintItem(items[0], indent)[0]
    ensures var line := PrintItem(items[0], indent)[0]; line.indent == indent && Dash(line.text)
  {
    var line := PrintItem(items[0], indent)[0];
    assert items[0].Text? ==> "- " <= line.text;
    hide PrintBlock;
  }

  lemma PrintItemsCons(items: seq<Item>, indent: nat)
    requires items != []
    ensures PrintItems(items, indent) == PrintItem(items[0], indent) + PrintItems(items[1..], indent)
    ensures items[1..] == [] ==> PrintItems(items[1..], indent) == []
  {
    hide PrintItem;
  }

  lemma PlainItemsCons(items: seq<Item>)
    requires PlainItems(items) && items != []
    ensures PlainItem(items[0]) && PlainItems(items[1..])
  {
    hide PlainItem;
  }

  lemma NoItemsLeft(ls: Lines, pos: nat, indent: nat, done: seq<Node>)
    requires At(ls, pos, PrintItems([], indent), indent)
    ensures ParseSeq(ls, pos, indent, done) == (Ok(Seq(done + ItemNodes([]))), pos + |PrintItems([], indent)|)
  {
    SeqEnds(ls, pos, indent, done);
    assert done + [] == done;
  }

  lemma {:induction false} ParsePrintedItems(ls: Lines, pos: nat, items: seq<Item>, indent: nat, done: seq<Node>)
    requires At(ls, pos, PrintItems(items, indent), indent) && PlainItems(items)
    ensures ParseSeq(ls, pos, indent, done) == (Ok(Seq(done + ItemNodes(items))), pos + |PrintItems(items, indent)|)
    decreases items, 1
  {
    hide *;
    if items == [] {
      NoItemsLeft(ls, pos, indent, done);
    } else {
      var first, rest := items[0], items[1..];
      PlainItemsCons(items);
      PrintItemsCons(items, indent);
      ItemsStart(items, indent);
      if rest != [] { ItemsStart(rest, indent); }
      AtSplits(ls, pos, PrintItem(first, indent), PrintItems(rest, indent), indent, indent + 1);
      ParsePrintedItem(ls, pos, first, indent, done);
      ItemNodesStep(done, items);
      ParsePrintedItems(ls, pos + |PrintItem(first, indent)|, rest, indent, done + [ItemNode(first)]);
    }
  }

  /** One item, nested or not, is one turn of the loop. */
  lemma {:induction false} ParsePrintedItem(ls: Lines, pos: nat, item: Item, indent: nat, done: seq<Node>)
    requires At(ls, pos, PrintItem(item, indent), indent + 1) && PlainItem(item)
    ensures ParseSeq(ls, pos, indent, done)
      == ParseSeq(ls, pos + |PrintItem(item, indent)|, indent, done + [ItemNode(item)])
    decreases item, 3
  {
    hide *;
    PlainItemMeans(item, indent);
    match item
    case Text(value) =>
      FirstOf(ls, pos, PrintItem(item, indent), indent + 1);
      TextStep(ls, pos, value, indent, done);
    case Bare =>
      FirstOf(ls, pos, PrintItem(item, indent), indent + 1);
      NothingBelow(ls, pos, indent);
      BareStep(ls, pos, indent, done);
    case Nested(tree) =>
      ParsePrintedNested(ls, pos, tree, indent, done);
  }

  lemma PlainItemMeans(item: Item, indent: nat)
    requires PlainItem(item)
    ensures item.Text? ==>
      && PrintItem(item, indent) == [Line(indent, "- " + item.value.Print())]
      && ItemNode(item) == Scalar(item.value.text)
    ensures item.Bare? ==> PrintItem(item, indent) == [Line(indent, "-")] && ItemNode(item) == EMPTY_NODE
    ensures item.Nested? ==>
      && PrintItem(item, indent) == [Line(indent, "-")] + PrintBlock(item.tree, indent + 2)
      && ItemNode(item) == ToNode(item.tree) && !item.tree.Leaf? && Plain(item.tree)
  {
    hide PrintBlock, ToNode, InlineMap;
  }

  lemma NothingBelow(ls: Lines, pos: nat, indent: nat)
    requires At(ls, pos, [Line(indent, "-")], indent + 1)
    ensures pos + 1 < |ls| ==> ls[pos + 1].indent <= indent
  {
  }

  lemma {:induction false} ParsePrintedNested(ls: Lines, pos: nat, tree: Tree, indent: nat, done: seq<Node>)
    requires At(ls, pos, [Line(indent, "-")] + PrintBlock(tree, indent + 2), indent + 1)
    requires !tree.Leaf? && Plain(tree)
    ensures ParseSeq(ls, pos, indent, done)
      == ParseSeq(ls, pos + 1 + |PrintBlock(tree, indent + 2)|, indent, done + [ToNode(tree)])
    decreases tree, 4
  {
    hide *;
    var block := PrintBlock(tree, indent + 2);
    BlockStarts(tree, indent + 2);
    AtSplits(ls, pos, [Line(indent, "-")], block, indent + 1, indent + 3);
    AtDeeper(ls, pos + 1, block, indent + 1, indent + 2);
    ParsePrintedBlock(ls, pos + 1, tree, indent + 2);
    FirstOf(ls, pos + 1, block, indent + 2);
    ReadsAsBlock(ls, pos + 1, indent + 2, tree, pos + 1 + |block|);
    NestedStep(ls, pos, indent, done, ToNode(tree), pos + 1 + |block|);
  }

  /** How a printed block begins. */
  lemma BlockStarts(tree: Tree, indent: nat)
    requires !tree.Leaf? && Plain(tree)
    ensures PrintBlock(tree, indent) != []
    ensures var line := PrintBlock(tree, indent)[0];
      && line.indent == indent && (Dash(line.text) <==> tree.Items?)
      && (tree.Branch? ==> HasColonSpace(line.text) || EndsWithColon(line.text))
  {
    hide PrintItem, PrintItems, PrintEntries, PrintEntry, Dash, HasColonSpace, EndsWithColon, Keyable, PlainItem;
    match tree
    case Branch(entries) => FirstOfBranch(entries, indent);
    case Items(items) => ItemsStart(items, indent);
  }

  /** What the parser makes of the block at `pos`, by its first line. */
  ghost predicate Reads(ls: Lines, pos: nat, indent: nat, tree: Tree, next: nat) {
    && pos < |ls| && ls[pos].indent == indent
    && if Dash(ls[pos].text) then ParseSeq(ls, pos, indent, []) == (Ok(ToNode(tree)), next)
       else
         && (HasColonSpace(ls[pos].text) || EndsWithColon(ls[pos].text))
         && ParseMap(ls, pos, indent, map[]) == (Ok(ToNode(tree)), next)
  }

  lemma ReadsAsBlock(ls: Lines, pos: nat, indent: nat, tree: Tree, next: nat)
    requires Reads(ls, pos, indent, tree, next)
    ensures ParseBlock(ls, pos, indent) == (Ok(ToNode(tree)), next)
  {
    hide ParseSeq, ParseMap, ToNode, Dash, HasColonSpace, EndsWithColon;
  }

  lemma MappingReads(ls: Lines, pos: nat, indent: nat, entries: seq<Entry>, next: nat)
    requires pos < |ls| && ls[pos].indent == indent
    requires !Dash(ls[pos].text) && (HasColonSpace(ls[pos].text) || EndsWithColon(ls[pos].text))
    requires ParseMap(ls, pos, indent, map[]) == (Ok(Map(AddEntries(entries, map[]))), next)
    ensures Reads(ls, pos, indent, Branch(entries), next)
  {
    hide ParseSeq, ParseMap, AddEntries, Dash, HasColonSpace, EndsWithColon;
  }

  lemma SequenceReads(ls: Lines, pos: nat, indent: nat, items: seq<Item>, next: nat)
    requires pos < |ls| && ls[pos].indent == indent && Dash(ls[pos].text)
    requires ParseSeq(ls, pos, indent, []) == (Ok(Seq([] + ItemNodes(items))), next)
    ensures Reads(ls, pos, indent, Items(items), next)
  {
    assert [] + ItemNodes(items) == ItemNodes(items);
    hide ParseSeq, ParseMap, ItemNodes, Dash, HasColonSpace, EndsWithColon;
  }

  lemma PlainMeans(tree: Tree)
    requires Plain(tree)
    ensures tree.Branch? ==> tree.entries != [] && PlainEntries(tree.entries)
    ensures tree.Items? ==> tree.items != [] && PlainItems(tree.items)
    ensures tree.Branch? ==> forall indent :: PrintBlock(tree, indent) == PrintEntries(tree.entries, indent)
    ensures tree.Items? ==> forall indent :: PrintBlock(tree, indent) == PrintItems(tree.items, indent)
  {
  }

  lemma {:induction false} ParsePrintedBlock(ls: Lines, pos: nat, tree: Tree, indent: nat)
    requires At(ls, pos, PrintBlock(tree, indent), indent) && !tree.Leaf? && Plain(tree)
    ensures Reads(ls, pos, indent, tree, pos + |PrintBlock(tree, indent)|)
    decreases tree, 3
  {
    hide *;
    BlockStarts(tree, indent);
    FirstOf(ls, pos, PrintBlock(tree, indent), indent);
    PlainMeans(tree);
    match tree
    case Branch(entries) =>
      ParsePrintedEntries(ls, pos, entries, indent, map[]);
      MappingReads(ls, pos, indent, entries, pos + |PrintBlock(tree, indent)|);
    case Items(items) =>
      ParsePrintedItems(ls, pos, items, indent, []);
      SequenceReads(ls, pos, indent, items, pos + |PrintBlock(tree, indent)|);
  }

  lemma FirstOf(ls: Lines, pos: nat, printed: seq<Line>, indent: nat)
    requires At(ls, pos, printed, indent) && printed != []
    ensures pos < |ls| && ls[pos] == printed[0]
  {
    assert ls[pos] == ls[pos..pos + |printed|][0];
  }

  // ---- mappings ----

  /** Printed entries start at their own indentation. */
  lemma FirstLine(entries: seq<Entry>, indent: nat)
    requires entries != []
    ensures PrintEntries(entries, indent) != [] && PrintEntries(entries, indent)[0] == PrintEntry(entries[0], indent)[0]
    ensures PrintEntry(entries[0], indent)[0].indent == indent
  {
  }

  lemma MapStep(ls: Lines, pos: nat, indent: nat, into: map<string, Node>, more: map<string, Node>, next: nat)
    requires pos < |ls| && ls[pos].indent == indent && !Dash(ls[pos].text)
    requires ParseKv(ls, pos + 1, ls[pos].text, into) == (Ok(more), next)
    ensures ParseMap(ls, pos, indent, into) == ParseMap(ls, next, indent, more)
  {
  }

  lemma {:induction false} ParsePrintedEntries(ls: Lines, pos: nat, entries: seq<Entry>, indent: nat,
                                               into: map<string, Node>)
    requires At(ls, pos, PrintEntries(entries, indent), indent) && PlainEntries(entries)
    ensures ParseMap(ls, pos, indent, into)
      == (Ok(Map(AddEntries(entries, into))), pos + |PrintEntries(entries, indent)|)
    decreases entries, 1
  {
    hide *;
    if entries == [] {
      NoEntriesLeft(ls, pos, indent, into);
    } else {
      PlainEntriesCons(entries, into, indent);
      PrintedEntriesStep(ls, pos, entries, entries[0], entries[1..], indent, into);
    }
  }

  lemma NoEntriesLeft(ls: Lines, pos: nat, indent: nat, into: map<string, Node>)
    requires At(ls, pos, PrintEntries([], indent), indent)
    ensures ParseMap(ls, pos, indent, into) == (Ok(Map(AddEntries([], into))), pos + |PrintEntries([], indent)|)
  {
    MapEnds(ls, pos, indent, into);
  }

  lemma PlainEntriesCons(entries: seq<Entry>, into: map<string, Node>, indent: nat)
    requires PlainEntries(entries) && entries != []
    ensures var e, rest := entries[0], entries[1..];
      && Keyable(e.key) && Plain(e.tree) && PlainEntries(rest)
      && AddEntries(entries, into) == AddEntries(rest, into[e.key.text := ToNode(e.tree)])
      && PrintEntries(entries, indent) == PrintEntry(e, indent) + PrintEntries(rest, indent)
  {
    hide Keyable, Plain, PrintEntry, ToNode;
  }

  lemma MapEnds(ls: Lines, pos: nat, indent: nat, into: map<string, Node>)
    requires At(ls, pos, [], indent)
    ensures ParseMap(ls, pos, indent, into) == (Ok(Map(into)), pos)
  {
  }

  lemma {:induction false} PrintedEntriesStep(ls: Lines, pos: nat, entries: seq<Entry>, e: Entry, rest: seq<Entry>,
                                              indent: nat, into: map<string, Node>)
    requires entries != [] && e == entries[0] && rest == entries[1..]
    requires At(ls, pos, PrintEntry(e, indent) + PrintEntries(rest, indent), indent)
    requires Keyable(e.key) && Plain(e.tree) && PlainEntries(rest)
    ensures ParseMap(ls, pos, indent, into)
      == (Ok(Map(AddEntries(rest, into[e.key.text := ToNode(e.tree)]))),
        pos + |PrintEntry(e, indent)| + |PrintEntries(rest, indent)|)
    decreases entries, 0
  {
    hide *;
    PieceStarts(e, rest, indent);
    AtSplits(ls, pos, PrintEntry(e, indent), PrintEntries(rest, indent), indent, indent + 1);
    ParsePrintedEntry(ls, pos, e, indent, into);
    MapStep(ls, pos, indent, into, into[e.key.text := ToNode(e.tree)], pos + |PrintEntry(e, indent)|);
    ParsePrintedEntries(ls, pos + |PrintEntry(e, indent)|, rest, indent, into[e.key.text := ToNode(e.tree)]);
  }

  lemma PieceStarts(e: Entry, rest: seq<Entry>, indent: nat)
    ensures PrintEntry(e, indent) != []
    ensures PrintEntries(rest, indent) != [] ==> PrintEntries(rest, indent)[0].indent == indent
  {
    if rest != [] { FirstLine(rest, indent); }
  }

  /** One entry, its value nested or not, is one turn of the loop of `parse_map`. */
  lemma {:induction false} ParsePrintedEntry(ls: Lines, pos: nat, e: Entry, indent: nat, into: map<string, Node>)
    requires At(ls, pos, PrintEntry(e, indent), indent + 1) && Keyable(e.key) && Plain(e.tree)
    ensures pos < |ls| && !Dash(ls[pos].text) && ls[pos].indent == indent
    ensures ParseKv(ls, pos + 1, ls[pos].text, into)
      == (Ok(into[e.key.text := ToNode(e.tree)]), pos + |PrintEntry(e, indent)|)
    decreases e, 3
  {
    hide At, ParseKv, Dash, Keyable, PrintBlock;
    if e.tree.Leaf? {
      ParsePrintedLeaf(ls, pos, e.key, e.tree.value, indent, into);
    } else {
      ParsePrintedValue(ls, pos, e.key, e.tree, indent, into);
    }
  }

  lemma ParsePrintedLeaf(ls: Lines, pos: nat, key: Written, value: Written, indent: nat, into: map<string, Node>)
    requires At(ls, pos, [Line(indent, key.Print() + ":" + " " + value.Print())], indent + 1)
    requires Keyable(key) && value.Valid()
    ensures pos < |ls| && ls[pos] == Line(indent, key.Print() + ":" + " " + value.Print()) && !Dash(ls[pos].text)
    ensures ParseKv(ls, pos + 1, ls[pos].text, into) == (Ok(into[key.text := Scalar(value.text)]), pos + 1)
  {
    FirstOf(ls, pos, [Line(indent, key.Print() + ":" + " " + value.Print())], indent + 1);
    hide At, Keyable, PlainScalar, Dash, HasColonSpace, SplitFrom, Trim, Unquote, Quote, HasMeeting;
    ScalarLine(key, value);
  }

  lemma {:induction false} ParsePrintedValue(ls: Lines, pos: nat, key: Written, tree: Tree, indent: nat,
                                             into: map<string, Node>)
    requires At(ls, pos, [Line(indent, key.Print() + ":")] + PrintBlock(tree, indent + 2), indent + 1)
    requires Keyable(key) && !tree.Leaf? && Plain(tree)
    ensures pos < |ls| && ls[pos] == Line(indent, key.Print() + ":") && !Dash(ls[pos].text)
    ensures ParseKv(ls, pos + 1, ls[pos].text, into)
      == (Ok(into[key.text := ToNode(tree)]), pos + 1 + |PrintBlock(tree, indent + 2)|)
    decreases tree, 4
  {
    hide *;
    var block := PrintBlock(tree, indent + 2);
    BlockStarts(tree, indent + 2);
    KeyLine(key);
    AtSplits(ls, pos, [Line(indent, key.Print() + ":")], block, indent + 1, indent + 3);
    AtDeeper(ls, pos + 1, block, indent + 1, indent + 2);
    ParsePrintedBlock(ls, pos + 1, tree, indent + 2);
    FirstOf(ls, pos + 1, block, indent + 2);
    KeyTakesBlock(ls, pos, key, into, tree, indent + 2, pos + 1 + |block|);
  }

  /** A key with nothing after its colon takes the mapping or the sequence below it as its value. */
  lemma KeyTakesBlock(ls: Lines, pos: nat, key: Written, into: map<string, Node>, tree: Tree, indent: nat, next: nat)
    requires Keyable(key) && pos + 1 < |ls| && ls[pos].text == key.Print() + ":"
    requires indent > 0 && Reads(ls, pos + 1, indent, tree, next)
    ensures ParseKv(ls, pos + 1, ls[pos].text, into) == (Ok(into[key.text := ToNode(tree)]), next)
  {
    hide ParseMap, ParseSeq, Dash, HasColonSpace, EndsWithColon, Keyable, ToNode;
    KeyLine(key);
  }

  lemma FirstOfBranch(entries: seq<Entry>, indent: nat)
    requires entries != [] && PlainEntries(entries)
    ensures PrintEntries(entries, indent) != []
    ensures var line := PrintEntries(entries, indent)[0];
      line.indent == indent && !Dash(line.text) && (HasColonSpace(line.text) || EndsWithColon(line.text))
  {
    FirstLine(entries, indent);
    FirstEntryLine(entries[0], indent);
  }

  lemma AtDeeper(ls: Lines, pos: nat, printed: seq<Line>, indent: nat, deeper: nat)
    requires At(ls, pos, printed, indent) && indent <= deeper
    ensures At(ls, pos, printed, deeper)
  {
  }

  /** The first line of a printed entry is recognised as the start of a nested mapping. */
  lemma FirstEntryLine(e: Entry, indent: nat)
    requires Keyable(e.key) && Plain(e.tree)
    ensures var line := PrintEntry(e, indent)[0];
      !Dash(line.text) && (HasColonSpace(line.text) || EndsWithColon(line.text))
  {
    if e.tree.Leaf? { ScalarLine(e.key, e.tree.value); } else { KeyLine(e.key); }
  }

  /** The parser inverts the printer, however deep the first line stands. */
  lemma ParseInvertsPrint(entries: seq<Entry>, indent: nat)
    requires PlainEntries(entries) && entries != []
    ensures var printed := PrintEntries(entries, indent);
      && NonEmptyTexts(printed) && printed != [] && printed[0].indent == indent
      && ParseMap(printed, 0, printed[0].indent, map[]) == (Ok(ToNode(Branch(entries))), |printed|)
  {
    PrintedIsNonEmpty(entries, indent);
    var printed := PrintEntries(entries, indent);
    WholeIsAt(printed, indent);
    BranchNode(entries);
    hide *;
    FirstLine(entries, indent);
    ParsePrintedEntries(printed, 0, entries, indent, map[]);
  }

  lemma BranchNode(entries: seq<Entry>)
    ensures ToNode(Branch(entries)) == Map(AddEntries(entries, map[]))
  {
  }

  lemma WholeIsAt(ls: Lines, indent: nat)
    ensures At(ls, 0, ls, indent)
  {
    assert ls[0..|ls|] == ls;
  }

  // ---- white space ----

  lemma QuoteFree(key: string, a: string)
    requires PlainKey(key) && AllSpace(a) && !EndsWithColon(key)
    ensures !HasQuote(key + a) && !HasColonSpace(key + a)
  {
    var text := key + a;
    forall i | 0 <= i < |text| ensures text[i] != '\'' && text[i] != '"' && !ColonSpaceAt(text, i) {
      if i < |key| {
        assert text[i] == key[i] && !ColonSpaceAt(key, i);
      } else {
        assert text[i] == a[i - |key|];
      }
    }
  }

  /** White space around a value and before the colon of a plain key is no part of either. */
  lemma PaddingIsImmaterial(ls: Lines, pos: nat, key: string, a: string, b: string, value: Written, c: string,
                            into: map<string, Node>)
    requires PlainKey(key) && !EndsWithColon(key) && value.Valid() && AllSpace(a) && AllSpace(b) && AllSpace(c)
    ensures ParseKv(ls, pos, (key + a) + ":" + (" " + b + value.Print() + c), into)
      == (Ok(into[key := Scalar(value.text)]), pos)
  {
    hide *;
    var rest := " " + b + value.Print() + c;
    var text := (key + a) + ":" + rest;
    KeyIsPlain(key);
    WrittenReads(value);
    QuoteFree(key, a);
    SplitAfterKey(key + a, rest, 0);
    MoreSpace(b);
    TrimExactly("", key, a);
    TrimExactly(" " + b, value.Print(), c);
    assert text[..|key + a|] == "" + key + a && text[|key + a| + 1..] == " " + b + value.Print() + c;
    ScalarBetween(ls, pos, text, |key + a|, value.Print(), into);
    assert text == (key + a) + ":" + (" " + b + value.Print() + c);
  }

  lemma KeyIsPlain(key: string)
    requires PlainKey(key)
    ensures Trimmed(key) && Unquote(key) == key
  {
  }

  lemma MoreSpace(b: string)
    requires AllSpace(b)
    ensures AllSpace(" " + b) && AllSpace("")
  {
  }

  /** A line that splits, with a value after its colon. */
  lemma ScalarBetween(ls: Lines, pos: nat, text: string, n: nat, value: string, into: map<string, Node>)
    requires SplitFrom(text, 0, false, false) == Some(n) && n < |text| && Trim(text[n + 1..]) == value != ""
    ensures ParseKv(ls, pos, text, into) == (Ok(into[Unquote(Trim(text[..n])) := Scalar(Unquote(value))]), pos)
  {
    hide SplitFrom, Trim, Unquote;
  }

  /** So is white space around an item. */
  lemma ItemPaddingIsImmaterial(ls: Lines, pos: nat, b: string, value: Written, c: string, indent: nat, done: seq<Node>)
    requires value.Valid() && AllSpace(b) && AllSpace(c) && !InlineMap(b + value.Print() + c)
    requires pos < |ls| && ls[pos] == Line(indent, "- " + (b + value.Print() + c))
    ensures ParseSeq(ls, pos, indent, done) == ParseSeq(ls, pos + 1, indent, done + [Scalar(value.text)])
  {
    assert ls[pos].text[2..] == b + value.Print() + c && "- " <= ls[pos].text;
    WrittenReads(value);
    TrimExactly(b, value.Print(), c);
    hide Trim, Unquote, Quote, HasMeeting, InlineMap;
  }

  // ---- errors ----

  lemma {:induction false} NoColonNoSplit(text: string, i: nat, inS: bool, inD: bool)
    requires ':' !in text && i <= |text|
    ensures SplitFrom(text, i, inS, inD) == None
    decreases |text| - i
  {
    if i < |text| {
      NoColonNoSplit(text, i + 1, !inS, inD);
      NoColonNoSplit(text, i + 1, inS, !inD);
      NoColonNoSplit(text, i + 1, inS, inD);
    }
  }

  /** A line without a colon where a key should be fails the document, which names it. */
  lemma NoColonFails(ls: Lines, pos: nat, indent: nat, into: map<string, Node>)
    requires pos < |ls| && ls[pos].indent == indent && !Dash(ls[pos].text) && ':' !in ls[pos].text
    ensures ParseMap(ls, pos, indent, into).0 == Bad(ls[pos].text)
  {
    NoColonNoSplit(ls[pos].text, 0, false, false);
  }

  /** A failure below a key or below a dash is the failure of the whole. */
  lemma NestedFailure(ls: Lines, pos: nat, key: Written, indent: nat, into: map<string, Node>, done: seq<Node>,
                      bad: string, next: nat)
    requires Keyable(key) && pos + 1 < |ls| && ls[pos + 1].indent > indent
    requires HasColonSpace(ls[pos + 1].text) || EndsWithColon(ls[pos + 1].text) || Dash(ls[pos + 1].text)
    requires ParseBlock(ls, pos + 1, ls[pos + 1].indent) == (Bad(bad), next)
    ensures ls[pos] == Line(indent, key.Print() + ":") ==> ParseMap(ls, pos, indent, into).0 == Bad(bad)
    ensures ls[pos] == Line(indent, "-") ==> ParseSeq(ls, pos, indent, done).0 == Bad(bad)
  {
    KeyLine(key);
    hide Keyable, SplitFrom, Trim, Unquote, HasColonSpace, EndsWithColon;
  }
}
