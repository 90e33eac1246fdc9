/** Sequence items written `- key: value`, whose further keys stand on their own lines two columns deeper. */
module ComposeInlineItems {
  import opened ComposeText
  import opened ComposeParser
  import opened ComposeRoundTrip

  /** Every value is a scalar on the line of its key. */
  predicate Flat(entries: seq<Entry>) {
    forall i :: 0 <= i < |entries| ==> entries[i].tree.Leaf?
  }

  predicate DistinctKeys(entries: seq<Entry>) {
    forall i, j :: 0 <= i < j < |entries| ==> entries[i].key.text != entries[j].key.text
  }

  predicate HasKey(entries: seq<Entry>, key: string) {
    exists i | 0 <= i < |entries| :: entries[i].key.text == key
  }

  lemma {:induction false} OtherKeysStay(entries: seq<Entry>, into: map<string, Node>, key: string)
    requires key in into && !HasKey(entries, key)
    ensures key in AddEntries(entries, into) && AddEntries(entries, into)[key] == into[key]
  {
    if entries != [] {
      assert entries[0].key.text != key;
      OtherKeysStay(entries[1..], into[entries[0].key.text := ToNode(entries[0].tree)], key);
    }
  }

  /** The first of distinct keys is bound to its own value. */
  lemma FirstKeyBound(entries: seq<Entry>, into: map<string, Node>)
    requires entries != [] && DistinctKeys(entries)
    ensures entries[0].key.text in AddEntries(entries, into)
    ensures AddEntries(entries, into)[entries[0].key.text] == ToNode(entries[0].tree)
  {
    var key, rest := entries[0].key.text, entries[1..];
    assert !HasKey(rest, key) by {
      forall i | 0 <= i < |rest| ensures rest[i].key.text != key {
        assert rest[i] == entries[i + 1];
      }
    }
    OtherKeysStay(rest, into[key := ToNode(entries[0].tree)], key);
  }

  lemma NotItsOwnValue(m: map<string, Node>, key: string)
    requires key in m
    ensures m[key] != Map(m)
  {
    assert Map(m) decreases to m[key];
  }

  /** A scalar key adds its entry and leaves the position alone. */
  lemma LeafSibling(ls: Lines, pos: nat, key: Written, value: Written, indent: nat, into: map<string, Node>)
    requires pos < |ls| && ls[pos] == Line(indent, key.Print() + ":" + " " + value.Print())
    requires Keyable(key) && value.Valid()
    ensures ParseSiblings(ls, pos, indent, into)
      == ParseSiblings(ls, pos + 1, indent, into[key.text := Scalar(value.text)])
  {
    hide *;
    ScalarLine(key, value);
    ScalarKv(ls, pos, key, value, into);
    SiblingStep(ls, pos, indent, into, into[key.text := Scalar(value.text)]);
  }

  /** A key with its value on the same line moves nothing. */
  lemma ScalarKv(ls: Lines, pos: nat, key: Written, value: Written, into: map<string, Node>)
    requires Keyable(key) && value.Valid()
    ensures var text := key.Print() + ":" + " " + value.Print();
      ParseKv(ls, pos, text, into) == (Ok(into[key.text := Scalar(value.text)]), pos)
  {
    ScalarLine(key, value);
    hide Keyable, HasColonSpace, SplitFrom, Trim, Unquote, Quote, HasMeeting, PlainScalar;
  }

  lemma SiblingStep(ls: Lines, pos: nat, indent: nat, into: map<string, Node>, more: map<string, Node>)
    requires pos < |ls| && ls[pos].indent == indent && !Dash(ls[pos].text)
    requires ParseKv(ls, pos, ls[pos].text, into) == (Ok(more), pos)
    ensures ParseSiblings(ls, pos, indent, into) == ParseSiblings(ls, pos + 1, indent, more)
  {
    hide ParseKv;
  }

  /**
   A sibling without a value on its line is read again as the first line of its own value: it becomes a mapping
   that holds the key once more, together with every sibling after it.
   */
  lemma NestedSibling(ls: Lines, pos: nat, entries: seq<Entry>, indent: nat, into: map<string, Node>)
    requires At(ls, pos, PrintEntries(entries, indent), indent) && PlainEntries(entries) && indent > 0
    requires entries != [] && !entries[0].tree.Leaf?
    ensures pos < |ls| && ls[pos].indent == indent && !Dash(ls[pos].text)
    ensures ParseKv(ls, pos, ls[pos].text, into)
      == (Ok(into[entries[0].key.text := Map(AddEntries(entries, map[]))]), pos + |PrintEntries(entries, indent)|)
  {
    var key := entries[0].key;
    FirstLine(entries, indent);
    FirstOf(ls, pos, PrintEntries(entries, indent), indent);
    assert ls[pos] == Line(indent, key.Print() + ":");
    KeyLine(key);
    ParsePrintedEntries(ls, pos, entries, indent, map[]);
    hide AddEntries, PrintEntries, PrintEntry, ParseMap, At, PlainEntries, Keyable, Dash, HasColonSpace,
      EndsWithColon, SplitFrom, Trim, Unquote;
  }

  /**
   The siblings of an inline item at the end of the file are read as written exactly when all their values are
   scalars.
   */
  lemma {:induction false} SiblingsExactly(ls: Lines, pos: nat, entries: seq<Entry>, indent: nat,
                                           into: map<string, Node>)
    requires pos + |PrintEntries(entries, indent)| == |ls| && ls[pos..] == PrintEntries(entries, indent)
    requires PlainEntries(entries) && DistinctKeys(entries) && indent > 0
    ensures ParseSiblings(ls, pos, indent, into).0 == Ok(AddEntries(entries, into)) <==> Flat(entries)
    ensures ParseSiblings(ls, pos, indent, into).1 >= |ls|
    decreases |entries|
  {
    if entries == [] {
    } else if entries[0].tree.Leaf? {
      var e, rest := entries[0], entries[1..];
      assert ls[pos] == ls[pos..][0] == Line(indent, e.key.Print() + ":" + " " + e.tree.value.Print());
      assert ls[pos + 1..] == ls[pos..][1..] == PrintEntries(rest, indent);
      hide ParseSiblings;
      LeafSibling(ls, pos, e.key, e.tree.value, indent, into);
      SiblingsExactly(ls, pos + 1, rest, indent, into[e.key.text := Scalar(e.tree.value.text)]);
      FlatStep(entries);
    } else {
      SelfNested(ls, pos, entries, indent, into);
    }
  }

  lemma FlatStep(entries: seq<Entry>)
    requires entries != [] && entries[0].tree.Leaf?
    ensures Flat(entries) <==> Flat(entries[1..])
  {
    assert entries == [entries[0]] + entries[1..];
  }

  lemma SelfNested(ls: Lines, pos: nat, entries: seq<Entry>, indent: nat, into: map<string, Node>)
    requires pos + |PrintEntries(entries, indent)| == |ls| && ls[pos..] == PrintEntries(entries, indent)
    requires PlainEntries(entries) && DistinctKeys(entries) && indent > 0
    requires entries != [] && !entries[0].tree.Leaf?
    ensures ParseSiblings(ls, pos, indent, into).0 != Ok(AddEntries(entries, into))
    ensures ParseSiblings(ls, pos, indent, into).1 >= |ls|
  {
    NestedSibling(ls, pos, entries, indent, into);
    FirstKeyBound(entries, into);
    FirstKeyBound(entries, map[]);
    NotItsOwnValue(AddEntries(entries, map[]), entries[0].key.text);
    hide ParseKv, AddEntries, PrintEntries, PlainEntries, DistinctKeys;
    SkipsPastTheEnd(ls, pos, indent, into, into[entries[0].key.text := Map(AddEntries(entries, map[]))]);
  }

  lemma SkipsPastTheEnd(ls: Lines, pos: nat, indent: nat, into: map<string, Node>, more: map<string, Node>)
    requires pos < |ls| && ls[pos].indent == indent && !Dash(ls[pos].text)
    requires ParseKv(ls, pos, ls[pos].text, into) == (Ok(more), |ls|)
    ensures ParseSiblings(ls, pos, indent, into) == (Ok(more), |ls| + 1)
  {
    hide ParseKv;
  }

  // ---- sequences of inline items ----

  /** `- key: value`, with further entries two columns deeper. */
  datatype Inline = Inline(key: Written, value: Written, siblings: seq<Entry>) {
    predicate Plain() {
      Keyable(key) && value.Valid() && PlainEntries(siblings)
    }

    function Head(indent: nat): Line {
      Line(indent, "- " + (key.Print() + ":" + " " + value.Print()))
    }

    function Print(indent: nat): seq<Line> {
      [Head(indent)] + PrintEntries(siblings, indent + 2)
    }

    function First(): map<string, Node> {
      map[key.text := Scalar(value.text)]
    }

    function ToNode(): Node {
      Map(AddEntries(siblings, First()))
    }
  }

  function PrintInlines(items: seq<Inline>, indent: nat): seq<Line> {
    if items == [] then [] else items[0].Print(indent) + PrintInlines(items[1..], indent)
  }

  function InlineNodes(items: seq<Inline>): seq<Node> {
    if items == [] then [] else [items[0].ToNode()] + InlineNodes(items[1..])
  }

  predicate AllPlain(items: seq<Inline>) {
    forall i :: 0 <= i < |items| ==> items[i].Plain()
  }

  predicate AllFlat(items: seq<Inline>) {
    forall i :: 0 <= i < |items| ==> Flat(items[i].siblings)
  }

  /** What `parse_seq` does with the map item it has just begun. */
  function Item(ls: Lines, pos: nat, indent: nat, entries: map<string, Node>, done: seq<Node>): (Result<Node>, nat) {
    var (item, next) := ParseSiblings(ls, pos, indent + 2, entries);
    if item.Bad? then (Bad(item.text), next) else ParseSeq(ls, next, indent, done + [Map(item.value)])
  }

  lemma InlineKey(ls: Lines, pos: nat, key: Written, value: Written)
    requires Keyable(key) && value.Valid()
    ensures var rest := key.Print() + ":" + " " + value.Print();
      InlineMap(rest) && ParseKv(ls, pos, rest, map[]) == (Ok(map[key.text := Scalar(value.text)]), pos)
  {
    ScalarLine(key, value);
    hide Keyable, HasColonSpace, ParseKv, SplitFrom, Trim, Unquote, Quote, HasMeeting, PlainScalar;
    ScalarKv(ls, pos, key, value, map[]);
  }

  lemma HeadLine(ls: Lines, pos: nat, rest: string, indent: nat, first: map<string, Node>, done: seq<Node>, next: nat)
    requires pos < |ls| && ls[pos] == Line(indent, "- " + rest) && rest != "" && InlineMap(rest)
    requires ParseKv(ls, pos + 1, rest, map[]) == (Ok(first), next)
    ensures ParseSeq(ls, pos, indent, done) == Item(ls, next, indent, first, done)
  {
    hide ParseKv, ParseSiblings, InlineMap;
    assert "- " <= ls[pos].text && ls[pos].text[2..] == rest;
  }

  lemma HeadStep(ls: Lines, pos: nat, item: Inline, indent: nat, done: seq<Node>)
    requires pos < |ls| && ls[pos] == item.Head(indent) && item.Plain()
    ensures ParseSeq(ls, pos, indent, done) == Item(ls, pos + 1, indent, item.First(), done)
  {
    hide ParseSeq, ParseKv, Item, PlainEntries, InlineMap, Keyable, PlainScalar;
    InlineKey(ls, pos + 1, item.key, item.value);
    HeadLine(ls, pos, item.key.Print() + ":" + " " + item.value.Print(), indent, item.First(), done, pos + 1);
  }

  lemma NestedKey(ls: Lines, pos: nat, key: Written, tree: Tree, indent: nat)
    requires Keyable(key) && indent > 0 && !tree.Leaf? && Plain(tree) && At(ls, pos, PrintBlock(tree, indent), indent)
    ensures var rest := key.Print() + ":";
      && InlineMap(rest) && rest != ""
      && ParseKv(ls, pos, rest, map[]) == (Ok(map[key.text := ToNode(tree)]), pos + |PrintBlock(tree, indent)|)
  {
    hide *;
    KeyIsThere(key);
    KeyLine(key);
    ParsePrintedBlock(ls, pos, tree, indent);
    NestedKv(ls, pos, key, map[], tree, indent, pos + |PrintBlock(tree, indent)|);
    LongEnough(key.Print());
  }

  lemma KeyIsThere(key: Written)
    requires Keyable(key)
    ensures key.Print() != ""
  {
    WrittenReads(key);
  }

  lemma LongEnough(k: string)
    requires k != ""
    ensures InlineMap(k + ":")
  {
  }

  lemma NestedKv(ls: Lines, pos: nat, key: Written, into: map<string, Node>, tree: Tree, indent: nat, next: nat)
    requires Keyable(key) && indent > 0 && Reads(ls, pos, indent, tree, next)
    ensures ParseKv(ls, pos, key.Print() + ":", into) == (Ok(into[key.text := ToNode(tree)]), next)
  {
    hide ParseMap, ParseSeq, Dash, HasColonSpace, EndsWithColon, Keyable, ToNode;
    KeyLine(key);
  }

  /** The first key of an item may have a nested value below it: that one is read as written. */
  lemma NestedHead(ls: Lines, pos: nat, key: Written, tree: Tree, indent: nat, done: seq<Node>)
    requires pos < |ls| && ls[pos] == Line(indent, "- " + (key.Print() + ":")) && Keyable(key)
    requires !tree.Leaf? && Plain(tree) && At(ls, pos + 1, PrintBlock(tree, indent + 4), indent + 4)
    ensures ParseSeq(ls, pos, indent, done)
      == Item(ls, pos + 1 + |PrintBlock(tree, indent + 4)|, indent, map[key.text := ToNode(tree)], done)
  {
    hide *;
    NestedKey(ls, pos + 1, key, tree, indent + 4);
    HeadLine(ls, pos, key.Print() + ":", indent, map[key.text := ToNode(tree)], done,
      pos + 1 + |PrintBlock(tree, indent + 4)|);
  }

  // ---- items whose siblings are all scalars ----

  lemma SiblingsEnd(ls: Lines, pos: nat, indent: nat, into: map<string, Node>)
    requires At(ls, pos, [], indent)
    ensures ParseSiblings(ls, pos, indent, into) == (Ok(into), pos)
  {
  }

  /** The first of printed entries, with what follows it. */
  lemma FirstEntryAt(ls: Lines, pos: nat, entries: seq<Entry>, indent: nat)
    requires At(ls, pos, PrintEntries(entries, indent), indent) && entries != [] && entries[0].tree.Leaf?
    ensures pos < |ls| && ls[pos] == Line(indent, entries[0].key.Print() + ":" + " " + entries[0].tree.value.Print())
    ensures At(ls, pos + 1, PrintEntries(entries[1..], indent), indent)
    ensures |PrintEntries(entries, indent)| == 1 + |PrintEntries(entries[1..], indent)|
  {
    if entries[1..] != [] { FirstLine(entries[1..], indent); }
    AtSplits(ls, pos, PrintEntry(entries[0], indent), PrintEntries(entries[1..], indent), indent, indent + 1);
  }

  lemma {:induction false} FlatSiblings(ls: Lines, pos: nat, entries: seq<Entry>, indent: nat, into: map<string, Node>)
    requires At(ls, pos, PrintEntries(entries, indent), indent) && PlainEntries(entries) && Flat(entries)
    ensures ParseSiblings(ls, pos, indent, into)
      == (Ok(AddEntries(entries, into)), pos + |PrintEntries(entries, indent)|)
    decreases |entries|
  {
    hide *;
    if entries == [] {
      NoSiblings(ls, pos, indent, into);
    } else {
      FirstFlat(entries, into);
      FirstEntryAt(ls, pos, entries, indent);
      LeafSibling(ls, pos, entries[0].key, entries[0].tree.value, indent, into);
      FlatSiblings(ls, pos + 1, entries[1..], indent, into[entries[0].key.text := Scalar(entries[0].tree.value.text)]);
    }
  }

  lemma NoSiblings(ls: Lines, pos: nat, indent: nat, into: map<string, Node>)
    requires At(ls, pos, PrintEntries([], indent), indent)
    ensures ParseSiblings(ls, pos, indent, into) == (Ok(AddEntries([], into)), pos + |PrintEntries([], indent)|)
  {
    SiblingsEnd(ls, pos, indent, into);
  }

  lemma FirstFlat(entries: seq<Entry>, into: map<string, Node>)
    requires PlainEntries(entries) && Flat(entries) && entries != []
    ensures var e := entries[0];
      && e.tree.Leaf? && Keyable(e.key) && e.tree.value.Valid()
      && AddEntries(entries, into) == AddEntries(entries[1..], into[e.key.text := Scalar(e.tree.value.text)])
    ensures PlainEntries(entries[1..]) && Flat(entries[1..])
  {
    assert Plain(entries[0].tree);
    hide Keyable, PlainScalar;
  }

  /** When some sibling has a nested value, the line after the siblings is swallowed, whatever it is. */
  lemma {:induction false} NestedSiblingSwallows(ls: Lines, pos: nat, entries: seq<Entry>, indent: nat,
                                                 into: map<string, Node>)
    requires At(ls, pos, PrintEntries(entries, indent), indent) && PlainEntries(entries) && !Flat(entries) && indent > 0
    ensures ParseSiblings(ls, pos, indent, into).1 > pos + |PrintEntries(entries, indent)|
    decreases |entries|
  {
    hide *;
    NotFlatMeans(entries);
    if entries[0].tree.Leaf? {
      var e, rest := entries[0], entries[1..];
      FirstEntryAt(ls, pos, entries, indent);
      LeafSibling(ls, pos, e.key, e.tree.value, indent, into);
      NestedSiblingSwallows(ls, pos + 1, rest, indent, into[e.key.text := Scalar(e.tree.value.text)]);
    } else {
      NestedSibling(ls, pos, entries, indent, into);
      SkipsOne(ls, pos, indent, into);
    }
  }

  lemma NotFlatMeans(entries: seq<Entry>)
    requires PlainEntries(entries) && !Flat(entries)
    ensures entries != []
    ensures entries[0].tree.Leaf? ==>
      && Keyable(entries[0].key) && entries[0].tree.value.Valid()
      && PlainEntries(entries[1..]) && !Flat(entries[1..])
  {
    if entries[0].tree.Leaf? {
      assert Plain(entries[0].tree);
      FlatStep(entries);
    }
    hide Keyable, PlainScalar, HasMeeting;
  }

  lemma SkipsOne(ls: Lines, pos: nat, indent: nat, into: map<string, Node>)
    requires pos < |ls| && ls[pos].indent == indent && !Dash(ls[pos].text)
    requires ParseKv(ls, pos, ls[pos].text, into).0.Ok?
    ensures ParseSiblings(ls, pos, indent, into).1 > ParseKv(ls, pos, ls[pos].text, into).1
  {
    hide ParseKv;
  }

  lemma PrintInlinesCons(items: seq<Inline>, indent: nat)
    requires items != []
    ensures PrintInlines(items, indent)
      == ([items[0].Head(indent)] + PrintEntries(items[0].siblings, indent + 2)) + PrintInlines(items[1..], indent)
    ensures items[1..] != [] ==>
      && PrintInlines(items[1..], indent) != [] && PrintInlines(items[1..], indent)[0] == items[1].Head(indent)
      && items[1].Head(indent).indent == indent
    ensures items[1..] == [] ==> PrintInlines(items[1..], indent) == []
  {
    hide PrintEntries;
  }

  /** The first of printed items, with what follows it. */
  lemma FirstItemAt(ls: Lines, pos: nat, items: seq<Inline>, indent: nat)
    requires At(ls, pos, PrintInlines(items, indent), indent) && items != []
    ensures pos < |ls| && ls[pos] == items[0].Head(indent)
    ensures var siblings := PrintEntries(items[0].siblings, indent + 2); var next := pos + 1 + |siblings|;
      && At(ls, pos + 1, siblings, indent + 2) && At(ls, next, PrintInlines(items[1..], indent), indent)
      && |PrintInlines(items, indent)| == 1 + |siblings| + |PrintInlines(items[1..], indent)|
      && (items[1..] != [] ==> next < |ls| && ls[next] == items[1].Head(indent))
  {
    hide *;
    var siblings, later := PrintEntries(items[0].siblings, indent + 2), PrintInlines(items[1..], indent);
    var head := [items[0].Head(indent)];
    PrintInlinesCons(items, indent);
    AtSplits(ls, pos, head + siblings, later, indent, indent + 1);
    FirstIsSibling(items[0].siblings, indent + 2);
    AtSplits(ls, pos, head, siblings, indent + 1, indent + 3);
    AtDeeper(ls, pos + 1, siblings, indent + 1, indent + 2);
  }

  lemma FirstIsSibling(entries: seq<Entry>, indent: nat)
    ensures PrintEntries(entries, indent) != [] ==> PrintEntries(entries, indent)[0].indent == indent
  {
    if entries != [] { FirstLine(entries, indent); }
  }

  /** A flat item is read as the mapping it prints. */
  lemma FlatItemStep(ls: Lines, pos: nat, items: seq<Inline>, indent: nat, done: seq<Node>)
    requires At(ls, pos, PrintInlines(items, indent), indent) && items != [] && items[0].Plain()
      && Flat(items[0].siblings)
    ensures var next := pos + 1 + |PrintEntries(items[0].siblings, indent + 2)|;
      ParseSeq(ls, pos, indent, done) == ParseSeq(ls, next, indent, done + [items[0].ToNode()])
  {
    hide ParseSeq, ParseSiblings, PrintEntries, PrintInlines, At, AddEntries, Flat, PlainEntries;
    FirstItemAt(ls, pos, items, indent);
    HeadStep(ls, pos, items[0], indent, done);
    FlatSiblings(ls, pos + 1, items[0].siblings, indent + 2, items[0].First());
  }

  // ---- counting items ----

  /** The dash lines at `indent` from `pos` on. */
  function Dashes(ls: Lines, pos: nat, indent: nat): nat
    decreases Left(ls, pos)
  {
    if pos >= |ls| then 0
    else (if ls[pos].indent == indent && Dash(ls[pos].text) then 1 else 0) + Dashes(ls, pos + 1, indent)
  }

  lemma {:induction false} FewerDashesLater(ls: Lines, a: nat, b: nat, indent: nat)
    requires a <= b
    ensures Dashes(ls, b, indent) <= Dashes(ls, a, indent)
    decreases b - a
  {
    if a < b { FewerDashesLater(ls, a + 1, b, indent); }
  }

  /** A sequence has at most as many items as dash lines were consumed. */
  lemma {:induction false} ItemsNeedDashes(ls: Lines, pos: nat, indent: nat, items: seq<Node>)
    ensures var (r, next) := ParseSeq(ls, pos, indent, items);
      r.Ok? ==> r.value.Seq? && |r.value.items| + Dashes(ls, next, indent) <= |items| + Dashes(ls, pos, indent)
    decreases Left(ls, pos)
  {
    hide ParseBlock, ParseKv, ParseSiblings, InlineMap, Trim, Unquote, Dashes;
    if pos < |ls| && ls[pos].indent == indent && Dash(ls[pos].text) {
      var rest := if ls[pos].text == "-" then "" else ls[pos].text[2..];
      if rest == "" {
        if pos + 1 < |ls| && ls[pos + 1].indent > indent {
          var (item, next) := ParseBlock(ls, pos + 1, ls[pos + 1].indent);
          if item.Ok? { OneMoreItem(ls, pos, next, indent, items, item.value); }
        } else {
          OneMoreItem(ls, pos, pos + 1, indent, items, EMPTY_NODE);
        }
      } else if InlineMap(rest) {
        var (first, next) := ParseKv(ls, pos + 1, rest, map[]);
        if first.Ok? {
          var (item, after) := ParseSiblings(ls, next, indent + 2, first.value);
          if item.Ok? { OneMoreItem(ls, pos, after, indent, items, Map(item.value)); }
        }
      } else {
        OneMoreItem(ls, pos, pos + 1, indent, items, Scalar(Unquote(Trim(rest))));
      }
    }
  }

  lemma {:induction false} OneMoreItem(ls: Lines, pos: nat, next: nat, indent: nat, items: seq<Node>, item: Node)
    requires pos < |ls| && ls[pos].indent == indent && Dash(ls[pos].text) && pos < next
    ensures var (r, end) := ParseSeq(ls, next, indent, items + [item]);
      r.Ok? ==> r.value.Seq? && |r.value.items| + Dashes(ls, end, indent) <= |items| + Dashes(ls, pos, indent)
    decreases Left(ls, pos), 0
  {
    hide ParseSeq, Dash;
    FewerDashesLater(ls, pos + 1, next, indent);
    ItemsNeedDashes(ls, next, indent, items + [item]);
  }

  predicate Deeper(lines: seq<Line>, indent: nat) {
    forall i :: 0 <= i < |lines| ==> lines[i].indent >= indent
  }

  lemma DeeperConcat(a: seq<Line>, b: seq<Line>, indent: nat)
    requires Deeper(a, indent) && Deeper(b, indent)
    ensures Deeper(a + b, indent)
  {
  }

  lemma {:induction false} ItemsAreDeeper(items: seq<Item>, indent: nat)
    ensures Deeper(PrintItems(items, indent), indent)
    decreases items, 0
  {
    if items != [] {
      ItemIsDeeper(items[0], indent);
      ItemsAreDeeper(items[1..], indent);
      DeeperConcat(PrintItem(items[0], indent), PrintItems(items[1..], indent), indent);
    }
  }

  lemma {:induction false} ItemIsDeeper(item: Item, indent: nat)
    ensures Deeper(PrintItem(item, indent), indent)
    decreases item, 1
  {
    if item.Nested? { BlockIsDeeper(item.tree, indent + 2); }
  }

  lemma {:induction false} BlockIsDeeper(tree: Tree, indent: nat)
    ensures Deeper(PrintBlock(tree, indent), indent)
    decreases tree, 0
  {
    match tree
    case Leaf(_) =>
    case Branch(entries) => EntriesAreDeeper(entries, indent);
    case Items(items) => ItemsAreDeeper(items, indent);
  }

  lemma {:induction false} EntriesAreDeeper(entries: seq<Entry>, indent: nat)
    ensures Deeper(PrintEntries(entries, indent), indent)
    decreases entries, 0
  {
    if entries != [] {
      EntryIsDeeper(entries[0], indent);
      EntriesAreDeeper(entries[1..], indent);
      DeeperConcat(PrintEntry(entries[0], indent), PrintEntries(entries[1..], indent), indent);
    }
  }

  lemma {:induction false} EntryIsDeeper(e: Entry, indent: nat)
    ensures Deeper(PrintEntry(e, indent), indent)
    decreases e, 1
  {
    if !e.tree.Leaf? { BlockIsDeeper(e.tree, indent + 2); }
  }

  lemma {:induction false} DeeperHasNoDashes(ls: Lines, pos: nat, n: nat, indent: nat)
    requires pos + n <= |ls| && forall i :: pos <= i < pos + n ==> ls[i].indent > indent
    ensures Dashes(ls, pos, indent) == Dashes(ls, pos + n, indent)
    decreases n
  {
    if n > 0 { DeeperHasNoDashes(ls, pos + 1, n - 1, indent); }
  }

  lemma SiblingsHaveNoDashes(ls: Lines, pos: nat, entries: seq<Entry>, indent: nat)
    requires At(ls, pos, PrintEntries(entries, indent + 2), indent + 2)
    ensures Dashes(ls, pos, indent) == Dashes(ls, pos + |PrintEntries(entries, indent + 2)|, indent)
  {
    var siblings := PrintEntries(entries, indent + 2);
    EntriesAreDeeper(entries, indent + 2);
    hide PrintEntries, Dashes;
    forall i | pos <= i < pos + |siblings| ensures ls[i].indent > indent {
      assert ls[i] == ls[pos..pos + |siblings|][i - pos] == siblings[i - pos];
    }
    DeeperHasNoDashes(ls, pos, |siblings|, indent);
  }

  /** Printed items have one dash line each. */
  lemma {:induction false} OneDashEach(ls: Lines, pos: nat, items: seq<Inline>, indent: nat)
    requires At(ls, pos, PrintInlines(items, indent), indent)
    ensures Dashes(ls, pos, indent) == |items| + Dashes(ls, pos + |PrintInlines(items, indent)|, indent)
    decreases |items|
  {
    hide *;
    if items == [] {
      NoItems(items, indent);
    } else {
      FirstItemAt(ls, pos, items, indent);
      DashLineCounts(ls, pos, items[0], indent);
      SiblingsHaveNoDashes(ls, pos + 1, items[0].siblings, indent);
      OneDashEach(ls, pos + 1 + |PrintEntries(items[0].siblings, indent + 2)|, items[1..], indent);
    }
  }

  // ---- the theorem ----

  /** An item that is not flat makes the count of items short, or the parse leave the sequence. */
  lemma NotFlatIsShort(ls: Lines, pos: nat, items: seq<Inline>, indent: nat, done: seq<Node>)
    requires At(ls, pos, PrintInlines(items, indent), indent) && items != [] && items[0].Plain()
      && !Flat(items[0].siblings)
    ensures var (r, next) := ParseSeq(ls, pos, indent, done); var end := pos + |PrintInlines(items, indent)|;
      && (|items| == 1 ==> next > end)
      && (|items| > 1 && r.Ok? ==>
            r.value.Seq? && |r.value.items| + Dashes(ls, next, indent) < |done| + |items| + Dashes(ls, end, indent))
  {
    hide ParseSeq, ParseSiblings, PrintEntries, PrintInlines, At, AddEntries, Flat, PlainEntries, Dashes;
    FirstItemAt(ls, pos, items, indent);
    HeadStep(ls, pos, items[0], indent, done);
    NestedSiblingSwallows(ls, pos + 1, items[0].siblings, indent + 2, items[0].First());
    var next := pos + 1 + |PrintEntries(items[0].siblings, indent + 2)|;
    var (item, after) := ParseSiblings(ls, pos + 1, indent + 2, items[0].First());
    if |items| == 1 {
      NoItems(items[1..], indent);
    } else {
      OneDashEach(ls, next, items[1..], indent);
      DashLineCounts(ls, next, items[1], indent);
      FewerDashesLater(ls, next + 1, after, indent);
      if item.Ok? { ItemsNeedDashes(ls, after, indent, done + [Map(item.value)]); }
    }
  }

  lemma NoItems(items: seq<Inline>, indent: nat)
    requires items == []
    ensures PrintInlines(items, indent) == []
  {
  }

  lemma DashLineCounts(ls: Lines, pos: nat, item: Inline, indent: nat)
    requires pos < |ls| && ls[pos] == item.Head(indent)
    ensures Dashes(ls, pos, indent) == 1 + Dashes(ls, pos + 1, indent)
  {
    assert "- " <= ls[pos].text;
  }

  lemma {:induction false} InlineCount(items: seq<Inline>)
    ensures |InlineNodes(items)| == |items|
  {
    if items != [] { InlineCount(items[1..]); }
  }

  lemma InlineNodesStep(items: seq<Inline>, done: seq<Node>)
    requires items != []
    ensures done + InlineNodes(items) == done + [items[0].ToNode()] + InlineNodes(items[1..])
  {
  }

  lemma AllFlatStep(items: seq<Inline>)
    requires items != []
    ensures AllFlat(items) <==> Flat(items[0].siblings) && AllFlat(items[1..])
  {
    assert items == [items[0]] + items[1..];
  }

  lemma NotFlatDiffers(ls: Lines, pos: nat, items: seq<Inline>, indent: nat, done: seq<Node>)
    requires At(ls, pos, PrintInlines(items, indent), indent) && items != [] && items[0].Plain()
      && !Flat(items[0].siblings)
    ensures ParseSeq(ls, pos, indent, done) != (Ok(Seq(done + InlineNodes(items))), pos + |PrintInlines(items, indent)|)
    ensures |items| > 1 && pos + |PrintInlines(items, indent)| == |ls| ==>
      ParseSeq(ls, pos, indent, done).0 != Ok(Seq(done + InlineNodes(items)))
  {
    hide *;
    NotFlatIsShort(ls, pos, items, indent, done);
    NoDashesAtEnd(ls, indent);
    InlineCount(items);
    assert |done + InlineNodes(items)| == |done| + |items|;
  }

  /** What remains of a sequence after its first item, read as printed. */
  lemma RestDecides(ls: Lines, pos: nat, items: seq<Inline>, indent: nat, done: seq<Node>)
    requires At(ls, pos, PrintInlines(items, indent), indent) && items != [] && items[0].Plain()
      && Flat(items[0].siblings)
    ensures var next, sofar := pos + 1 + |PrintEntries(items[0].siblings, indent + 2)|, done + [items[0].ToNode()];
      && At(ls, next, PrintInlines(items[1..], indent), indent)
      && ParseSeq(ls, pos, indent, done) == ParseSeq(ls, next, indent, sofar)
      && done + InlineNodes(items) == sofar + InlineNodes(items[1..])
      && pos + |PrintInlines(items, indent)| == next + |PrintInlines(items[1..], indent)|
  {
    hide *;
    FirstItemAt(ls, pos, items, indent);
    FlatItemStep(ls, pos, items, indent, done);
    InlineNodesStep(items, done);
  }

  lemma NoItemsRead(ls: Lines, pos: nat, indent: nat, done: seq<Node>)
    requires At(ls, pos, PrintInlines([], indent), indent)
    ensures ParseSeq(ls, pos, indent, done) == (Ok(Seq(done + InlineNodes([]))), pos + |PrintInlines([], indent)|)
    ensures AllFlat([])
  {
    SeqEnds(ls, pos, indent, done);
    assert done + [] == done;
  }

  lemma FirstPlain(items: seq<Inline>)
    requires AllPlain(items) && items != []
    ensures items[0].Plain() && AllPlain(items[1..])
  {
    hide Keyable, PlainScalar, PlainEntries;
  }

  /**
   A printed sequence of inline items, wherever it stands, is read as the mappings it prints, up to its last line,
   exactly when every further key of every item has its value on its own line.
   */
  lemma {:induction false} InlineSequenceExactly(ls: Lines, pos: nat, items: seq<Inline>, indent: nat, done: seq<Node>)
    requires At(ls, pos, PrintInlines(items, indent), indent) && AllPlain(items)
    ensures ParseSeq(ls, pos, indent, done) == (Ok(Seq(done + InlineNodes(items))), pos + |PrintInlines(items, indent)|)
      <==> AllFlat(items)
    decreases |items|
  {
    hide *;
    if items == [] {
      NoItemsRead(ls, pos, indent, done);
    } else {
      FirstPlain(items);
      AllFlatStep(items);
      if Flat(items[0].siblings) {
        RestDecides(ls, pos, items, indent, done);
        var next := pos + 1 + |PrintEntries(items[0].siblings, indent + 2)|;
        InlineSequenceExactly(ls, next, items[1..], indent, done + [items[0].ToNode()]);
      } else {
        NotFlatDiffers(ls, pos, items, indent, done);
      }
    }
  }

  predicate AllDistinct(items: seq<Inline>) {
    forall i :: 0 <= i < |items| ==> DistinctKeys(items[i].siblings)
  }

  lemma FirstDistinct(items: seq<Inline>)
    requires AllDistinct(items) && items != []
    ensures DistinctKeys(items[0].siblings) && AllDistinct(items[1..])
  {
    hide DistinctKeys;
  }

  /** The same for a document that ends with the sequence, whose value alone tells. */
  lemma {:induction false} InlineDocumentExactly(ls: Lines, pos: nat, items: seq<Inline>, indent: nat, done: seq<Node>)
    requires At(ls, pos, PrintInlines(items, indent), indent) && AllPlain(items) && AllDistinct(items)
    requires pos + |PrintInlines(items, indent)| == |ls|
    ensures ParseSeq(ls, pos, indent, done).0 == Ok(Seq(done + InlineNodes(items))) <==> AllFlat(items)
    decreases |items|
  {
    hide *;
    if items == [] {
      NoItemsRead(ls, pos, indent, done);
    } else {
      FirstPlain(items);
      FirstDistinct(items);
      AllFlatStep(items);
      if Flat(items[0].siblings) {
        RestDecides(ls, pos, items, indent, done);
        var next := pos + 1 + |PrintEntries(items[0].siblings, indent + 2)|;
        InlineDocumentExactly(ls, next, items[1..], indent, done + [items[0].ToNode()]);
      } else if |items| > 1 {
        NotFlatDiffers(ls, pos, items, indent, done);
      } else {
        LastItemDiffers(ls, pos, items, indent, done);
      }
    }
  }

  lemma NoDashesAtEnd(ls: Lines, indent: nat)
    ensures Dashes(ls, |ls|, indent) == 0
  {
  }

  lemma LastItemDiffers(ls: Lines, pos: nat, items: seq<Inline>, indent: nat, done: seq<Node>)
    requires At(ls, pos, PrintInlines(items, indent), indent) && pos + |PrintInlines(items, indent)| == |ls|
    requires |items| == 1 && items[0].Plain() && DistinctKeys(items[0].siblings) && !Flat(items[0].siblings)
    ensures ParseSeq(ls, pos, indent, done).0 != Ok(Seq(done + InlineNodes(items)))
  {
    FirstItemAt(ls, pos, items, indent);
    var first, siblings := items[0].First(), items[0].siblings;
    assert ls[pos + 1..] == PrintEntries(siblings, indent + 2);
    HeadStep(ls, pos, items[0], indent, done);
    SiblingsExactly(ls, pos + 1, siblings, indent + 2, first);
    assert InlineNodes(items) == [items[0].ToNode()];
    hide ParseSiblings, PrintEntries, PrintInlines, At, Flat, PlainEntries, DistinctKeys;
    var (item, next) := ParseSiblings(ls, pos + 1, indent + 2, first);
    assert item.Ok? ==> (done + [Map(item.value)])[|done|] == Map(item.value);
    assert (done + [items[0].ToNode()])[|done|] == items[0].ToNode();
  }

  /** Where the lines of two printed items are. */
  lemma TwoItemsAt(ls: Lines, items: seq<Inline>, indent: nat)
    requires ls == PrintInlines(items, indent) && |items| == 2
    ensures var p := 1 + |PrintEntries(items[0].siblings, indent + 2)|;
      var last := p + 1 + |PrintEntries(items[1].siblings, indent + 2)|;
      && ls != [] && ls[0] == items[0].Head(indent)
      && At(ls, 1, PrintEntries(items[0].siblings, indent + 2), indent + 2)
      && At(ls, p + 1, PrintEntries(items[1].siblings, indent + 2), indent + 2) && last == |ls|
  {
    var rest := items[1..];
    assert rest[0] == items[1] && rest[1..] == [];
    hide *;
    WholeIsAt(ls, indent);
    FirstItemAt(ls, 0, items, indent);
    FirstItemAt(ls, 1 + |PrintEntries(items[0].siblings, indent + 2)|, rest, indent);
    NoItems(rest[1..], indent);
  }

  /**
   Two items of which the first ends with a nested value: one item is read. The dash line of the second is gone, its
   own key with it, and its further keys belong to the first.
   */
  lemma TwoItemsMerge(ls: Lines, items: seq<Inline>, e: Entry, indent: nat)
    requires |items| == 2 && ls == PrintInlines(items, indent) && items[0].Plain() && items[1].Plain()
    requires items[0].siblings == [e] && !e.tree.Leaf? && Flat(items[1].siblings)
    ensures ParseSeq(ls, 0, indent, []).0
      == Ok(Seq([Map(AddEntries(items[1].siblings, items[0].First()[e.key.text := Map(AddEntries([e], map[]))]))]))
  {
    hide *;
    var first, more := items[0], items[1].siblings;
    var merged := first.First()[e.key.text := Map(AddEntries([e], map[]))];
    TwoItemsAt(ls, items, indent);
    HeadStep(ls, 0, first, indent, []);
    SecondIsMerged(ls, first, e, indent + 2);
    PlainSiblings(items[1]);
    var p := 1 + |PrintEntries(first.siblings, indent + 2)|;
    FlatSiblings(ls, p + 1, more, indent + 2, merged);
    EndOfSequence(ls, |ls|, indent, Map(AddEntries(more, merged)));
    ItemOf(ls, 1, indent, first.First(), [], AddEntries(more, merged), |ls|);
  }

  lemma PlainSiblings(item: Inline)
    requires item.Plain()
    ensures PlainEntries(item.siblings)
  {
  }

  lemma SecondIsMerged(ls: Lines, first: Inline, e: Entry, indent: nat)
    requires At(ls, 1, PrintEntries(first.siblings, indent), indent) && first.Plain() && indent > 0
    requires first.siblings == [e] && !e.tree.Leaf?
    ensures var merged := first.First()[e.key.text := Map(AddEntries([e], map[]))];
      ParseSiblings(ls, 1, indent, first.First())
      == ParseSiblings(ls, 1 + |PrintEntries(first.siblings, indent)| + 1, indent, merged)
  {
    PlainSiblings(first);
    hide *;
    var merged := first.First()[e.key.text := Map(AddEntries([e], map[]))];
    NestedSibling(ls, 1, [e], indent, first.First());
    NestedFirst(ls, 1, indent, first.First(), merged, 1 + |PrintEntries(first.siblings, indent)|);
  }

  lemma ItemOf(ls: Lines, pos: nat, indent: nat, first: map<string, Node>, done: seq<Node>, item: map<string, Node>,
               next: nat)
    requires ParseSiblings(ls, pos, indent + 2, first) == (Ok(item), next)
    ensures Item(ls, pos, indent, first, done) == ParseSeq(ls, next, indent, done + [Map(item)])
  {
    hide ParseSeq, ParseSiblings;
  }

  lemma NestedFirst(ls: Lines, pos: nat, indent: nat, into: map<string, Node>, more: map<string, Node>, next: nat)
    requires pos < |ls| && ls[pos].indent == indent && !Dash(ls[pos].text)
    requires ParseKv(ls, pos, ls[pos].text, into) == (Ok(more), next)
    ensures ParseSiblings(ls, pos, indent, into) == ParseSiblings(ls, next + 1, indent, more)
  {
    hide ParseKv;
  }

  lemma EndOfSequence(ls: Lines, pos: nat, indent: nat, item: Node)
    requires pos >= |ls|
    ensures ParseSeq(ls, pos, indent, [] + [item]) == (Ok(Seq([item])), pos)
  {
    assert [] + [item] == [item];
  }
}
