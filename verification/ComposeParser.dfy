/** The indentation-driven parser of the compose reader (`src/apps/compose.cpp`), as functions of the line list. */
module ComposeParser {
  import opened ComposeText

  /** A comment-stripped, trimmed line; `read_lines` drops the empty ones. */
  datatype Line = Line(indent: nat, text: string)

  datatype Node = Scalar(text: string) | Map(entries: map<string, Node>) | Seq(items: seq<Node>)

  /** What is left when there is nothing to parse. */
  const EMPTY_NODE := Scalar("")

  /** A parsed value, or the text that could not be split. */
  datatype Result<+T> = Ok(value: T) | Bad(text: string)

  type Lines = ls: seq<Line> | forall i :: 0 <= i < |ls| ==> ls[i].text != "" witness []

  predicate Dash(text: string) {
    StartsWith(text, "- ") || text == "-"
  }

  /** The lines not yet consumed. */
  function Left(ls: Lines, pos: nat): nat {
    if pos < |ls| then |ls| - pos else 0
  }

  function ParseBlock(ls: Lines, pos: nat, indent: nat): (r: (Result<Node>, nat))
    ensures r.1 >= pos
    decreases Left(ls, pos), 4
  {
    if pos >= |ls| then (Ok(EMPTY_NODE), pos)
    else if Dash(ls[pos].text) then ParseSeq(ls, pos, indent, [])
    else ParseMap(ls, pos, indent, map[])
  }

  /** `- key: value` starts a map item in the sequence. */
  predicate InlineMap(rest: string) {
    HasColonSpace(rest) || (|rest| > 1 && EndsWithColon(rest))
  }

  function ParseSeq(ls: Lines, pos: nat, indent: nat, items: seq<Node>): (r: (Result<Node>, nat))
    ensures r.1 >= pos
    decreases Left(ls, pos), 1
  {
    if pos >= |ls| || ls[pos].indent != indent || !Dash(ls[pos].text) then (Ok(Seq(items)), pos)
    else
      var rest := if ls[pos].text == "-" then "" else ls[pos].text[2..];
      if rest == "" then
        if pos + 1 < |ls| && ls[pos + 1].indent > indent then
          var (item, next) := ParseBlock(ls, pos + 1, ls[pos + 1].indent);
          if item.Bad? then (item, next) else ParseSeq(ls, next, indent, items + [item.value])
        else ParseSeq(ls, pos + 1, indent, items + [EMPTY_NODE])
      else if InlineMap(rest) then
        var (first, next) := ParseKv(ls, pos + 1, rest, map[]);
        if first.Bad? then (Bad(first.text), next)
        else
          var (item, after) := ParseSiblings(ls, next, indent + 2, first.value);
          if item.Bad? then (Bad(item.text), after) else ParseSeq(ls, after, indent, items + [Map(item.value)])
      else ParseSeq(ls, pos + 1, indent, items + [Scalar(Unquote(Trim(rest)))])
  }

  /** The further keys of an inline map item: `parse_kv_into` is entered before `pos` moves past its line. */
  function ParseSiblings(ls: Lines, pos: nat, indent: nat, entries: map<string, Node>)
    : (r: (Result<map<string, Node>>, nat))
    ensures r.1 >= pos
    decreases Left(ls, pos), 3
  {
    if pos >= |ls| || ls[pos].indent != indent || StartsWith(ls[pos].text, "- ") then (Ok(entries), pos)
    else
      var (more, next) := ParseKv(ls, pos, ls[pos].text, entries);
      if more.Bad? then (more, next) else ParseSiblings(ls, next + 1, indent, more.value)
  }

  /** A nested block may follow a key without a value. */
  predicate NestedFollows(ls: Lines, pos: nat) {
    pos < |ls| && ls[pos].indent > 0 &&
    (Dash(ls[pos].text) || HasColonSpace(ls[pos].text) || EndsWithColon(ls[pos].text))
  }

  function ParseKv(ls: Lines, pos: nat, text: string, entries: map<string, Node>): (r: (Result<map<string, Node>>, nat))
    ensures r.1 >= pos
    decreases Left(ls, pos), 2
  {
    match SplitFrom(text, 0, false, false)
    case None => (Bad(text), pos)
    case Some(split) =>
      var key, val := Unquote(Trim(text[..split])), Trim(text[split + 1..]);
      if val != "" then (Ok(entries[key := Scalar(Unquote(val))]), pos)
      else if NestedFollows(ls, pos) then
        var (child, next) :=
          if Dash(ls[pos].text) then ParseSeq(ls, pos, ls[pos].indent, [])
          else ParseMap(ls, pos, ls[pos].indent, map[]);
        if child.Bad? then (Bad(child.text), next) else (Ok(entries[key := child.value]), next)
      else (Ok(entries[key := EMPTY_NODE]), pos)
  }

  function ParseMap(ls: Lines, pos: nat, indent: nat, entries: map<string, Node>): (r: (Result<Node>, nat))
    ensures r.1 >= pos
    decreases Left(ls, pos), 1
  {
    if pos >= |ls| || ls[pos].indent != indent || Dash(ls[pos].text) then (Ok(Map(entries)), pos)
    else
      var (more, next) := ParseKv(ls, pos + 1, ls[pos].text, entries);
      if more.Bad? then (Bad(more.text), next) else ParseMap(ls, next, indent, more.value)
  }
}
