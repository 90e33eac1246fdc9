/** The parser of the compose reader as it runs: one object whose position the four methods advance. */
module ComposeReader {
  import opened Options
  import opened ComposeText
  import opened ComposeParser

  class Parser {
    const lines: Lines
    var pos: nat

    constructor (lines: Lines)
      ensures this.lines == lines && pos == 0
    {
      this.lines := lines;
      pos := 0;
    }

    method ParseBlock(indent: nat) returns (r: Result<Node>)
      modifies this
      ensures (r, pos) == ComposeParser.ParseBlock(lines, old(pos), indent)
      decreases Left(lines, pos), 4
    {
      if pos >= |lines| {
        return Ok(EMPTY_NODE);
      }
      if Dash(lines[pos].text) {
        r := ParseSeq(indent);
      } else {
        r := ParseMap(indent);
      }
    }

    method ParseSeq(indent: nat) returns (r: Result<Node>)
      modifies this
      ensures (r, pos) == ComposeParser.ParseSeq(lines, old(pos), indent, [])
      decreases Left(lines, pos), 1
    {
      var items: seq<Node> := [];
      while pos < |lines| && lines[pos].indent == indent && Dash(lines[pos].text)
        invariant old(pos) <= pos
        invariant ComposeParser.ParseSeq(lines, old(pos), indent, [])
          == ComposeParser.ParseSeq(lines, pos, indent, items)
        decreases Left(lines, pos)
      {
        var rest := if lines[pos].text == "-" then "" else lines[pos].text[2..];
        pos := pos + 1;
        if rest == "" {
          if pos < |lines| && lines[pos].indent > indent {
            var item := ParseBlock(lines[pos].indent);
            if item.Bad? {
              return item;
            }
            items := items + [item.value];
          } else {
            items := items + [EMPTY_NODE];
          }
        } else if InlineMap(rest) {
          var item := ParseInlineMap(rest, indent);
          if item.Bad? {
            return Bad(item.text);
          }
          items := items + [Map(item.value)];
        } else {
          items := items + [Scalar(Unquote(Trim(rest)))];
        }
      }
      r := Ok(Seq(items));
    }

    /** The inline map item of `parse_seq`, with its sibling keys. */
    method ParseInlineMap(rest: string, indent: nat) returns (r: Result<map<string, Node>>)
      modifies this
      ensures var first := ParseKv(lines, old(pos), rest, map[]);
        (r, pos) == if first.0.Bad? then first else ParseSiblings(lines, first.1, indent + 2, first.0.value)
      decreases Left(lines, pos), 4
    {
      hide *;
      r := ParseKvInto(map[], rest);
      if r.Bad? {
        return;
      }
      ghost var start, first := pos, r.value;
      while pos < |lines| && lines[pos].indent == indent + 2 && !StartsWith(lines[pos].text, "- ")
        invariant start <= pos && r.Ok?
        invariant ParseSiblings(lines, start, indent + 2, first) == ParseSiblings(lines, pos, indent + 2, r.value)
        decreases |lines| - pos
      {
        SiblingStep(lines, pos, indent + 2, r.value);
        FewerLeft(lines, old(pos), pos);
        r := ParseKvInto(r.value, lines[pos].text);
        if r.Bad? {
          return;
        }
        pos := pos + 1;
      }
      SiblingsStop(lines, pos, indent + 2, r.value);
    }

    method ParseKvInto(entries: map<string, Node>, text: string) returns (r: Result<map<string, Node>>)
      modifies this
      ensures (r, pos) == ParseKv(lines, old(pos), text, entries)
      decreases Left(lines, pos), 2
    {
      var split := FindSplit(text);
      if split == None {
        return Bad(text);
      }
      var key, val := Unquote(Trim(text[..split.value])), Trim(text[split.value + 1..]);
      if val == "" {
        if NestedFollows(lines, pos) {
          var child: Result<Node>;
          if Dash(lines[pos].text) {
            child := ParseSeq(lines[pos].indent);
          } else {
            child := ParseMap(lines[pos].indent);
          }
          if child.Bad? {
            return Bad(child.text);
          }
          r := Ok(entries[key := child.value]);
        } else {
          r := Ok(entries[key := EMPTY_NODE]);
        }
      } else {
        r := Ok(entries[key := Scalar(Unquote(val))]);
      }
    }

    method ParseMap(indent: nat) returns (r: Result<Node>)
      modifies this
      ensures (r, pos) == ComposeParser.ParseMap(lines, old(pos), indent, map[])
      decreases Left(lines, pos), 1
    {
      var entries: map<string, Node> := map[];
      while pos < |lines| && lines[pos].indent == indent && !Dash(lines[pos].text)
        invariant old(pos) <= pos
        invariant ComposeParser.ParseMap(lines, old(pos), indent, map[])
          == ComposeParser.ParseMap(lines, pos, indent, entries)
        decreases Left(lines, pos)
      {
        var text := lines[pos].text;
        pos := pos + 1;
        var more := ParseKvInto(entries, text);
        if more.Bad? {
          return Bad(more.text);
        }
        entries := more.value;
      }
      r := Ok(Map(entries));
    }
  }

  /** One turn of the loop over sibling keys. */
  lemma SiblingStep(ls: Lines, pos: nat, indent: nat, entries: map<string, Node>)
    requires pos < |ls| && ls[pos].indent == indent && !StartsWith(ls[pos].text, "- ")
    ensures var (more, next) := ParseKv(ls, pos, ls[pos].text, entries);
      ParseSiblings(ls, pos, indent, entries)
        == if more.Bad? then (more, next) else ParseSiblings(ls, next + 1, indent, more.value)
  {
    hide ParseKv;
  }

  lemma SiblingsStop(ls: Lines, pos: nat, indent: nat, entries: map<string, Node>)
    requires pos >= |ls| || ls[pos].indent != indent || StartsWith(ls[pos].text, "- ")
    ensures ParseSiblings(ls, pos, indent, entries) == (Ok(entries), pos)
  {
  }

  lemma FewerLeft(ls: Lines, before: nat, now: nat)
    requires before <= now < |ls|
    ensures Left(ls, now) <= Left(ls, before) && (before < now ==> Left(ls, now) < Left(ls, before))
  {
  }
}
