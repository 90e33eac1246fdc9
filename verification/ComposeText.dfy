/** The string helpers of the compose reader (`src/apps/compose.cpp`). */
module ComposeText {
  import opened Options

  predicate IsSpace(c: char) {
    c == ' ' || c == '\t' || c == '\n' || c == '\r' || c as int == 11 || c as int == 12
  }

  function TrimLeft(s: string): (r: string)
    ensures |r| <= |s|
  {
    if s != "" && IsSpace(s[0]) then TrimLeft(s[1..]) else s
  }

  function TrimRight(s: string): (r: string)
    ensures |r| <= |s|
  {
    if s != "" && IsSpace(s[|s| - 1]) then TrimRight(s[..|s| - 1]) else s
  }

  function Trim(s: string): (r: string)
    ensures |r| <= |s|
  {
    TrimRight(TrimLeft(s))
  }

  predicate Quoted(s: string) {
    |s| >= 2 && s[0] == s[|s| - 1] && (s[0] == '"' || s[0] == '\'')
  }

  /** Doubled quotes stand for one. */
  function Undouble(s: string): string {
    if s == "" then ""
    else if |s| >= 2 && s[0] == s[1] && (s[0] == '\'' || s[0] == '"') then [s[0]] + Undouble(s[2..])
    else [s[0]] + Undouble(s[1..])
  }

  function Unquote(s: string): string {
    if Quoted(s) then Undouble(s[1..|s| - 1]) else s
  }

  predicate StartsWith(s: string, prefix: string) {
    prefix <= s
  }

  /** `find(": ") != npos`. */
  predicate HasColonSpace(s: string) {
    exists i | 0 <= i < |s| :: ColonSpaceAt(s, i)
  }

  predicate ColonSpaceAt(s: string, i: nat) {
    i + 1 < |s| && s[i] == ':' && s[i + 1] == ' '
  }

  predicate EndsWithColon(s: string) {
    s != "" && s[|s| - 1] == ':'
  }

  /** Where `key: value` splits: the first colon outside quotes that ends the text or comes before a space. */
  function SplitFrom(text: string, i: nat, inS: bool, inD: bool): (r: Option<nat>)
    requires i <= |text|
    ensures r.Some? ==> r.value < |text|
    decreases |text| - i
  {
    if i == |text| then None
    else if text[i] == '\'' && !inD then SplitFrom(text, i + 1, !inS, inD)
    else if text[i] == '"' && !inS then SplitFrom(text, i + 1, inS, !inD)
    else if text[i] == ':' && !inS && !inD && (i + 1 == |text| || text[i + 1] == ' ') then Some(i)
    else SplitFrom(text, i + 1, inS, inD)
  }

  /** Unchanged by `trim`. */
  predicate Trimmed(s: string) {
    s == "" || (!IsSpace(s[0]) && !IsSpace(s[|s| - 1]))
  }

  lemma TrimTrimmed(s: string)
    requires Trimmed(s)
    ensures Trim(s) == s && Trim(" " + s) == s
  {
    assert (" " + s)[1..] == s;
  }

  predicate HasQuote(s: string) {
    exists i | 0 <= i < |s| :: s[i] == '\'' || s[i] == '"'
  }

  /** A key without quotes and without `: ` ends at the colon after it. */
  lemma {:induction false} SplitAfterKey(key: string, rest: string, i: nat)
    requires !HasQuote(key) && !HasColonSpace(key) && i <= |key|
    requires rest == "" || rest[0] == ' '
    ensures SplitFrom(key + ":" + rest, i, false, false) == Some(|key|)
    decreases |key| - i
  {
    var text := key + ":" + rest;
    if i < |key| {
      assert text[i] == key[i] && key[i] != '\'' && key[i] != '"';
      assert !ColonSpaceAt(key, i);
      SplitAfterKey(key, rest, i + 1);
    }
  }

  /** Blanks, and the control characters from the tabulator to the carriage return. */
  predicate AllSpace(s: string) {
    forall i :: 0 <= i < |s| ==> s[i] == ' ' || 9 <= s[i] as int <= 13
  }

  lemma {:induction false} TrimLeftStrips(a: string, t: string)
    requires AllSpace(a) && (t == "" || !IsSpace(t[0]))
    ensures TrimLeft(a + t) == t
    decreases |a|
  {
    if a == "" {
      assert a + t == t;
    } else {
      assert (a + t)[1..] == a[1..] + t;
      TrimLeftStrips(a[1..], t);
    }
  }

  lemma {:induction false} TrimRightStrips(t: string, b: string)
    requires AllSpace(b) && (t == "" || !IsSpace(t[|t| - 1]))
    ensures TrimRight(t + b) == t
    decreases |b|
  {
    if b == "" {
      assert t + b == t;
    } else {
      assert (t + b)[..|t + b| - 1] == t + b[..|b| - 1];
      TrimRightStrips(t, b[..|b| - 1]);
    }
  }

  /** Trimming takes off all white space at both ends, and nothing else. */
  lemma TrimExactly(a: string, t: string, b: string)
    requires AllSpace(a) && AllSpace(b) && Trimmed(t)
    ensures Trim(a + t + b) == t
  {
    if t == "" {
      TrimLeftStrips(a + b, "");
      assert a + t + b == a + b + "";
    } else {
      TrimLeftStrips(a, t + b);
      assert a + t + b == a + (t + b);
      TrimRightStrips(t, b);
    }
  }

  // ---- quoted text ----

  predicate QuoteChar(c: char) {
    c == '"' || c == '\''
  }

  function OtherQuote(q: char): char {
    if q == '"' then '\'' else '"'
  }

  function Doubled(s: string, q: char): string {
    if s == "" then "" else (if s[0] == q then [q, q] else [s[0]]) + Doubled(s[1..], q)
  }

  /** A text between quotes, those of the same kind in it doubled. */
  function Quote(s: string, q: char): string {
    [q] + Doubled(s, q) + [q]
  }

  predicate MeetAt(s: string, i: nat, c: char) {
    i + 1 < |s| && s[i] == c && s[i + 1] == c
  }

  /** Two of these characters stand side by side. */
  predicate HasMeeting(s: string, c: char) {
    exists i | 0 <= i < |s| :: MeetAt(s, i, c)
  }

  lemma HasMeetingStep(s: string, c: char)
    requires s != ""
    ensures HasMeeting(s, c) <==> MeetAt(s, 0, c) || HasMeeting(s[1..], c)
  {
    if HasMeeting(s, c) {
      var i :| 0 <= i < |s| && MeetAt(s, i, c);
      assert i > 0 ==> MeetAt(s[1..], i - 1, c);
    }
    if HasMeeting(s[1..], c) {
      var i :| 0 <= i < |s| - 1 && MeetAt(s[1..], i, c);
      assert MeetAt(s, i + 1, c);
    }
  }

  lemma UndoubleStep(c: char, rest: string)
    ensures QuoteChar(c) ==> Undouble([c, c] + rest) == [c] + Undouble(rest)
    ensures !QuoteChar(c) || rest == "" || rest[0] != c ==> Undouble([c] + rest) == [c] + Undouble(rest)
  {
    assert ([c, c] + rest)[2..] == rest && ([c] + rest)[1..] == rest;
  }

  lemma DoubledStep(s: string, q: char)
    requires s != ""
    ensures Doubled(s, q) == (if s[0] == q then [q, q] else [s[0]]) + Doubled(s[1..], q)
    ensures |s| > 1 ==> Doubled(s[1..], q) != "" && Doubled(s[1..], q)[0] == s[1]
    ensures |s| > 1 && s[1] != q ==> Doubled(s[1..], q) == [s[1]] + Doubled(s[2..], q)
    ensures |s| == 1 ==> Doubled(s[1..], q) == ""
  {
    if |s| > 1 { assert s[1..][1..] == s[2..]; }
  }

  lemma {:induction false} UndoubleExactly(s: string, q: char)
    requires QuoteChar(q)
    ensures var t, o := Undouble(Doubled(s, q)), OtherQuote(q);
      |t| <= |s| && (HasMeeting(s, o) ==> |t| < |s|) && (!HasMeeting(s, o) ==> t == s)
    decreases |s|
  {
    var o := OtherQuote(q);
    if s != "" {
      HasMeetingStep(s, o);
      DoubledStep(s, q);
      hide Undouble, Doubled, HasMeeting;
      UndoubleExactly(s[1..], q);
      UndoubleStep(s[0], Doubled(s[1..], q));
      if s[0] != q && MeetAt(s, 0, o) {
        UndoubleExactly(s[2..], q);
        UndoubleStep(o, Doubled(s[2..], q));
        assert Doubled(s, q) == [o, o] + Doubled(s[2..], q);
      } else {
        assert s == [s[0]] + s[1..];
      }
    }
  }

  /** Quoted text is read back exactly when no two quotes of the other kind meet in it: those collapse as well. */
  lemma UnquoteInvertsQuoteExactly(s: string, q: char)
    requires QuoteChar(q)
    ensures Unquote(Quote(s, q)) == s <==> !HasMeeting(s, OtherQuote(q))
  {
    var text := Quote(s, q);
    assert text[1..|text| - 1] == Doubled(s, q);
    UndoubleExactly(s, q);
  }

  lemma {:induction false} UndoubleShortens(s: string)
    ensures |Undouble(s)| <= |s|
    decreases |s|
  {
    if s != "" {
      UndoubleShortens(s[1..]);
      if |s| >= 2 { UndoubleShortens(s[2..]); }
    }
  }

  /** Only text between two quotes of one kind is changed. */
  lemma UnquoteChangesExactly(s: string)
    ensures Unquote(s) == s <==> forall middle :: s != "\"" + middle + "\"" && s != "'" + middle + "'"
  {
    if Quoted(s) {
      var middle := s[1..|s| - 1];
      assert s == [s[0]] + middle + [s[0]];
      UndoubleShortens(middle);
    }
  }

  /** A quoted key ends at the colon after its closing quote, whatever stands between the quotes. */
  lemma {:induction false} SplitAfterQuoted(text: string, i: nat, s: string, q: char, rest: string)
    requires QuoteChar(q) && (rest == "" || rest[0] == ' ')
    requires i <= |text| && text[i..] == Doubled(s, q) + [q] + ":" + rest
    ensures SplitFrom(text, i, q == '\'', q == '"') == Some(|text| - |rest| - 1)
    decreases |s|
  {
    var tail := text[i..];
    if s == "" {
      assert text[i] == tail[0] == q && text[i + 1] == tail[1] == ':';
      assert rest != "" ==> text[i + 2] == tail[2] == rest[0];
    } else if s[0] == q {
      assert text[i] == tail[0] == q && text[i + 1] == tail[1] == q;
      assert text[i + 2..] == tail[2..] == Doubled(s[1..], q) + [q] + ":" + rest;
      SplitAfterQuoted(text, i + 2, s[1..], q, rest);
    } else {
      assert text[i] == tail[0] == s[0];
      assert text[i + 1..] == tail[1..] == Doubled(s[1..], q) + [q] + ":" + rest;
      SplitAfterQuoted(text, i + 1, s[1..], q, rest);
    }
  }

  /** The splitting loop of `parse_kv_into`. */
  method FindSplit(text: string) returns (split: Option<nat>)
    ensures split == SplitFrom(text, 0, false, false)
  {
    split := None;
    var inS, inD := false, false;
    for i := 0 to |text|
      invariant SplitFrom(text, 0, false, false) == SplitFrom(text, i, inS, inD)
    {
      var c := text[i];
      if c == '\'' && !inD {
        inS := !inS;
      } else if c == '"' && !inS {
        inD := !inD;
      } else if c == ':' && !inS && !inD {
        if i + 1 == |text| {
          return Some(i);
        }
        if text[i + 1] == ' ' {
          return Some(i);
        }
      }
    }
  }
}
