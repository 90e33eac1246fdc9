/** `${...}` templates in compose values (`src/apps/compose.cpp`). */
module Interpolation {
  import opened Options
  import opened ComposeText

  /** The variables a template may name: those of the file win over those of the process. */
  datatype Scope = Scope(extra: map<string, string>, env: map<string, string>) {
    function Value(name: string): string {
      if name in extra then extra[name] else if name in env then env[name] else ""
    }
  }

  function IndexOf(s: string, c: char): (r: Option<nat>)
    ensures r.Some? ==> r.value < |s| && s[r.value] == c && forall i :: 0 <= i < r.value ==> s[i] != c
    ensures r.None? ==> c !in s
  {
    if s == "" then None
    else if s[0] == c then Some(0)
    else match IndexOf(s[1..], c)
      case None => None
      case Some(k) => Some(k + 1)
  }

  predicate PairAt(s: string, i: nat, a: char, b: char) {
    i + 1 < |s| && s[i] == a && s[i + 1] == b
  }

  predicate HasPair(s: string, a: char, b: char) {
    exists i | 0 <= i < |s| :: PairAt(s, i, a, b)
  }

  /** Where the two characters first stand side by side. */
  function IndexOfPair(s: string, a: char, b: char): (r: Option<nat>)
    ensures r.Some? ==> PairAt(s, r.value, a, b) && forall i :: 0 <= i < r.value ==> !PairAt(s, i, a, b)
    ensures r.None? ==> !HasPair(s, a, b)
  {
    if |s| < 2 then None
    else if s[0] == a && s[1] == b then Some(0)
    else match IndexOfPair(s[1..], a, b)
      case None =>
        assert forall i :: 0 < i < |s| && PairAt(s, i, a, b) ==> PairAt(s[1..], i - 1, a, b);
        None
      case Some(k) =>
        assert forall i :: 0 < i < k + 1 && PairAt(s, i, a, b) ==> PairAt(s[1..], i - 1, a, b);
        Some(k + 1)
  }

  /** The text between the braces: a name, and a default if one is given. */
  function SplitDefault(expr: string): (string, Option<string>) {
    match IndexOfPair(expr, ':', '-')
    case Some(sep) => (expr[..sep], Some(expr[sep + 2..]))
    case None =>
      match IndexOf(expr, '-')
      case Some(sep) => if HasPair(expr, ':', '?') then (expr, None) else (expr[..sep], Some(expr[sep + 1..]))
      case None => (expr, None)
  }

  function Expand(expr: string, scope: Scope): string {
    var (name, def) := SplitDefault(expr);
    var val := scope.Value(Trim(name));
    if val != "" then val else if def.Some? then def.value else ""
  }

  function Interpolate(s: string, scope: Scope): string {
    if s == "" then ""
    else if "${" <= s then
      match IndexOf(s[2..], '}')
      case None => [s[0]] + Interpolate(s[1..], scope)
      case Some(end) => Expand(s[2..2 + end], scope) + Interpolate(s[end + 3..], scope)
    else [s[0]] + Interpolate(s[1..], scope)
  }

  /** `${` stands at `i`. */
  function Opens(s: string, i: nat): (r: bool)
    ensures r ==> i + 2 <= |s|
  {
    PairAt(s, i, '$', '{')
  }

  lemma KeepChar(out: string, s: string, i: nat, scope: Scope)
    requires i < |s| && (Opens(s, i) ==> IndexOf(s[i + 2..], '}') == None)
    ensures out + Interpolate(s[i..], scope) == out + [s[i]] + Interpolate(s[i + 1..], scope)
  {
    hide HasPair, Expand;
    var tail := s[i..];
    assert tail[1..] == s[i + 1..];
    assert "${" <= tail ==> Opens(s, i) && tail[2..] == s[i + 2..];
    assert Interpolate(tail, scope) == [s[i]] + Interpolate(tail[1..], scope);
    Assoc(out, [s[i]], Interpolate(tail[1..], scope));
  }

  lemma Assoc(a: string, b: string, c: string)
    ensures a + (b + c) == a + b + c
  {
  }

  lemma TakeExpression(out: string, s: string, i: nat, end: nat, scope: Scope)
    requires Opens(s, i) && IndexOf(s[i + 2..], '}') == Some(end)
    ensures out + Interpolate(s[i..], scope)
      == out + Expand(s[i + 2..i + 2 + end], scope) + Interpolate(s[i + end + 3..], scope)
  {
    var tail := s[i..];
    assert "${" <= tail && tail[2..] == s[i + 2..];
    assert tail[2..2 + end] == s[i + 2..i + 2 + end] && tail[end + 3..] == s[i + end + 3..];
    Assoc(out, Expand(s[i + 2..i + 2 + end], scope), Interpolate(s[i + end + 3..], scope));
  }

  method AppendValue(out: string, expr: string, scope: Scope) returns (r: string)
    ensures r == out + Expand(expr, scope)
  {
    hide SplitDefault, Trim;
    var (name, def) := SplitDefault(expr);
    var val := scope.Value(Trim(name));
    r := out;
    if val != "" {
      r := r + val;
    } else if def.Some? {
      r := r + def.value;
    }
  }

  /** The loop of `interpolate`. */
  method Render(s: string, scope: Scope) returns (out: string)
    ensures out == Interpolate(s, scope)
  {
    hide *;
    out := "";
    var i := 0;
    assert s[0..] == s && out + Interpolate(s, scope) == Interpolate(s, scope);
    while i < |s|
      invariant 0 <= i <= |s|
      invariant out + Interpolate(s[i..], scope) == Interpolate(s, scope)
    {
      if !Opens(s, i) {
        KeepChar(out, s, i, scope);
        out := out + [s[i]];
        i := i + 1;
      } else {
        var end := IndexOf(s[i + 2..], '}');
        if end == None {
          KeepChar(out, s, i, scope);
          out := out + [s[i]];
          i := i + 1;
        } else {
          TakeExpression(out, s, i, end.value, scope);
          out := AppendValue(out, s[i + 2..i + 2 + end.value], scope);
          i := i + end.value + 3;
        }
      }
    }
    NothingLeft(out, s, i, scope);
  }

  lemma NothingLeft(out: string, s: string, i: nat, scope: Scope)
    requires i == |s|
    ensures out + Interpolate(s[i..], scope) == out
  {
  }

  // ---- templates as lists of segments ----

  /** All variables, those of the file replacing those of the process. */
  function Variables(scope: Scope): map<string, string> {
    scope.env + scope.extra
  }

  lemma ValueIsTheFiles(name: string, scope: Scope)
    ensures scope.Value(name) == if name in Variables(scope) then Variables(scope)[name] else ""
  {
  }

  /** `text`, `${name}`, `${name-def}`, `${name:-def}` and `${name:?message}`. */
  datatype Segment =
    | Literal(text: string)
    | Plain(name: string)
    | Dashed(name: string, def: string)
    | Colon(name: string, def: string)
    | Required(name: string, message: string)
  {
    predicate Valid() {
      match this
      case Literal(text) => text != "" && !HasPair(text, '$', '{')
      case Plain(name) => Name(name)
      case Dashed(name, def) => Name(name) && '}' !in def && !HasPair(def, ':', '-') && !HasPair(def, ':', '?')
      case Colon(name, def) => Name(name) && '}' !in def
      case Required(name, message) => Name(name) && Trimmed(message) && '}' !in message && !HasPair(message, ':', '-')
    }

    function Print(): string {
      match this
      case Literal(text) => text
      case Plain(name) => "${" + name + "}"
      case Dashed(name, def) => "${" + (name + "-" + def) + "}"
      case Colon(name, def) => "${" + (name + ":-" + def) + "}"
      case Required(name, message) => "${" + (name + ":?" + message) + "}"
    }

    /**
     The variable's value, or the default when it is unset or empty; the last form asks for a variable whose name is all
     that stands between the braces.
     */
    function Eval(scope: Scope): string {
      var vars := Variables(scope);
      match this
      case Literal(text) => text
      case Plain(name) => if name in vars then vars[name] else ""
      case Dashed(name, def) => if name in vars && vars[name] != "" then vars[name] else def
      case Colon(name, def) => if name in vars && vars[name] != "" then vars[name] else def
      case Required(name, message) =>
        var whole := name + ":?" + message;
        if whole in vars then vars[whole] else ""
    }
  }

  predicate Name(name: string) {
    Trimmed(name) && '}' !in name && '-' !in name && ':' !in name
  }

  function PrintAll(segments: seq<Segment>): string {
    if segments == [] then "" else segments[0].Print() + PrintAll(segments[1..])
  }

  function EvalAll(segments: seq<Segment>, scope: Scope): string {
    if segments == [] then "" else segments[0].Eval(scope) + EvalAll(segments[1..], scope)
  }

  /** Segments are well formed, and literals that touch are one literal. */
  predicate Template(segments: seq<Segment>) {
    && (forall i :: 0 <= i < |segments| ==> segments[i].Valid())
    && (forall i :: 0 <= i < |segments| - 1 ==> segments[i].Literal? ==> !segments[i + 1].Literal?)
  }

  lemma {:induction false} IndexAfter(a: string, c: char, b: string)
    requires c !in a
    ensures IndexOf(a + [c] + b, c) == Some(|a|)
  {
    var s := a + [c] + b;
    if a != "" {
      assert s[1..] == a[1..] + [c] + b;
      IndexAfter(a[1..], c, b);
    }
  }

  lemma ExpressionStep(expr: string, rest: string, scope: Scope)
    requires '}' !in expr
    ensures Interpolate("${" + expr + "}" + rest, scope) == Expand(expr, scope) + Interpolate(rest, scope)
  {
    var s := "${" + expr + "}" + rest;
    assert s[2..] == expr + "}" + rest;
    IndexAfter(expr, '}', rest);
    assert s[2..2 + |expr|] == expr && s[|expr| + 3..] == rest;
  }

  lemma PlainChar(s: string, scope: Scope)
    requires s != "" && !Opens(s, 0)
    ensures Interpolate(s, scope) == [s[0]] + Interpolate(s[1..], scope)
  {
    assert "${" <= s ==> Opens(s, 0);
  }

  lemma LiteralTail(text: string, rest: string)
    requires text != "" && !HasPair(text, '$', '{') && (rest != "" ==> rest[0] == '$')
    ensures !HasPair(text[1..], '$', '{') && !Opens(text + rest, 0)
  {
    assert !PairAt(text, 0, '$', '{');
    assert forall i :: 0 <= i < |text| - 1 && PairAt(text[1..], i, '$', '{') ==> PairAt(text, i + 1, '$', '{');
  }

  lemma {:induction false} LiteralStep(text: string, rest: string, scope: Scope)
    requires !HasPair(text, '$', '{') && (rest != "" ==> rest[0] == '$')
    ensures Interpolate(text + rest, scope) == text + Interpolate(rest, scope)
    decreases |text|
  {
    hide *;
    if text == "" {
      assert text + rest == rest && text + Interpolate(rest, scope) == Interpolate(rest, scope);
    } else {
      assert (text + rest)[1..] == text[1..] + rest && text == [text[0]] + text[1..];
      LiteralTail(text, rest);
      LiteralStep(text[1..], rest, scope);
      PlainChar(text + rest, scope);
      Assoc([text[0]], text[1..], Interpolate(rest, scope));
    }
  }

  lemma {:induction false} NoPair(s: string, a: char, b: char)
    requires a !in s || b !in s
    ensures IndexOfPair(s, a, b) == None
  {
  }

  lemma SplitsPlain(name: string)
    requires Name(name)
    ensures SplitDefault(name) == (name, None) && Trim(name) == name
  {
    NoPair(name, ':', '-');
    TrimTrimmed(name);
  }

  lemma SplitsDashed(name: string, def: string)
    requires Name(name) && !HasPair(def, ':', '-') && !HasPair(def, ':', '?')
    ensures SplitDefault(name + "-" + def) == (name, Some(def)) && Trim(name) == name
  {
    var expr := name + "-" + def;
    forall i: nat, c: char | PairAt(expr, i, ':', c) ensures i > |name| && PairAt(def, i - |name| - 1, ':', c) {
      assert expr[i] == ':';
    }
    IndexAfter(name, '-', def);
    assert expr[..|name|] == name && expr[|name| + 1..] == def;
    TrimTrimmed(name);
  }

  lemma SplitsColon(name: string, def: string)
    requires Name(name)
    ensures SplitDefault(name + ":-" + def) == (name, Some(def)) && Trim(name) == name
  {
    var expr := name + ":-" + def;
    assert PairAt(expr, |name|, ':', '-');
    forall i: nat | i < |name| ensures !PairAt(expr, i, ':', '-') {
      assert expr[i] == name[i];
    }
    assert expr[..|name|] == name && expr[|name| + 2..] == def;
    TrimTrimmed(name);
  }

  /** `:?` is not a separator: the whole expression is taken for the name. */
  lemma SplitsRequired(name: string, message: string)
    requires Name(name) && Trimmed(message) && !HasPair(message, ':', '-')
    ensures var expr := name + ":?" + message; SplitDefault(expr) == (expr, None) && Trim(expr) == expr
  {
    var expr := name + ":?" + message;
    assert PairAt(expr, |name|, ':', '?');
    forall i: nat ensures !PairAt(expr, i, ':', '-') {
      if i < |name| {
        assert expr[i] == name[i];
      } else if i >= |name| + 2 && i + 1 < |expr| {
        assert !PairAt(message, i - |name| - 2, ':', '-');
      }
    }
    TrimTrimmed(expr);
  }

  lemma SegmentStep(segment: Segment, rest: string, scope: Scope)
    requires segment.Valid() && (segment.Literal? && rest != "" ==> rest[0] == '$')
    ensures Interpolate(segment.Print() + rest, scope) == segment.Eval(scope) + Interpolate(rest, scope)
  {
    hide Interpolate, SplitDefault, Trim;
    match segment
    case Literal(text) =>
      LiteralStep(text, rest, scope);
    case Plain(name) =>
      SplitsPlain(name);
      ExpressionStep(name, rest, scope);
    case Dashed(name, def) =>
      SplitsDashed(name, def);
      ExpressionStep(name + "-" + def, rest, scope);
    case Colon(name, def) =>
      SplitsColon(name, def);
      ExpressionStep(name + ":-" + def, rest, scope);
    case Required(name, message) =>
      SplitsRequired(name, message);
      ExpressionStep(name + ":?" + message, rest, scope);
  }

  /** A printed template evaluates segment by segment; what a variable holds is never expanded again. */
  lemma {:induction false} InterpolatesSegments(segments: seq<Segment>, scope: Scope)
    requires Template(segments)
    ensures Interpolate(PrintAll(segments), scope) == EvalAll(segments, scope)
  {
    if segments != [] {
      var rest := segments[1..];
      assert segments[0].Literal? && rest != [] ==> !segments[1].Literal? && PrintAll(rest)[0] == '$';
      SegmentStep(segments[0], PrintAll(rest), scope);
      InterpolatesSegments(rest, scope);
    }
  }

  lemma OneSegment(segment: Segment, scope: Scope)
    requires segment.Valid()
    ensures Interpolate(segment.Print(), scope) == segment.Eval(scope)
  {
    hide Interpolate, HasPair;
    SegmentStep(segment, "", scope);
    assert segment.Print() + "" == segment.Print() && segment.Eval(scope) + "" == segment.Eval(scope);
    assert Interpolate("", scope) == "" by { EmptyText(scope); }
  }

  /** `${name}`: the file's value if it has one, whatever the process has; else that of the process; else nothing. */
  lemma FileWins(name: string, scope: Scope)
    requires Name(name)
    ensures var text := Interpolate("${" + name + "}", scope);
      && (name in scope.extra ==> text == scope.extra[name])
      && (name !in scope.extra && name in scope.env ==> text == scope.env[name])
      && (name !in scope.extra && name !in scope.env ==> text == "")
  {
    hide Interpolate;
    OneSegment(Plain(name), scope);
  }

  /** White space around the name is no part of it. */
  lemma NameIsTrimmed(a: string, name: string, b: string, scope: Scope)
    requires Name(name) && AllSpace(a) && AllSpace(b)
    ensures Interpolate("${" + (a + name + b) + "}", scope) == Plain(name).Eval(scope)
  {
    var expr := a + name + b;
    TrimExactly(a, name, b);
    NoPair(expr, ':', '-');
    assert IndexOf(expr, '-') == None;
    hide Interpolate, HasPair, Trim;
    ExpressionStep(expr, "", scope);
    EmptyText(scope);
    assert "${" + expr + "}" + "" == "${" + expr + "}" && Plain(name).Eval(scope) + "" == Plain(name).Eval(scope);
  }

  /** An empty value in the file makes both forms use the default, even if the process has a value. */
  lemma EmptyInFileIsDefault(name: string, def: string, scope: Scope)
    requires Dashed(name, def).Valid() && name in scope.extra && scope.extra[name] == ""
    ensures Interpolate(Dashed(name, def).Print(), scope) == Interpolate(Colon(name, def).Print(), scope) == def
  {
    hide Interpolate;
    OneSegment(Dashed(name, def), scope);
    OneSegment(Colon(name, def), scope);
  }

  /** The Compose Specification's `${name:?message}` gives the variable's value, if it is set and not empty. */
  function IfSet(name: string, scope: Scope): string {
    if name in scope.extra then scope.extra[name] else if name in scope.env then scope.env[name] else ""
  }

  /** The code gives the value of a variable called `name:?message`, so hardly ever that one. */
  lemma RequiredExactly(name: string, message: string, scope: Scope)
    requires Required(name, message).Valid()
    ensures Interpolate(Required(name, message).Print(), scope) == IfSet(name, scope) <==>
      IfSet(name + ":?" + message, scope) == IfSet(name, scope)
  {
    hide Interpolate, HasPair;
    OneSegment(Required(name, message), scope);
  }

  /** The Compose Specification's `${name-def}`: the default stands for an unset variable only. */
  function UnlessUnset(name: string, def: string, scope: Scope): string {
    if name in scope.extra then scope.extra[name] else if name in scope.env then scope.env[name] else def
  }

  /** The code agrees with it except on a variable that is set and empty. */
  lemma DashedExactly(name: string, def: string, scope: Scope)
    requires Dashed(name, def).Valid()
    ensures Interpolate(Dashed(name, def).Print(), scope) == UnlessUnset(name, def, scope) <==>
      !(name in Variables(scope) && Variables(scope)[name] == "" && def != "")
  {
    hide Interpolate, HasPair;
    OneSegment(Dashed(name, def), scope);
  }

  lemma EmptyText(scope: Scope)
    ensures Interpolate("", scope) == ""
  {
  }

  /** A `${` that is never closed is ordinary text. */
  lemma {:induction false} UnclosedIsText(s: string, scope: Scope)
    requires '}' !in s
    ensures Interpolate(s, scope) == s
  {
    if s != "" {
      assert s == [s[0]] + s[1..];
      UnclosedIsText(s[1..], scope);
    }
  }
}
