/** The rotating log file (`src/log/logger.cpp`). */
module LogRotation {
  /** The log file itself, and `<log file>.n`. */
  datatype Name = Current | Old(n: nat)

  type Files = map<Name, string>

  /** What the logger keeps between two lines: its limits, the bytes it counts, and the directory. */
  datatype Log = Log(max: nat, keep: nat, bytes: nat, files: Files) {
    predicate Valid() {
      Current in files
    }

    /** As `init` leaves it: the size of the file found counts. */
    predicate Fresh() {
      Valid() && bytes == |files[Current]|
    }

    /** How many rotated files survive: also with `keep_files` zero the last one does. */
    function Kept(): nat {
      if keep == 0 then 1 else keep
    }

    /** The k-th newest kept file; a missing one is empty. */
    function File(k: nat): string {
      Content(files, Slot(k))
    }

    /** The kept files from the oldest on. */
    function Text(): string {
      TextFrom(Kept())
    }

    function TextFrom(k: nat): string {
      File(k) + if k == 0 then "" else TextFrom(k - 1)
    }

    predicate Fits(line: string) {
      bytes + |line| < max || max == 0
    }
  }

  function Slot(k: nat): Name {
    if k == 0 then Current else Old(k)
  }

  function Content(files: Files, name: Name): string {
    if name in files then files[name] else ""
  }

  /** Renaming a missing file fails and changes nothing. */
  function Rename(files: Files, from: Name, dest: Name): Files {
    if from in files then (files - {from})[dest := files[from]] else files
  }

  /** Each file moves one name up, from `Old(i)` down. */
  function Shift(files: Files, i: nat): Files
    decreases i
  {
    if i < 2 then files else Shift(Rename(files, Old(i - 1), Old(i)), i - 1)
  }

  /** The files once the renames are done; nothing has the log's own name. */
  function Renamed(files: Files, keep: nat): Files {
    Rename(Shift(files - {Old(keep)}, keep), Current, Old(1))
  }

  function Rotated(files: Files, keep: nat): Files {
    Renamed(files, keep)[Current := ""]
  }

  function Append(files: Files, line: string): Files {
    files[Current := Content(files, Current) + line]
  }

  /** One line; after a rotation the count starts at zero although the line is in the new file. */
  function Write(log: Log, line: string): (r: Log)
    requires log.Valid()
    ensures r.Valid() && r.max == log.max && r.keep == log.keep
  {
    if log.Fits(line) then log.(bytes := log.bytes + |line|, files := Append(log.files, line))
    else log.(bytes := 0, files := Append(Rotated(log.files, log.keep), line))
  }

  function WriteAll(log: Log, lines: seq<string>): (r: Log)
    requires log.Valid()
    ensures r.Valid() && r.max == log.max && r.keep == log.keep
    decreases |lines|
  {
    if lines == [] then log else WriteAll(Write(log, lines[0]), lines[1..])
  }

  // ---- one rotation ----

  lemma {:induction false} ShiftExact(files: Files, i: nat, name: Name)
    requires i >= 2 ==> Old(i) !in files
    ensures Content(Shift(files, i), name) ==
      match name
      case Current => Content(files, Current)
      case Old(k) =>
        if 2 <= k <= i then Content(files, Old(k - 1)) else if k == 1 && i >= 2 then "" else Content(files, Old(k))
    ensures i >= 2 ==> Old(1) !in Shift(files, i)
    ensures Current in Shift(files, i) <==> Current in files
    decreases i
  {
    if i >= 2 {
      ShiftExact(Rename(files, Old(i - 1), Old(i)), i - 1, name);
    }
  }

  /** Where the content of each name comes from when the renames are done. */
  lemma RenamedExact(log: Log, name: Name)
    requires log.Valid()
    ensures Content(Renamed(log.files, log.keep), name) ==
      match name
      case Current => ""
      case Old(k) =>
        if 1 <= k <= log.Kept() then log.File(k - 1)
        else if k == 0 && log.keep == 0 then ""
        else Content(log.files, Old(k))
  {
    var rest := log.files - {Old(log.keep)};
    var shifted := Shift(rest, log.keep);
    ShiftExact(rest, log.keep, name);
    ShiftExact(rest, log.keep, Current);
    assert Content(rest, Current) == Content(log.files, Current);
    hide Shift;
    match name
    case Current =>
    case Old(k) =>
      assert k != log.keep ==> Content(rest, Old(k)) == Content(log.files, Old(k));
      assert k >= 2 ==> k - 1 != log.keep ==> Content(rest, Old(k - 1)) == Content(log.files, Old(k - 1));
  }

  /** A rotation moves every kept file one place, forgets the oldest, and leaves names beyond those alone. */
  lemma RotatedExact(log: Log)
    requires log.Valid()
    ensures var files := Rotated(log.files, log.keep);
      && Current in files && files[Current] == ""
      && (forall k :: 1 <= k <= log.Kept() ==> Content(files, Slot(k)) == log.File(k - 1))
      && (forall n :: n > log.Kept() ==> Content(files, Old(n)) == Content(log.files, Old(n)))
  {
    var files := Rotated(log.files, log.keep);
    hide Renamed;
    forall k | 1 <= k <= log.Kept() ensures Content(files, Slot(k)) == log.File(k - 1) {
      RenamedExact(log, Old(k));
    }
    forall n | n > log.Kept() ensures Content(files, Old(n)) == Content(log.files, Old(n)) {
      RenamedExact(log, Old(n));
    }
  }

  // ---- all files ever written ----

  /** Every file ever begun, oldest first, each as the pieces written to it. */
  datatype Journal = Journal(files: seq<seq<string>>, bytes: nat)

  function Join(pieces: seq<string>): string {
    if pieces == [] then "" else pieces[0] + Join(pieces[1..])
  }

  function Flatten(files: seq<seq<string>>): seq<string> {
    if files == [] then [] else files[0] + Flatten(files[1..])
  }

  function Record(j: Journal, max: nat, line: string): Journal
    requires j.files != []
  {
    var n := |j.files|;
    if j.bytes + |line| < max || max == 0 then Journal(j.files[..n - 1] + [j.files[n - 1] + [line]], j.bytes + |line|)
    else Journal(j.files + [[line]], 0)
  }

  /** The files found at the start, each as one piece. */
  function Found(log: Log, k: nat): (r: seq<seq<string>>)
    ensures |r| == k + 1
    ensures forall i :: 0 <= i <= k ==> r[k - i] == [log.File(i)]
  {
    [[log.File(k)]] + if k == 0 then [] else Found(log, k - 1)
  }

  function Start(log: Log): Journal {
    Journal(Found(log, log.Kept()), log.bytes)
  }

  function RecordAll(j: Journal, max: nat, lines: seq<string>): (r: Journal)
    requires j.files != []
    ensures r.files != []
    decreases |lines|
  {
    if lines == [] then j else RecordAll(Record(j, max, lines[0]), max, lines[1..])
  }

  /** The bytes counted against the limit: not the line that began the file, once files begin by rotation. */
  function Counted(j: Journal, found: nat, i: nat): nat
    requires i < |j.files|
  {
    if i < found || j.files[i] == [] then |Join(j.files[i])| else |Join(j.files[i][1..])|
  }

  /** File `i` was begun by a rotation that its first line made necessary, and grew within the limit. */
  predicate Begun(j: Journal, found: nat, max: nat, i: nat)
    requires 0 < i < |j.files|
  {
    && j.files[i] != []
    && Counted(j, found, i - 1) + |j.files[i][0]| >= max
    && |Join(j.files[i][1..])| < max
  }

  predicate Sound(j: Journal, found: nat, max: nat) {
    && 0 < found <= |j.files|
    && (forall i :: 0 <= i < |j.files| ==> j.files[i] != [])
    && j.bytes == Counted(j, found, |j.files| - 1)
    && (forall i :: found <= i < |j.files| ==> Begun(j, found, max, i))
  }

  /** The directory holds the newest files of the journal. */
  predicate Mirrors(log: Log, j: Journal) {
    && log.bytes == j.bytes && |j.files| > log.Kept()
    && forall k :: 0 <= k <= log.Kept() ==> log.File(k) == Join(j.files[|j.files| - 1 - k])
  }

  lemma {:induction false} JoinConcat(a: seq<string>, b: seq<string>)
    ensures Join(a + b) == Join(a) + Join(b)
  {
    if a == [] {
      assert a + b == b;
    } else {
      assert (a + b)[1..] == a[1..] + b;
      JoinConcat(a[1..], b);
    }
  }

  lemma JoinOne(s: string)
    ensures Join([s]) == s
  {
    assert s + "" == s;
  }

  lemma {:induction false} FlattenConcat(a: seq<seq<string>>, b: seq<seq<string>>)
    ensures Flatten(a + b) == Flatten(a) + Flatten(b)
  {
    if a == [] {
      assert a + b == b;
    } else {
      assert (a + b)[1..] == a[1..] + b;
      FlattenConcat(a[1..], b);
    }
  }

  lemma FlattenOne(pieces: seq<string>)
    ensures Flatten([pieces]) == pieces
  {
  }

  /** Nothing but the new line is added. */
  lemma RecordKeepsAll(j: Journal, max: nat, line: string)
    requires j.files != []
    ensures Flatten(Record(j, max, line).files) == Flatten(j.files) + [line]
  {
    var n := |j.files|;
    var older, last := j.files[..n - 1], j.files[n - 1];
    assert j.files == older + [last];
    FlattenConcat(older, [last]);
    FlattenConcat(older, [last + [line]]);
    FlattenConcat(j.files, [[line]]);
    FlattenOne(last);
    FlattenOne(last + [line]);
    FlattenOne([line]);
  }

  lemma CountedElsewhere(j: Journal, k: Journal, found: nat, i: nat)
    requires i < |j.files| && i < |k.files| && j.files[i] == k.files[i]
    ensures Counted(j, found, i) == Counted(k, found, i)
  {
  }

  lemma LastGrows(j: Journal, found: nat, max: nat, line: string)
    requires Sound(j, found, max) && (j.bytes + |line| < max || max == 0)
    ensures var next, n := Record(j, max, line), |j.files|;
      && Counted(next, found, n - 1) == Counted(j, found, n - 1) + |line|
      && (found <= n - 1 ==> Begun(next, found, max, n - 1))
  {
    var n, next := |j.files|, Record(j, max, line);
    var last := j.files[n - 1];
    JoinOne(line);
    if found <= n - 1 {
      assert Begun(j, found, max, n - 1);
      assert (last + [line])[1..] == last[1..] + [line];
      JoinConcat(last[1..], [line]);
      CountedElsewhere(j, next, found, n - 2);
    } else {
      JoinConcat(last, [line]);
    }
  }

  lemma RecordKeepsSound(j: Journal, found: nat, max: nat, line: string)
    requires Sound(j, found, max)
    ensures Sound(Record(j, max, line), found, max)
  {
    var n, next := |j.files|, Record(j, max, line);
    if j.bytes + |line| < max || max == 0 {
      LastGrows(j, found, max, line);
      forall i | found <= i < n - 1 ensures Begun(next, found, max, i) {
        assert Begun(j, found, max, i);
        CountedElsewhere(j, next, found, i - 1);
      }
    } else {
      assert [line][1..] == [];
      forall i | found <= i < n + 1 ensures Begun(next, found, max, i) {
        CountedElsewhere(j, next, found, i - 1);
        assert i < n ==> Begun(j, found, max, i);
      }
    }
  }

  lemma WriteMirrors(log: Log, j: Journal, line: string)
    requires log.Valid() && Mirrors(log, j)
    ensures Mirrors(Write(log, line), Record(j, log.max, line))
  {
    var n, last := |j.files|, j.files[|j.files| - 1];
    assert log.File(0) == Join(last);
    JoinOne(line);
    if log.Fits(line) {
      JoinConcat(last, [line]);
      var next, after := Write(log, line), Record(j, log.max, line);
      forall k | 0 < k <= log.Kept() ensures next.File(k) == Join(after.files[n - 1 - k]) {
        assert next.File(k) == log.File(k) && after.files[n - 1 - k] == j.files[n - 1 - k];
      }
    } else {
      RotatedExact(log);
      RotationMirrors(log, j, line);
    }
  }

  lemma RotationMirrors(log: Log, j: Journal, line: string)
    requires log.Valid() && Mirrors(log, j) && !log.Fits(line)
    requires var files := Rotated(log.files, log.keep);
      && Current in files && files[Current] == ""
      && (forall k :: 1 <= k <= log.Kept() ==> Content(files, Slot(k)) == log.File(k - 1))
    ensures Mirrors(Write(log, line), Record(j, log.max, line))
  {
    hide Rotated;
    var next, after := Write(log, line), Record(j, log.max, line);
    JoinOne(line);
    assert "" + line == line;
    forall k | 0 <= k <= log.Kept() ensures next.File(k) == Join(after.files[|after.files| - 1 - k]) {
      if k > 0 {
        assert next.File(k) == Content(Rotated(log.files, log.keep), Slot(k)) == log.File(k - 1);
        assert after.files[|after.files| - 1 - k] == j.files[|j.files| - 1 - (k - 1)];
      }
    }
  }

  lemma {:induction false} RunsAreJournals(log: Log, j: Journal, found: nat, lines: seq<string>)
    requires log.Valid() && Mirrors(log, j) && Sound(j, found, log.max)
    ensures var after := RecordAll(j, log.max, lines);
      && Mirrors(WriteAll(log, lines), after) && Sound(after, found, log.max)
      && Flatten(after.files) == Flatten(j.files) + lines
    decreases |lines|
  {
    if lines == [] {
      assert Flatten(j.files) + lines == Flatten(j.files);
    } else {
      var line := lines[0];
      WriteMirrors(log, j, line);
      RecordKeepsSound(j, found, log.max, line);
      RecordKeepsAll(j, log.max, line);
      hide Write, Record, Mirrors, Sound, Flatten;
      RunsAreJournals(Write(log, line), Record(j, log.max, line), found, lines[1..]);
      assert Flatten(j.files) + lines == Flatten(j.files) + [line] + lines[1..];
    }
  }

  lemma StartIsSound(log: Log)
    requires log.Fresh()
    ensures Mirrors(log, Start(log)) && Sound(Start(log), log.Kept() + 1, log.max)
  {
    var j := Start(log);
    forall k | 0 <= k <= log.Kept() ensures log.File(k) == Join(j.files[|j.files| - 1 - k]) {
      JoinOne(log.File(k));
      assert j.files[log.Kept() - k] == [log.File(k)];
    }
    forall i | 0 <= i < |j.files| ensures j.files[i] != [] {
      assert j.files[log.Kept() - (log.Kept() - i)] == [log.File(log.Kept() - i)];
    }
    JoinOne(log.File(0));
    assert j.files[log.Kept() - 0] == [log.File(0)];
  }

  /**
   * Whatever is written, the directory holds the newest files of a journal that splits everything written, in order and
   * without loss, into files: each file a rotation began was begun because its first line did not fit and is shorter
   * than the limit plus that line.
   */
  lemma FilesFollowJournal(log: Log, lines: seq<string>)
    requires log.Fresh()
    ensures var j := RecordAll(Start(log), log.max, lines);
      && Mirrors(WriteAll(log, lines), j) && Sound(j, log.Kept() + 1, log.max)
      && Flatten(j.files) == Flatten(Start(log).files) + lines
  {
    StartIsSound(log);
    RunsAreJournals(log, Start(log), log.Kept() + 1, lines);
  }

  // ---- what it means for the files ----

  predicate IsSuffix(a: string, b: string) {
    |a| <= |b| && b[|b| - |a|..] == a
  }

  lemma {:induction false} TextMirrors(log: Log, j: Journal, k: nat)
    requires Mirrors(log, j) && k <= log.Kept()
    ensures log.TextFrom(k) == Join(Flatten(j.files[|j.files| - 1 - k..]))
  {
    var i := |j.files| - 1 - k;
    var tail := j.files[i..];
    assert tail[0] == j.files[i] && tail[1..] == j.files[i + 1..];
    JoinConcat(tail[0], Flatten(tail[1..]));
    assert log.File(k) == Join(tail[0]);
    if k > 0 {
      TextMirrors(log, j, k - 1);
    }
  }

  lemma FoundText(log: Log)
    requires log.Fresh()
    ensures Join(Flatten(Start(log).files)) == log.Text()
  {
    StartIsSound(log);
    TextMirrors(log, Start(log), log.Kept());
    assert Start(log).files[0..] == Start(log).files;
  }

  /** The kept files, oldest to newest, are always the end of everything written. */
  lemma KeptIsSuffix(log: Log, lines: seq<string>)
    requires log.Fresh()
    ensures IsSuffix(WriteAll(log, lines).Text(), log.Text() + Join(lines))
  {
    var after, j := WriteAll(log, lines), RecordAll(Start(log), log.max, lines);
    FilesFollowJournal(log, lines);
    FoundText(log);
    var i := |j.files| - 1 - log.Kept();
    TextMirrors(after, j, log.Kept());
    JoinConcat(Flatten(Start(log).files), lines);
    assert j.files == j.files[..i] + j.files[i..];
    FlattenConcat(j.files[..i], j.files[i..]);
    JoinConcat(Flatten(j.files[..i]), Flatten(j.files[i..]));
  }

  /** The number of rotations of a run. */
  function Rotations(log: Log, lines: seq<string>): nat
    requires log.Valid()
    decreases |lines|
  {
    if lines == [] then 0
    else (if log.Fits(lines[0]) then 0 else 1) + Rotations(Write(log, lines[0]), lines[1..])
  }

  lemma {:induction false} RotationsCounted(log: Log, j: Journal, lines: seq<string>)
    requires log.Valid() && Mirrors(log, j)
    ensures |RecordAll(j, log.max, lines).files| == |j.files| + Rotations(log, lines)
    decreases |lines|
  {
    if lines != [] {
      WriteMirrors(log, j, lines[0]);
      RotationsCounted(Write(log, lines[0]), Record(j, log.max, lines[0]), lines[1..]);
    }
  }

  /** The content is that of consecutive lines, and shorter than the limit plus the first of them. */
  predicate Bounded(content: string, lines: seq<string>, a: nat, b: nat, max: nat) {
    a < b <= |lines| && content == Join(lines[a..b]) && |content| < max + |lines[a]|
  }

  lemma {:induction false} FlattenLength(files: seq<seq<string>>)
    requires forall i :: 0 <= i < |files| ==> files[i] != []
    ensures |Flatten(files)| >= |files|
  {
    if files != [] {
      FlattenLength(files[1..]);
    }
  }

  lemma {:induction false} FoundFlat(log: Log, k: nat)
    ensures |Flatten(Found(log, k))| == k + 1
  {
    if k > 0 {
      FoundFlat(log, k - 1);
      assert Found(log, k)[1..] == Found(log, k - 1);
    }
  }

  /** Where a file's pieces stand among all pieces. */
  lemma FileInFlat(files: seq<seq<string>>, i: nat)
    requires i < |files|
    ensures var a := |Flatten(files[..i])|;
      a + |files[i]| <= |Flatten(files)| && Flatten(files)[a..a + |files[i]|] == files[i]
  {
    assert files == files[..i] + [files[i]] + files[i + 1..];
    FlattenConcat(files[..i] + [files[i]], files[i + 1..]);
    FlattenConcat(files[..i], [files[i]]);
    FlattenOne(files[i]);
  }

  /** Every file begun by a rotation of the run holds consecutive lines and is shorter than the limit plus the first. */
  lemma RotatedFilesAreBounded(log: Log, lines: seq<string>, k: nat) returns (a: nat, b: nat)
    requires log.Fresh() && k <= log.Kept() && k < Rotations(log, lines)
    ensures Bounded(WriteAll(log, lines).File(k), lines, a, b, log.max)
  {
    var after, j, found := WriteAll(log, lines), RecordAll(Start(log), log.max, lines), log.Kept() + 1;
    FilesFollowJournal(log, lines);
    StartIsSound(log);
    RotationsCounted(log, Start(log), lines);
    var i := |j.files| - 1 - k;
    a, b := LinesOfFile(log, lines, j, i);
    assert after.File(k) == Join(j.files[i]) && Begun(j, found, log.max, i);
    assert j.files[i][0] == lines[a];
  }

  lemma LinesOfFile(log: Log, lines: seq<string>, j: Journal, i: nat) returns (a: nat, b: nat)
    requires log.Kept() < i < |j.files| && Sound(j, log.Kept() + 1, log.max)
    requires Flatten(j.files) == Flatten(Start(log).files) + lines
    ensures a < b <= |lines| && lines[a..b] == j.files[i]
  {
    FoundFlat(log, log.Kept());
    FileInFlat(j.files, i);
    FlattenLength(j.files[..i]);
    a := |Flatten(j.files[..i])| - |Flatten(Start(log).files)|;
    b := a + |j.files[i]|;
  }

  lemma WriteBegins(log: Log, first: string)
    requires log.Valid() && !log.Fits(first)
    ensures var next := Write(log, first); next.bytes == 0 && next.File(0) == first && next.max == log.max > 0
  {
    hide Renamed;
  }

  /** Lines that need no rotation are appended, and stay below the limit together with what is counted. */
  lemma {:induction false} AppendsOnly(log: Log, lines: seq<string>)
    requires log.Valid() && log.max > 0 && Rotations(log, lines) == 0
    ensures WriteAll(log, lines).File(0) == log.File(0) + Join(lines)
    ensures lines != [] ==> log.bytes + |Join(lines)| < log.max
    decreases |lines|
  {
    if lines == [] {
      assert log.File(0) + "" == log.File(0);
    } else {
      var next := Write(log, lines[0]);
      assert next.File(0) == log.File(0) + lines[0];
      AppendsOnly(next, lines[1..]);
      assert log.File(0) + lines[0] + Join(lines[1..]) == log.File(0) + (lines[0] + Join(lines[1..]));
    }
  }

  /** The bound is attained: one rotation, then the longest line that still fits. */
  lemma BoundIsAttained(log: Log, first: string, more: string)
    requires log.Valid() && log.max > 0 && !log.Fits(first) && |more| == log.max - 1
    ensures Rotations(log, [first, more]) == 1
    ensures |WriteAll(log, [first, more]).File(0)| == log.max + |first| - 1
  {
    WriteBegins(log, first);
    var next := Write(log, first);
    assert [first, more][1..] == [more] && [more][1..] == [];
    assert next.Fits(more);
    assert Rotations(next, [more]) == 0;
    AppendsOnly(next, [more]);
    JoinOne(more);
    hide Write, Join;
  }

  /** Appended to the file that `first` began, without another rotation. */
  ghost predicate StaysBelow(log: Log, first: string, more: seq<string>)
    requires log.Valid()
  {
    Rotations(Write(log, first), more) == 0 ==> |WriteAll(log, [first] + more).File(0)| < log.max
  }

  /**
   The file that a line begins stays below the limit, whatever is appended before the next rotation, exactly if that
   line is empty; the logger's lines never are.
   */
  lemma StaysBelowExactly(log: Log, first: string)
    requires log.Valid() && log.max > 0 && !log.Fits(first)
    ensures (forall more :: StaysBelow(log, first, more)) <==> first == ""
  {
    WriteBegins(log, first);
    var next := Write(log, first);
    if first == "" {
      forall more ensures StaysBelow(log, first, more) {
        assert ([first] + more)[1..] == more;
        if Rotations(next, more) == 0 {
          AppendsOnly(next, more);
          hide Write;
        }
      }
    } else {
      var line := seq(log.max - 1, _ => 'x');
      BoundIsAttained(log, first, line);
      assert [first] + [line] == [first, line] && [first, line][1..] == [line];
      assert !StaysBelow(log, first, [line]);
    }
  }

  /** A limit of zero turns rotation off. */
  lemma {:induction false} NoLimitNoRotation(log: Log, lines: seq<string>)
    requires log.Valid() && log.max == 0
    ensures WriteAll(log, lines).files == log.files[Current := log.files[Current] + Join(lines)]
    ensures Rotations(log, lines) == 0
    decreases |lines|
  {
    if lines == [] {
      assert log.files[Current] + "" == log.files[Current];
    } else {
      NoLimitNoRotation(Write(log, lines[0]), lines[1..]);
      assert log.files[Current] + lines[0] + Join(lines[1..]) == log.files[Current] + (lines[0] + Join(lines[1..]));
    }
  }
}
