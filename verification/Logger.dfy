/** The logger as it runs (`src/log/logger.cpp`). */
module Loggers {
  import opened LogRotation

  datatype Level = Debug | Info | Warn | Error {
    function Rank(): nat {
      match this
      case Debug => 0
      case Info => 1
      case Warn => 2
      case Error => 3
    }

    function Tag(): string {
      match this
      case Debug => "DEBUG"
      case Info => "INFO"
      case Warn => "WARN"
      case Error => "ERROR"
    }
  }

  function LineOf(stamp: string, level: Level, message: string): (line: string)
    ensures line != ""
  {
    stamp + " [" + level.Tag() + "] " + message + "\n"
  }

  const SEVERITIES: seq<Level> := [Debug, Info, Warn, Error]

  /** Levels are ranked by severity. */
  lemma RankIsPlace(level: Level)
    ensures level.Rank() < |SEVERITIES| && SEVERITIES[level.Rank()] == level
  {
  }

  /** A line begins with the time, ends with the message and a line break, and, with times of one width, tells all. */
  lemma LineTellsAll(stamp: string, level: Level, message: string, stamp': string, level': Level, message': string)
    requires |stamp| == |stamp'|
    ensures var line := LineOf(stamp, level, message);
      && stamp <= line && line[|line| - 1] == '\n'
      && |line| > |message| && line[|line| - 1 - |message|..|line| - 1] == message
      && (line == LineOf(stamp', level', message') <==> stamp == stamp' && level == level' && message == message')
  {
    var line, line' := LineOf(stamp, level, message), LineOf(stamp', level', message');
    if line == line' {
      assert line[..|stamp|] == stamp && line'[..|stamp|] == stamp';
      assert line[|stamp| + 2] == level.Tag()[0] && line'[|stamp| + 2] == level'.Tag()[0];
      assert level == level';
      assert line[|line| - 1 - |message|..|line| - 1] == message;
      assert line'[|line'| - 1 - |message'|..|line'| - 1] == message';
    }
  }

  class Logger {
    var level: Level
    var maxBytes: nat
    var keepFiles: nat
    var bytesWritten: nat
    var fileEnabled: bool
    var fileOpen: bool
    var files: Files

    ghost predicate Valid()
      reads this
    {
      fileEnabled && fileOpen ==> Current in files
    }

    function View(): Log
      reads this
    {
      Log(maxBytes, keepFiles, bytesWritten, files)
    }

    /** `init`: `canOpen` tells whether the file could be opened for appending, which creates it. */
    constructor (level: Level, maxBytes: nat, keepFiles: nat, onDisk: Files, canOpen: bool)
      ensures Valid() && this.level == level && fileEnabled == fileOpen == canOpen
      ensures maxBytes == this.maxBytes && keepFiles == this.keepFiles
      ensures files == if canOpen && Current !in onDisk then onDisk[Current := ""] else onDisk
      ensures canOpen ==> View().Fresh()
    {
      this.level := level;
      this.maxBytes := maxBytes;
      this.keepFiles := keepFiles;
      bytesWritten := 0;
      fileEnabled, fileOpen := false, false;
      files := onDisk;
      if canOpen {
        files := if Current in onDisk then onDisk else onDisk[Current := ""];
        fileEnabled, fileOpen := true, true;
        bytesWritten := |Content(onDisk, Current)|;
      }
    }

    /** `canReopen` tells whether the new file can be created; the count starts again either way. */
    method RotateIfNeeded(incoming: nat, canReopen: bool)
      requires Valid() && fileEnabled && fileOpen
      modifies `bytesWritten, `files, `fileOpen
      ensures Valid()
      ensures var total := old(bytesWritten) + incoming;
        if total < maxBytes || maxBytes == 0 then bytesWritten == total && files == old(files) && fileOpen
        else
          && bytesWritten == 0 && fileOpen == canReopen
          && files == if canReopen then Rotated(old(files), keepFiles) else Renamed(old(files), keepFiles)
    {
      var total := bytesWritten + incoming;
      if total < maxBytes || maxBytes == 0 {
        bytesWritten := total;
        return;
      }
      fileOpen := false;
      files := files - {Old(keepFiles)};
      var i := keepFiles;
      while i >= 2
        invariant !fileOpen && Shift(files, i) == Shift(old(files) - {Old(keepFiles)}, keepFiles)
      {
        files := Rename(files, Old(i - 1), Old(i));
        i := i - 1;
      }
      files := Rename(files, Current, Old(1));
      if canReopen {
        files := files[Current := ""];
        fileOpen := true;
      }
      bytesWritten := 0;
    }

    /** A line that needs a new file which cannot be created is lost, and so are all lines after it. */
    method Emit(level: Level, stamp: string, message: string, canReopen: bool)
      requires Valid()
      modifies `bytesWritten, `files, `fileOpen
      ensures Valid()
      ensures var line := LineOf(stamp, level, message);
        if level.Rank() < this.level.Rank() || !fileEnabled || !old(fileOpen) then
          View() == old(View()) && fileOpen == old(fileOpen)
        else if old(View()).Fits(line) || canReopen then View() == Write(old(View()), line) && fileOpen
        else View() == old(View()).(bytes := 0, files := Renamed(old(files), keepFiles)) && !fileOpen
    {
      if level.Rank() < this.level.Rank() {
        return;
      }
      var line := LineOf(stamp, level, message);
      if fileEnabled && fileOpen {
        RotateIfNeeded(|line|, canReopen);
        if fileOpen {
          files := files[Current := files[Current] + line];
        }
      }
    }
  }
}
