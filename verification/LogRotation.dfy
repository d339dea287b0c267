/**
 The SDK log (cli/sdk/logserver.go): a base file that is rotated at 2 MiB through numbered files,
 and a tail of recent lines. The directory is set, file operations succeed, and a Go string is the
 sequence of its bytes. File 0 is the base file; file i is the one with suffix ".i".
 */
module LogRotation {
  import opened Common

  const LOG_TAIL_LINES := 100
  const LOG_FILE_MAX_BYTES := 2 * 1024 * 1024
  const LOG_FILE_MAX_FILES := 5

  /** What each of the six possible files holds, if it exists. */
  type Directory = files: seq<Option<string>> | |files| == LOG_FILE_MAX_FILES + 1
    witness [None, None, None, None, None, None]

  const NoFiles: Directory := [None, None, None, None, None, None]

  function Content(files: Directory, i: nat): string
    requires i <= LOG_FILE_MAX_FILES
  {
    files[i].GetOr("")
  }

  /** Files i, i - 1, ..., 1 and then the base file. */
  function Contents(files: Directory, i: nat): string
    requires i <= LOG_FILE_MAX_FILES
  {
    if i == 0 then Content(files, 0) else Content(files, i) + Contents(files, i - 1)
  }

  function Snapshot(files: Directory): string {
    Contents(files, LOG_FILE_MAX_FILES - 1)
  }

  /** Every file moves up by one, the oldest falls off, and a new base file is opened. */
  function Rotated(files: Directory): Directory {
    [Some("")] + files[..LOG_FILE_MAX_FILES]
  }

  function Longer(files: Directory, line: string): Directory {
    files[0 := Some(Content(files, 0) + line)]
  }

  function Appended(files: Directory, line: string): Directory {
    if |Content(files, 0) + line| >= LOG_FILE_MAX_BYTES then Rotated(Longer(files, line)) else Longer(files, line)
  }

  // ----- Lines and the tail -----

  /** strings.Split(s, "\n") */
  function SplitLines(s: string): (pieces: seq<string>)
    ensures pieces != []
  {
    if s == "" then [""]
    else
      var rest := SplitLines(s[1..]);
      if s[0] == '\n' then [""] + rest else [[s[0]] + rest[0]] + rest[1..]
  }

  function JoinLines(pieces: seq<string>): string
    requires pieces != []
  {
    if |pieces| == 1 then pieces[0] else pieces[0] + "\n" + JoinLines(pieces[1..])
  }

  lemma {:induction false} SplitJoins(s: string)
    ensures JoinLines(SplitLines(s)) == s
    ensures forall p <- SplitLines(s) :: '\n' !in p
  {
    if s != "" {
      SplitJoins(s[1..]);
      var rest := SplitLines(s[1..]);
      if s[0] == '\n' {
        JoinAfterNewline(rest);
      } else {
        JoinAfterChar(s[0], rest);
      }
      assert s == [s[0]] + s[1..];
    }
  }

  lemma JoinAfterNewline(rest: seq<string>)
    requires rest != []
    ensures JoinLines([""] + rest) == "\n" + JoinLines(rest)
  {
    assert ([""] + rest)[1..] == rest;
  }

  lemma JoinAfterChar(c: char, rest: seq<string>)
    requires rest != []
    ensures JoinLines([[c] + rest[0]] + rest[1..]) == [c] + JoinLines(rest)
  {
    var pieces := [[c] + rest[0]] + rest[1..];
    assert pieces[1..] == rest[1..];
    if |rest| > 1 {
      CharFirst(c, rest[0], "\n", JoinLines(rest[1..]));
    }
  }

  lemma CharFirst(c: char, a: string, b: string, d: string)
    ensures [c] + a + b + d == [c] + (a + b + d)
  {
  }

  function NonEmpty(pieces: seq<string>): seq<string> {
    if pieces == [] then []
    else
      var before := NonEmpty(pieces[..|pieces| - 1]);
      if pieces[|pieces| - 1] == "" then before else before + [pieces[|pieces| - 1]]
  }

  function LastLines(lines: seq<string>): seq<string> {
    if |lines| <= LOG_TAIL_LINES then lines else lines[|lines| - LOG_TAIL_LINES..]
  }

  lemma LastLinesAppend(a: seq<string>, b: seq<string>)
    ensures LastLines(LastLines(a) + b) == LastLines(a + b)
  {
    if |a| > LOG_TAIL_LINES {
      var cut := |a| - LOG_TAIL_LINES;
      assert LastLines(a) + b == (a + b)[cut..];
    }
  }

  class LogManager {
    var files: Directory
    var isOpen: bool
    var size: nat
    var tail: seq<string>

    ghost predicate Valid()
      reads this
    {
      |tail| <= LOG_TAIL_LINES && if isOpen then files[0].Some? && size == |files[0].value| else files == NoFiles
    }

    constructor ()
      ensures Valid() && files == NoFiles && tail == []
    {
      files, isOpen, size, tail := NoFiles, false, 0, [];
    }

    method AppendLogLine(line: string)
      requires Valid()
      modifies this
      ensures Valid() && isOpen && files == Appended(old(files), line)
      ensures tail == LastLines(old(tail) + NonEmpty(SplitLines(line)))
    {
      AppendTail(line);
      AppendFile(line);
    }

    method AppendTail(line: string)
      requires |tail| <= LOG_TAIL_LINES
      modifies this`tail
      ensures tail == LastLines(old(tail) + NonEmpty(SplitLines(line)))
    {
      var pieces := SplitLines(line);
      ghost var kept := [];
      assert old(tail) + [] == old(tail);
      for i := 0 to |pieces|
        invariant kept == NonEmpty(pieces[..i])
        invariant tail == LastLines(old(tail) + kept)
      {
        assert pieces[..i + 1][..i] == pieces[..i];
        if pieces[i] != "" {
          PushLine(pieces[i]);
          LastLinesAppend(old(tail) + kept, [pieces[i]]);
          assert old(tail) + kept + [pieces[i]] == old(tail) + (kept + [pieces[i]]);
          kept := kept + [pieces[i]];
        }
      }
      assert pieces[..|pieces|] == pieces;
    }

    method PushLine(segment: string)
      modifies this`tail
      ensures tail == LastLines(old(tail) + [segment])
    {
      tail := tail + [segment];
      if |tail| > LOG_TAIL_LINES {
        tail := tail[|tail| - LOG_TAIL_LINES..];
      }
    }

    method AppendFile(line: string)
      requires Valid()
      modifies this`files, this`isOpen, this`size
      ensures Valid() && isOpen && files == Appended(old(files), line)
    {
      if !isOpen {
        Open();
      }
      files := files[0 := Some(files[0].value + line)];
      size := size + |line|;
      assert files == Longer(old(files), line);
      if size >= LOG_FILE_MAX_BYTES {
        Rotate();
      }
    }

    method Open()
      modifies this`files, this`isOpen, this`size
      ensures files == old(files)[0 := Some(Content(old(files), 0))]
      ensures isOpen && size == |files[0].value|
    {
      if files[0].None? {
        files := files[0 := Some("")];
      }
      size := |files[0].value|;
      isOpen := true;
    }

    method Rename(src: nat, dst: nat)
      requires src != dst && src <= LOG_FILE_MAX_FILES && dst <= LOG_FILE_MAX_FILES
      modifies this`files
      ensures files == if old(files)[src].Some? then old(files)[dst := old(files)[src]][src := None] else old(files)
    {
      if files[src].Some? {
        files := files[dst := files[src]];
        files := files[src := None];
      }
    }

    method Rotate()
      requires isOpen && files[0].Some?
      modifies this`files, this`isOpen, this`size
      ensures isOpen && files == Rotated(old(files)) && size == 0
    {
      isOpen := false;
      var i: nat := LOG_FILE_MAX_FILES - 1;
      while i >= 1
        invariant i <= LOG_FILE_MAX_FILES - 1
        invariant forall j: nat | j <= i :: files[j] == old(files)[j]
        invariant i < LOG_FILE_MAX_FILES - 1 ==> files[i + 1].None?
        invariant forall j: nat | i + 1 < j <= LOG_FILE_MAX_FILES :: files[j] == old(files)[j - 1]
      {
        if i == LOG_FILE_MAX_FILES - 1 {
          files := files[i + 1 := None];
        }
        Rename(i, i + 1);
        i := i - 1;
      }
      Rename(0, 1);
      size := 0;
      Open();
    }

    method ReadFiles(top: nat) returns (out: string)
      requires top <= LOG_FILE_MAX_FILES
      ensures out == Contents(files, top)
    {
      out := "";
      var i: nat := top;
      while i >= 1
        invariant i <= top
        invariant out + Contents(files, i) == Contents(files, top)
      {
        assert out + Contents(files, i) == out + Content(files, i) + Contents(files, i - 1);
        if files[i].Some? {
          out := out + files[i].value;
        }
        i := i - 1;
      }
      if files[0].Some? {
        out := out + files[0].value;
      }
    }

    method GetLogsSnapshot() returns (out: string)
      ensures out == Snapshot(files)
    {
      out := ReadFiles(LOG_FILE_MAX_FILES - 1);
    }
  }

  // ----- Every run of appends -----

  function FilesAfter(lines: seq<string>): Directory {
    if lines == [] then NoFiles else Appended(FilesAfter(lines[..|lines| - 1]), lines[|lines| - 1])
  }

  function Written(lines: seq<string>): string {
    if lines == [] then "" else Written(lines[..|lines| - 1]) + lines[|lines| - 1]
  }

  ghost predicate IsSuffix(s: string, t: string) {
    |s| <= |t| && t[|t| - |s|..] == s
  }

  lemma SuffixOfLonger(s: string, t: string, more: string)
    requires IsSuffix(s, t)
    ensures IsSuffix(s + more, t + more)
  {
    assert (t + more)[|t| - |s|..] == t[|t| - |s|..] + more;
  }

  lemma SuffixOfSuffix(front: string, s: string, t: string)
    requires IsSuffix(front + s, t)
    ensures IsSuffix(s, t)
  {
    assert t[|t| - |s|..] == t[|t| - |front + s|..][|front|..];
  }

  /** Of the numbered files just 1 to k exist, each of at least 2 MiB. */
  ghost predicate Filled(files: Directory, top: nat, k: nat)
    requires top <= LOG_FILE_MAX_FILES
  {
    forall i: nat | 1 <= i <= top :: if i <= k then |Content(files, i)| >= LOG_FILE_MAX_BYTES else files[i].None?
  }

  /** They hold the end of all that was written, and all of it while no file has fallen off. */
  ghost predicate Layout(files: Directory, top: nat, k: nat, written: string) {
    && k <= top == LOG_FILE_MAX_FILES
    && Filled(files, top, k) && |Content(files, 0)| < LOG_FILE_MAX_BYTES
    && IsSuffix(Contents(files, top), written)
    && (k < top ==> Contents(files, top) == written)
  }

  lemma {:induction false} ContentsGrow(files: Directory, line: string, i: nat)
    requires i <= LOG_FILE_MAX_FILES
    ensures Contents(Longer(files, line), i) == Contents(files, i) + line
  {
    if i > 0 {
      ContentsGrow(files, line, i - 1);
      assert Content(files, i) + (Contents(files, i - 1) + line) == Content(files, i) + Contents(files, i - 1) + line;
    }
  }

  /** Rotation only renames: what the shifted files hold is what the lower ones held. */
  lemma {:induction false} ContentsShift(files: Directory, i: nat)
    requires i < LOG_FILE_MAX_FILES
    ensures Contents(Rotated(files), i + 1) == Contents(files, i)
  {
    assert Content(Rotated(files), i + 1) == Content(files, i);
    if i > 0 {
      ContentsShift(files, i - 1);
    } else {
      assert Contents(Rotated(files), 0) == "";
    }
  }

  lemma {:induction false} ContentsLong(files: Directory, i: nat)
    requires i <= LOG_FILE_MAX_FILES
    requires forall j: nat | 1 <= j <= i :: |Content(files, j)| >= LOG_FILE_MAX_BYTES
    ensures |Contents(files, i)| >= i * LOG_FILE_MAX_BYTES
  {
    if i > 0 {
      ContentsLong(files, i - 1);
    }
  }

  lemma GrownIsSuffix(files: Directory, top: nat, written: string, line: string)
    requires top <= LOG_FILE_MAX_FILES && IsSuffix(Contents(files, top), written)
    ensures IsSuffix(Contents(Longer(files, line), top), written + line)
    ensures Contents(files, top) == written ==> Contents(Longer(files, line), top) == written + line
  {
    ContentsGrow(files, line, top);
    SuffixOfLonger(Contents(files, top), written, line);
  }

  lemma ShiftedIsSuffix(files: Directory, top: nat, written: string)
    requires 0 < top <= LOG_FILE_MAX_FILES && IsSuffix(Contents(files, top), written)
    ensures IsSuffix(Contents(Rotated(files), top), written)
    ensures Content(files, top) == "" && Contents(files, top) == written ==> Contents(Rotated(files), top) == written
  {
    ContentsShift(files, top - 1);
    assert Contents(files, top) == Content(files, top) + Contents(files, top - 1);
    SuffixOfSuffix(Content(files, top), Contents(files, top - 1), written);
  }

  lemma GrowKeepsLayout(files: Directory, top: nat, k: nat, written: string, line: string)
    requires Layout(files, top, k, written) && |Content(files, 0) + line| < LOG_FILE_MAX_BYTES
    ensures Layout(Longer(files, line), top, k, written + line)
  {
    GrownIsSuffix(files, top, written, line);
  }

  lemma RotateFills(files: Directory, top: nat, k: nat)
    requires k <= top <= LOG_FILE_MAX_FILES && Filled(files, top, k) && |Content(files, 0)| >= LOG_FILE_MAX_BYTES
    ensures Filled(Rotated(files), top, if k < top then k + 1 else k)
  {
    var rotated, filled := Rotated(files), if k < top then k + 1 else k;
    forall i: nat | 1 <= i <= top
      ensures if i <= filled then |Content(rotated, i)| >= LOG_FILE_MAX_BYTES else rotated[i].None?
    {
      assert rotated[i] == files[i - 1];
    }
  }

  lemma RotateKeepsLayout(files: Directory, top: nat, k: nat, written: string, line: string)
    requires Layout(files, top, k, written) && |Content(files, 0) + line| >= LOG_FILE_MAX_BYTES
    ensures Layout(Rotated(Longer(files, line)), top, if k < top then k + 1 else k, written + line)
  {
    var longer := Longer(files, line);
    GrownIsSuffix(files, top, written, line);
    ShiftedIsSuffix(longer, top, written + line);
    RotateFills(longer, top, k);
    assert k < top ==> Content(longer, top) == "";
  }

  lemma AppendKeepsLayout(files: Directory, top: nat, k: nat, written: string, line: string) returns (k': nat)
    requires Layout(files, top, k, written)
    ensures Layout(Appended(files, line), top, k', written + line)
  {
    if |Content(files, 0) + line| < LOG_FILE_MAX_BYTES {
      GrowKeepsLayout(files, top, k, written, line);
      k' := k;
    } else {
      RotateKeepsLayout(files, top, k, written, line);
      k' := if k < top then k + 1 else k;
    }
  }

  lemma {:induction false} NothingWritten(i: nat)
    requires i <= LOG_FILE_MAX_FILES
    ensures Contents(NoFiles, i) == ""
  {
    if i > 0 {
      NothingWritten(i - 1);
    }
  }

  lemma {:induction false} EveryDirectoryLaidOut(lines: seq<string>, top: nat) returns (k: nat)
    requires top == LOG_FILE_MAX_FILES
    ensures Layout(FilesAfter(lines), top, k, Written(lines))
  {
    if lines == [] {
      k := 0;
      NothingWritten(top);
    } else {
      var init := lines[..|lines| - 1];
      k := EveryDirectoryLaidOut(init, top);
      k := AppendKeepsLayout(FilesAfter(init), top, k, Written(init), lines[|lines| - 1]);
    }
  }

  /**
   After any appends the snapshot is a contiguous suffix of all that was written, at least
   min(total, 8 MiB) long; the base file is below 2 MiB and every rotated file at or above it.
   */
  lemma RotationKeepsHistory(lines: seq<string>)
    ensures var files, written := FilesAfter(lines), Written(lines);
      && IsSuffix(Snapshot(files), written)
      && (|Snapshot(files)| >= 8_388_608 || Snapshot(files) == written)
      && |Content(files, 0)| < 2_097_152
      && (forall i: nat | 1 <= i <= 5 && files[i].Some? :: |files[i].value| >= 2_097_152)
  {
    var k := EveryDirectoryLaidOut(lines, LOG_FILE_MAX_FILES);
    LayoutKeepsHistory(FilesAfter(lines), LOG_FILE_MAX_FILES, k, Written(lines));
  }

  /** The snapshot reads the four newest rotated files, oldest first, and then the base file. */
  lemma SnapshotReadsOldestFirst(files: Directory)
    ensures Snapshot(files)
      == Content(files, 4) + (Content(files, 3) + (Content(files, 2) + (Content(files, 1) + Content(files, 0))))
  {
    assert Contents(files, 1) == Content(files, 1) + Contents(files, 0);
    assert Contents(files, 2) == Content(files, 2) + Contents(files, 1);
    assert Contents(files, 3) == Content(files, 3) + Contents(files, 2);
    assert Contents(files, 4) == Content(files, 4) + Contents(files, 3);
  }

  lemma LayoutKeepsHistory(files: Directory, top: nat, k: nat, written: string)
    requires Layout(files, top, k, written)
    ensures IsSuffix(Contents(files, top - 1), written)
    ensures |Contents(files, top - 1)| >= (top - 1) * LOG_FILE_MAX_BYTES || Contents(files, top - 1) == written
  {
    assert Contents(files, top) == Content(files, top) + Contents(files, top - 1);
    SuffixOfSuffix(Content(files, top), Contents(files, top - 1), written);
    if k < top {
      assert files[top].None?;
    } else {
      ContentsLong(files, top - 1);
    }
  }

  function TailAfter(lines: seq<string>): seq<string> {
    if lines == [] then []
    else LastLines(TailAfter(lines[..|lines| - 1]) + NonEmpty(SplitLines(lines[|lines| - 1])))
  }

  function Segments(lines: seq<string>): seq<string> {
    if lines == [] then [] else Segments(lines[..|lines| - 1]) + NonEmpty(SplitLines(lines[|lines| - 1]))
  }

  /** Only empty pieces are left out, and the others stay in order. */
  lemma {:induction false} NonEmptyFilters(a: seq<string>, b: seq<string>)
    ensures NonEmpty(a + b) == NonEmpty(a) + NonEmpty(b)
    ensures "" !in NonEmpty(a) && ("" !in a ==> NonEmpty(a) == a) && NonEmpty([""]) == []
  {
    if b == [] {
      assert a + b == a;
      if a != [] {
        NonEmptyFilters(a[..|a| - 1], []);
        assert a == a[..|a| - 1] + [a[|a| - 1]];
      }
    } else {
      assert (a + b)[..|a + b| - 1] == a + b[..|b| - 1];
      NonEmptyFilters(a, b[..|b| - 1]);
    }
  }

  /** The tail is the last hundred non-empty lines ever logged, or all of them, in order. */
  lemma TailKeepsLastLines(lines: seq<string>)
    ensures var tail, logged := TailAfter(lines), Segments(lines);
      && |tail| == (if |logged| < 100 then |logged| else 100)
      && tail == logged[|logged| - |tail|..]
  {
    TailIsLastLines(lines);
  }

  lemma {:induction false} TailIsLastLines(lines: seq<string>)
    ensures TailAfter(lines) == LastLines(Segments(lines))
  {
    if lines != [] {
      var init := lines[..|lines| - 1];
      TailIsLastLines(init);
      LastLinesAppend(Segments(init), NonEmpty(SplitLines(lines[|lines| - 1])));
    }
  }
}
