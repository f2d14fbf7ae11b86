/**
 * The WebKit patch: which shells' rc files get the export line, and the
 * append-if-absent edit made to each of them.
 */
module ShellPatches {
  import opened Wrappers
  import opened Text
  import opened Progress

  /** The variable the patch sets, which the uninstaller looks for. */
  const WebkitVariable := "WEBKIT_DISABLE_DMABUF_RENDERER"
  const EnvLine := "export " + WebkitVariable + "=1"
  const MarkerComment := "# Added by Player2 installer"

  /** What is appended to an rc file lacking the export line. */
  const PatchBlock := "\n" + MarkerComment + "\n" + EnvLine + "\n"

  /** The candidate shells, in the order the installer tries them. */
  datatype Shell = Bash | Zsh

  const Candidates: seq<Shell> := [Bash, Zsh]

  function ShellName(sh: Shell): string
  {
    match sh
    case Bash => "bash"
    case Zsh => "zsh"
  }

  function RcPath(home: string, sh: Shell): string
  {
    match sh
    case Bash => PathJoin(home, ".bashrc")
    case Zsh => PathJoin(home, ".zshrc")
  }

  /** A shell is used when it is on the PATH or its rc file exists. */
  predicate Qualifies(onPath: set<string>, files: map<string, string>, home: string, sh: Shell)
  {
    ShellName(sh) in onPath || RcPath(home, sh) in files
  }

  /** The shells whose rc files are patched; bash alone when none qualifies. */
  function SelectShells(onPath: set<string>, files: map<string, string>, home: string): (r: seq<Shell>)
    ensures r != []
    ensures forall sh :: sh in r <==>
      (Qualifies(onPath, files, home, sh) || (sh == Bash && !Qualifies(onPath, files, home, Zsh)))
    ensures !Qualifies(onPath, files, home, Bash) && !Qualifies(onPath, files, home, Zsh) ==> r == [Bash]
    ensures |r| == 2 ==> r == [Bash, Zsh]
    ensures |r| <= 2 && (|r| == 2 ==> r[0] != r[1])
  {
    var found := (if Qualifies(onPath, files, home, Bash) then [Bash] else []) +
                 (if Qualifies(onPath, files, home, Zsh) then [Zsh] else []);
    if found == [] then [Bash] else found
  }

  /** The rc text after the patch: the block is appended unless the export
      line already occurs somewhere in the text. */
  function PatchContent(content: string): (r: string)
    ensures content <= r
    ensures Contains(r, EnvLine)
    ensures r == content <==> Contains(content, EnvLine)
  {
    if Contains(content, EnvLine) then content
    else
      var r := content + PatchBlock;
      assert OccursAt(r, EnvLine, |content| + 1 + |MarkerComment| + 1);
      r
  }

  /** Patching a second time changes nothing. */
  lemma PatchIdempotent(content: string)
    ensures PatchContent(PatchContent(content)) == PatchContent(content)
  {
  }

  /** The log line for one shell. */
  function PatchMessage(sh: Shell, content: string): LogEntry
  {
    if Contains(content, EnvLine) then LogEntry("Patch already exists in " + ShellName(sh), Highlight)
    else LogEntry("Patch applied to " + ShellName(sh), Success)
  }

  /** The text `open(rc_path)` reads, after an absent file has been created empty. */
  function Current(files: map<string, string>, path: string): string
  {
    if path in files then files[path] else ""
  }

  /** The loop writes `path` only when its text lacks the export line: an
      absent file is created and appended to, one lacking the line is
      appended to, and one already holding it is only read. A fault on the
      path raises exactly when it is written. */
  predicate WriteFails(files: map<string, string>, path: string, faults: map<string, string>)
  {
    path in faults && !Contains(Current(files, path), EnvLine)
  }

  datatype PatchOutcome = PatchOutcome(files: map<string, string>, log: seq<LogEntry>, raised: Option<string>)

  /** The loop over the selected shells; writing a path listed in `faults`
      raises with the given text and ends the loop. */
  function PatchShells(home: string, shells: seq<Shell>, files: map<string, string>,
                       faults: map<string, string>): (o: PatchOutcome)
    ensures |o.log| <= |shells| && (o.raised.None? ==> |o.log| == |shells|)
    ensures o.raised.Some? ==> exists sh | sh in shells ::
      WriteFails(files, RcPath(home, sh), faults) && o.raised == Some(faults[RcPath(home, sh)])
    decreases |shells|
  {
    if shells == [] then PatchOutcome(files, [], None)
    else
      var path := RcPath(home, shells[0]);
      if WriteFails(files, path, faults) then PatchOutcome(files, [], Some(faults[path]))
      else
        var content := Current(files, path);
        var rest := PatchShells(home, shells[1..], files[path := PatchContent(content)], faults);
        PatchOutcome(rest.files, [PatchMessage(shells[0], content)] + rest.log, rest.raised)
  }

  /** The loop logs one line per shell it gets through, raises exactly when
      one of the selected rc files lacks the export line and cannot be
      written, only ever appends to a file, and creates no file but the
      selected rc files. */
  lemma {:induction false} PatchShellsFacts(home: string, shells: seq<Shell>, files: map<string, string>,
                                            faults: map<string, string>)
    ensures var o := PatchShells(home, shells, files, faults);
      && |o.log| <= |shells|
      && (o.raised.None? ==> |o.log| == |shells|)
      && (o.raised.None? <==> forall sh | sh in shells :: !WriteFails(files, RcPath(home, sh), faults))
      && files.Keys <= o.files.Keys
      && (forall p | p in files :: files[p] <= o.files[p])
      && (forall p | p in o.files && p !in files :: exists sh | sh in shells :: p == RcPath(home, sh))
    decreases |shells|
  {
    if shells != [] {
      var path := RcPath(home, shells[0]);
      if !WriteFails(files, path, faults) {
        var content := Current(files, path);
        var files' := files[path := PatchContent(content)];
        PatchShellsFacts(home, shells[1..], files', faults);
        WriteFailsKept(files, path, faults);
        assert forall sh | sh in shells[1..] :: sh in shells;
        assert forall p | p in files :: files[p] <= files'[p];
      }
    }
  }

  /** Patching a path that does not fail leaves every path failing or not as
      before: a faulted path it patches already held the export line. */
  lemma WriteFailsKept(files: map<string, string>, path: string, faults: map<string, string>)
    requires !WriteFails(files, path, faults)
    ensures forall p :: WriteFails(files[path := PatchContent(Current(files, path))], p, faults) <==> WriteFails(files, p, faults)
  {
  }

  /** One turn of the loop: the first shell either raises or is patched
      before the rest are. */
  lemma PatchShellsStep(home: string, shells: seq<Shell>, files: map<string, string>, faults: map<string, string>)
    requires shells != []
    ensures var path := RcPath(home, shells[0]);
      var o := PatchShells(home, shells, files, faults);
      && (WriteFails(files, path, faults) ==> o == PatchOutcome(files, [], Some(faults[path])))
      && (!WriteFails(files, path, faults) ==>
            var rest := PatchShells(home, shells[1..], files[path := PatchContent(Current(files, path))], faults);
            o == PatchOutcome(rest.files, [PatchMessage(shells[0], Current(files, path))] + rest.log, rest.raised))
  {
  }

  /** The loop over `a + b` is the loop over `a` and then, unless that raised,
      the loop over `b` from the files `a` left: a raise at one shell keeps
      the patches and log lines of the shells before it, and ends the loop. */
  lemma {:induction false} PatchShellsSplit(home: string, a: seq<Shell>, b: seq<Shell>,
                                            files: map<string, string>, faults: map<string, string>)
    ensures var o1 := PatchShells(home, a, files, faults);
      var o := PatchShells(home, a + b, files, faults);
      && (o1.raised.Some? ==> o == o1)
      && (o1.raised.None? ==>
            var o2 := PatchShells(home, b, o1.files, faults);
            o == PatchOutcome(o2.files, o1.log + o2.log, o2.raised))
    decreases |a|
  {
    if a == [] {
      assert a + b == b;
      assert [] + PatchShells(home, b, files, faults).log == PatchShells(home, b, files, faults).log;
    } else {
      var path := RcPath(home, a[0]);
      assert (a + b)[0] == a[0] && (a + b)[1..] == a[1..] + b;
      if !WriteFails(files, path, faults) {
        var content := Current(files, path);
        var files' := files[path := PatchContent(content)];
        PatchShellsSplit(home, a[1..], b, files', faults);
        var rest1 := PatchShells(home, a[1..], files', faults);
        if rest1.raised.None? {
          var o2 := PatchShells(home, b, rest1.files, faults);
          AppendAssoc([PatchMessage(a[0], content)], rest1.log, o2.log);
        }
      }
    }
  }

  /** The loop's progress after its first `i` shells, as a loop would keep
      it: the files so far, the lines logged so far, and what the rest of the
      shells will do. */
  function Resume(home: string, shells: seq<Shell>, i: nat, files: map<string, string>,
                  done: seq<LogEntry>, faults: map<string, string>): PatchOutcome
    requires i <= |shells|
  {
    var rest := PatchShells(home, shells[i..], files, faults);
    PatchOutcome(rest.files, done + rest.log, rest.raised)
  }

  /** Patching shell `i` moves the loop on without changing where it ends. */
  lemma ResumeAdvance(home: string, shells: seq<Shell>, i: nat, files: map<string, string>,
                      done: seq<LogEntry>, faults: map<string, string>)
    requires i < |shells| && !WriteFails(files, RcPath(home, shells[i]), faults)
    ensures var path := RcPath(home, shells[i]);
      var content := Current(files, path);
      Resume(home, shells, i, files, done, faults) ==
        Resume(home, shells, i + 1, files[path := PatchContent(content)], done + [PatchMessage(shells[i], content)], faults)
  {
    var path := RcPath(home, shells[i]);
    var content := Current(files, path);
    SuffixStep(shells, i);
    PatchShellsStep(home, shells[i..], files, faults);
    var rest := PatchShells(home, shells[i + 1..], files[path := PatchContent(content)], faults);
    AppendAssoc(done, [PatchMessage(shells[i], content)], rest.log);
  }

  /** A shell whose rc file must be written and cannot be ends the loop there. */
  lemma ResumeFault(home: string, shells: seq<Shell>, i: nat, files: map<string, string>,
                    done: seq<LogEntry>, faults: map<string, string>)
    requires i < |shells| && WriteFails(files, RcPath(home, shells[i]), faults)
    ensures Resume(home, shells, i, files, done, faults) == PatchOutcome(files, done, Some(faults[RcPath(home, shells[i])]))
  {
    SuffixStep(shells, i);
    PatchShellsStep(home, shells[i..], files, faults);
  }

  /** The loop starts from the whole list and ends with nothing left. */
  lemma ResumeBounds(home: string, shells: seq<Shell>, files: map<string, string>,
                     done: seq<LogEntry>, faults: map<string, string>)
    ensures Resume(home, shells, 0, files, [], faults) == PatchShells(home, shells, files, faults)
    ensures Resume(home, shells, |shells|, files, done, faults) == PatchOutcome(files, done, None)
  {
    assert shells[0..] == shells;
    assert shells[|shells|..] == [];
    assert [] + PatchShells(home, shells, files, faults).log == PatchShells(home, shells, files, faults).log;
    assert done + [] == done;
  }

  /** Once the loop has run through, every selected shell's rc file holds
      the export line. */
  lemma {:induction false} PatchedFilesHoldEnvLine(home: string, shells: seq<Shell>,
                                                   files: map<string, string>, faults: map<string, string>)
    ensures var o := PatchShells(home, shells, files, faults);
      o.raised.None? ==> forall sh | sh in shells ::
        (RcPath(home, sh) in o.files && Contains(o.files[RcPath(home, sh)], EnvLine))
    decreases |shells|
  {
    var o := PatchShells(home, shells, files, faults);
    if shells != [] && o.raised.None? {
      var path := RcPath(home, shells[0]);
      var files' := files[path := PatchContent(Current(files, path))];
      var rest := PatchShells(home, shells[1..], files', faults);
      assert o.files == rest.files;
      PatchShellsFacts(home, shells[1..], files', faults);
      PatchedFilesHoldEnvLine(home, shells[1..], files', faults);
      ContainsExtended(files'[path], rest.files[path], EnvLine);
    }
  }

  /** Files other than the selected shells' rc files are left as they were. */
  lemma {:induction false} PatchTouchesOnlyRcFiles(home: string, shells: seq<Shell>,
                                                   files: map<string, string>, faults: map<string, string>, p: string)
    requires forall sh | sh in shells :: p != RcPath(home, sh)
    ensures var o := PatchShells(home, shells, files, faults);
      (p in o.files <==> p in files) && (p in files ==> o.files[p] == files[p])
    decreases |shells|
  {
    if shells != [] && !WriteFails(files, RcPath(home, shells[0]), faults) {
      var path := RcPath(home, shells[0]);
      PatchTouchesOnlyRcFiles(home, shells[1..], files[path := PatchContent(Current(files, path))], faults, p);
    }
  }

  /** Running the loop again over its own result leaves every file as it is,
      and logs "Patch already exists" for each shell. */
  lemma {:induction false} PatchShellsIdempotent(home: string, shells: seq<Shell>,
                                                 files: map<string, string>, faults: map<string, string>)
    requires PatchShells(home, shells, files, faults).raised.None?
    ensures var o := PatchShells(home, shells, files, faults);
      var again := PatchShells(home, shells, o.files, faults);
      again.files == o.files && again.raised.None? && |again.log| == |shells| &&
      forall i | 0 <= i < |shells| :: again.log[i] == LogEntry("Patch already exists in " + ShellName(shells[i]), Highlight)
  {
    var o := PatchShells(home, shells, files, faults);
    PatchShellsFacts(home, shells, files, faults);
    PatchedFilesHoldEnvLine(home, shells, files, faults);
    AlreadyPatchedUnchanged(home, shells, o.files, faults);
  }

  /** Patching a file that already holds the export line rewrites nothing. */
  lemma PatchedFileUnchanged(files: map<string, string>, path: string)
    requires path in files && Contains(files[path], EnvLine)
    ensures files[path := PatchContent(Current(files, path))] == files
  {
  }

  /** Each message of a loop over already patched files. */
  lemma AlreadyPatchedMessages(shells: seq<Shell>, log: seq<LogEntry>, rest: seq<LogEntry>)
    requires shells != [] && |rest| == |shells| - 1 && log == [LogEntry("Patch already exists in " + ShellName(shells[0]), Highlight)] + rest
    requires forall i | 0 <= i < |shells| - 1 :: rest[i] == LogEntry("Patch already exists in " + ShellName(shells[1..][i]), Highlight)
    ensures |log| == |shells|
    ensures forall i | 0 <= i < |shells| :: log[i] == LogEntry("Patch already exists in " + ShellName(shells[i]), Highlight)
  {
    forall i | 0 <= i < |shells|
      ensures log[i] == LogEntry("Patch already exists in " + ShellName(shells[i]), Highlight)
    {
      if i > 0 {
        assert log[i] == rest[i - 1] && shells[1..][i - 1] == shells[i];
      }
    }
  }

  /** Over files that already hold the export line, the loop changes nothing
      and raises nothing, whatever the faults. */
  lemma {:induction false} AlreadyPatchedUnchanged(home: string, shells: seq<Shell>,
                                                   files: map<string, string>, faults: map<string, string>)
    requires forall sh | sh in shells :: RcPath(home, sh) in files && Contains(files[RcPath(home, sh)], EnvLine)
    ensures var o := PatchShells(home, shells, files, faults);
      o.files == files && o.raised.None? && |o.log| == |shells| &&
      forall i | 0 <= i < |shells| :: o.log[i] == LogEntry("Patch already exists in " + ShellName(shells[i]), Highlight)
    decreases |shells|
  {
    if shells != [] {
      var path := RcPath(home, shells[0]);
      assert shells[0] in shells;
      PatchedFileUnchanged(files, path);
      assert forall sh | sh in shells[1..] :: sh in shells;
      AlreadyPatchedUnchanged(home, shells[1..], files, faults);
      var rest := PatchShells(home, shells[1..], files, faults);
      AlreadyPatchedMessages(shells, PatchShells(home, shells, files, faults).log, rest.log);
    }
  }
}
