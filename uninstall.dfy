/**
 * `remove_webkit_patches` of the generated uninstaller: every line of the
 * bash and zsh rc files that mentions the WebKit variable is dropped.
 */
module Uninstall {
  import opened Wrappers
  import opened Text
  import opened ShellPatches

  predicate Kept(line: string)
  {
    !Contains(line, WebkitVariable)
  }

  /** The lines written back, in the order they were read. */
  function RemovePatchLines(lines: seq<string>): (r: seq<string>)
    ensures |r| <= |lines|
    ensures forall l | l in r :: l in lines && Kept(l)
    ensures forall l | l in lines && Kept(l) :: l in r
  {
    if lines == [] then []
    else if Kept(lines[0]) then [lines[0]] + RemovePatchLines(lines[1..])
    else RemovePatchLines(lines[1..])
  }

  /** Filtering a concatenation filters each part: the kept lines stay in
      their original order. */
  lemma {:induction false} RemovePatchLinesAppend(a: seq<string>, b: seq<string>)
    ensures RemovePatchLines(a + b) == RemovePatchLines(a) + RemovePatchLines(b)
  {
    if a == [] {
      assert a + b == b;
    } else {
      assert (a + b)[0] == a[0];
      assert (a + b)[1..] == a[1..] + b;
      RemovePatchLinesAppend(a[1..], b);
    }
  }

  /** Removing twice is removing once. */
  lemma {:induction false} RemovePatchLinesIdempotent(lines: seq<string>)
    ensures RemovePatchLines(RemovePatchLines(lines)) == RemovePatchLines(lines)
  {
    KeptLinesUnchanged(RemovePatchLines(lines));
  }

  /** Lines none of which mention the variable pass through unchanged. */
  lemma {:induction false} KeptLinesUnchanged(lines: seq<string>)
    requires forall l | l in lines :: Kept(l)
    ensures RemovePatchLines(lines) == lines
  {
    if lines != [] {
      assert forall l | l in lines[1..] :: l in lines;
      KeptLinesUnchanged(lines[1..]);
    }
  }

  /** The marker comment does not mention the variable, so it survives. */
  lemma MarkerSurvives(lines: seq<string>)
    requires MarkerComment + "\n" in lines
    ensures MarkerComment + "\n" in RemovePatchLines(lines)
  {
    MissingChar(MarkerComment + "\n", WebkitVariable, 0);
  }

  /** Dropping lines keeps the shape `readlines` gives. */
  lemma {:induction false} RemovePatchLinesWellFormed(lines: seq<string>)
    requires WellFormedLines(lines)
    ensures WellFormedLines(RemovePatchLines(lines))
  {
    if lines != [] {
      assert forall i | 0 <= i < |lines[1..]| :: lines[1..][i] == lines[i + 1];
      RemovePatchLinesWellFormed(lines[1..]);
      var rest := RemovePatchLines(lines[1..]);
      if Kept(lines[0]) {
        var r := [lines[0]] + rest;
        assert |lines| == 1 ==> rest == [];
        assert IsLine(lines[0], rest == []);
        assert forall i | 1 <= i < |r| :: r[i] == rest[i - 1];
      }
    }
  }

  /** The rewritten text of one rc file: reading it back gives exactly the
      kept lines. */
  function RemovePatchesFromText(content: string): (r: string)
    ensures Lines(r) == RemovePatchLines(Lines(content))
    ensures forall l | l in Lines(r) :: Kept(l)
  {
    var kept := RemovePatchLines(Lines(content));
    LinesWellFormed(content);
    RemovePatchLinesWellFormed(Lines(content));
    ReadBack(kept);
    Concat(kept)
  }

  /** Rewriting a second time changes nothing. */
  lemma RemovePatchesFromTextIdempotent(content: string)
    ensures RemovePatchesFromText(RemovePatchesFromText(content)) == RemovePatchesFromText(content)
  {
    var r := RemovePatchesFromText(content);
    KeptLinesUnchanged(Lines(r));
    ConcatLines(r);
  }

  /** The export line mentions the variable, the marker comment does not. */
  lemma PatchBlockLines()
    ensures RemovePatchLines([MarkerComment + "\n", EnvLine + "\n"]) == [MarkerComment + "\n"]
  {
    var env := EnvLine + "\n";
    MissingChar(MarkerComment + "\n", WebkitVariable, 0);
    assert env[7..7 + |WebkitVariable|] == WebkitVariable;
    assert OccursAt(env, WebkitVariable, 7);
  }

  /** Text that never mentions the variable does not contain the export line. */
  lemma NoVariableNoEnvLine(content: string)
    requires !Contains(content, WebkitVariable)
    ensures !Contains(content, EnvLine)
  {
    if Contains(content, EnvLine) {
      var i :| 0 <= i <= |content| && OccursAt(content, EnvLine, i);
      var n := |WebkitVariable|;
      assert content[i..i + |EnvLine|][7..7 + n] == content[i + 7..i + 7 + n];
      assert EnvLine[7..7 + n] == WebkitVariable;
      assert OccursAt(content, WebkitVariable, i + 7);
    }
  }

  lemma BlockTextsHaveNoBreak()
    ensures '\n' !in MarkerComment && '\n' !in EnvLine
  {
  }

  /** The patched file reads as the old text, closed by a '\n', then the two
      lines of the block. */
  lemma PatchedLines(content: string)
    requires !Contains(content, EnvLine)
    ensures Lines(PatchContent(content)) == Lines(content + "\n") + [MarkerComment + "\n", EnvLine + "\n"]
  {
    BlockTextsHaveNoBreak();
    AppendedLines(content, MarkerComment, EnvLine);
  }

  /** No line of a text that never mentions the variable is dropped. */
  lemma CleanTextKept(content: string)
    requires !Contains(content, WebkitVariable)
    ensures RemovePatchLines(Lines(content + "\n")) == Lines(content + "\n")
  {
    var x := content + "\n";
    var xs := Lines(x);
    ContainsNewlineAppended(content, WebkitVariable);
    forall l | l in xs ensures Kept(l) {
      var j :| 0 <= j < |xs| && xs[j] == l;
      if Contains(l, WebkitVariable) {
        LineOccursInText(x, WebkitVariable, j);
      }
    }
    KeptLinesUnchanged(xs);
  }

  /** Uninstalling after an install that added the patch block to a file that
      never mentioned the variable gives the old text back with a blank line
      and the marker comment still appended: only the export line goes. */
  lemma UninstallAfterPatch(content: string)
    requires !Contains(content, WebkitVariable)
    ensures RemovePatchesFromText(PatchContent(content)) == content + "\n" + MarkerComment + "\n"
  {
    var x := content + "\n";
    var xs := Lines(x);
    var marker := MarkerComment + "\n";
    NoVariableNoEnvLine(content);
    PatchedLines(content);
    CleanTextKept(content);
    PatchBlockLines();
    RemovePatchLinesAppend(xs, [marker, EnvLine + "\n"]);
    assert RemovePatchLines(Lines(PatchContent(content))) == xs + [marker];
    ConcatAppend(xs, [marker]);
    ConcatLines(x);
    assert Concat([marker]) == marker;
  }

  /** The two rc files are different files. */
  lemma RcPathsDiffer(home: string)
    ensures RcPath(home, Bash) != RcPath(home, Zsh)
  {
    var b := RcPath(home, Bash);
    var z := RcPath(home, Zsh);
    assert b[|b| - 6..] == "bashrc";
    assert z[|z| - 6..] == ".zshrc";
  }

  /** `remove_webkit_patches` over the files of the user whose home is `home`;
      without a sudo user the uninstaller leaves every file alone. */
  function RemoveWebkitPatches(sudoHome: Option<string>, files: map<string, string>): (r: map<string, string>)
    ensures r.Keys == files.Keys
    ensures sudoHome.None? ==> r == files
    ensures forall p | p in files && (sudoHome.None? || (p != RcPath(sudoHome.value, Bash) && p != RcPath(sudoHome.value, Zsh))) ::
      r[p] == files[p]
    ensures sudoHome.Some? ==> forall sh | RcPath(sudoHome.value, sh) in files ::
      r[RcPath(sudoHome.value, sh)] == RemovePatchesFromText(files[RcPath(sudoHome.value, sh)])
    ensures sudoHome.Some? ==> forall sh, l | RcPath(sudoHome.value, sh) in r && l in Lines(r[RcPath(sudoHome.value, sh)]) :: Kept(l)
  {
    match sudoHome
    case None => files
    case Some(home) =>
      var bash := RcPath(home, Bash);
      var zsh := RcPath(home, Zsh);
      RcPathsDiffer(home);
      var once := if bash in files then files[bash := RemovePatchesFromText(files[bash])] else files;
      if zsh in once then once[zsh := RemovePatchesFromText(once[zsh])] else once
  }
}
