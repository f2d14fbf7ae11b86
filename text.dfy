/**
 * String helpers with the meaning Python gives them: substring tests
 * (`t in s`), `os.path.join`, `' '.join`, slicing with possibly negative
 * bounds, and `readlines` splitting (after universal-newline translation,
 * so every line break is a single '\n').
 */
module Text {

  /** `t` occurs in `s` starting at index `i`. */
  predicate OccursAt(s: string, t: string, i: int)
  {
    0 <= i && i + |t| <= |s| && s[i..i + |t|] == t
  }

  /** Python's `t in s` for strings. */
  predicate Contains(s: string, t: string)
  {
    exists i | 0 <= i <= |s| :: OccursAt(s, t, i)
  }

  /** A string that lacks one of the characters of `t` cannot contain `t`. */
  lemma MissingChar(s: string, t: string, j: nat)
    requires j < |t| && t[j] !in s
    ensures !Contains(s, t)
  {
    forall i | 0 <= i <= |s| ensures !OccursAt(s, t, i) {
    }
  }

  /** An occurrence inside `b` is an occurrence inside `a + b + c`. */
  lemma ContainsInfix(a: string, b: string, c: string, t: string)
    requires Contains(b, t)
    ensures Contains(a + b + c, t)
  {
    var i :| 0 <= i <= |b| && OccursAt(b, t, i);
    var s := a + b + c;
    assert s[|a| + i..|a| + i + |t|] == b[i..i + |t|];
    assert OccursAt(s, t, |a| + i);
  }

  /** What occurs in a prefix occurs in the whole. */
  lemma ContainsExtended(a: string, b: string, t: string)
    requires a <= b && Contains(a, t)
    ensures Contains(b, t)
  {
    ContainsInfix([], a, b[|a|..], t);
    assert [] + a + b[|a|..] == b;
  }

  /** Appending a '\n' never creates an occurrence of a string without one. */
  lemma ContainsNewlineAppended(s: string, t: string)
    requires '\n' !in t
    ensures Contains(s + "\n", t) ==> Contains(s, t)
  {
    var s' := s + "\n";
    if Contains(s', t) {
      var i :| 0 <= i <= |s'| && OccursAt(s', t, i);
      if |t| == 0 {
        assert OccursAt(s, t, 0);
      } else {
        assert s'[i + |t| - 1] == t[|t| - 1];
        assert i + |t| <= |s|;
        assert s[i..i + |t|] == s'[i..i + |t|];
        assert OccursAt(s, t, i);
      }
    }
  }

  /** `os.path.join(dir, name)` for a relative `name`. */
  function PathJoin(dir: string, name: string): (r: string)
    ensures dir <= r
    ensures |r| >= |name| && r[|r| - |name|..] == name
    ensures dir != [] && dir[|dir| - 1] != '/' ==> r == dir + "/" + name
  {
    if dir == [] || dir[|dir| - 1] == '/' then dir + name else dir + "/" + name
  }

  /** Python's `' '.join(words)`. */
  function JoinWords(words: seq<string>): (r: string)
    ensures |words| > 0 ==> words[0] <= r
  {
    if words == [] then ""
    else if |words| == 1 then words[0]
    else words[0] + " " + JoinWords(words[1..])
  }

  /** The start index Python uses for a slice bound `k` over a sequence of length `n`. */
  function SliceIndex(n: nat, k: int): (i: nat)
    ensures i <= n
    ensures k >= 0 ==> i == if k <= n then k else n
    ensures k < 0 ==> i == if -k <= n then n + k else 0
  {
    if k >= 0 then (if k <= n then k else n)
    else if -k <= n then n + k else 0
  }

  /** Python's `s[k:]`. */
  function TailFrom<T>(s: seq<T>, k: int): (r: seq<T>)
    ensures |r| <= |s| && r == s[|s| - |r|..]
    ensures k < 0 ==> |r| == if -k <= |s| then -k else |s|
    ensures k >= 0 ==> |r| == if k <= |s| then |s| - k else 0
  {
    s[SliceIndex(|s|, k)..]
  }

  /** Python's `s[:k]`. */
  function HeadTo<T>(s: seq<T>, k: int): (r: seq<T>)
    ensures |r| <= |s| && r == s[..|r|]
    ensures k >= 0 ==> |r| == if k <= |s| then k else |s|
    ensures k < 0 ==> |r| == if -k <= |s| then |s| + k else 0
  {
    s[..SliceIndex(|s|, k)]
  }

  lemma AppendAssoc<T>(a: seq<T>, b: seq<T>, c: seq<T>)
    ensures a + (b + c) == a + b + c
  {
  }

  /** The suffix from `i` starts with element `i`, and dropping that leaves the suffix from `i + 1`. */
  lemma SuffixStep<T>(s: seq<T>, i: nat)
    requires i < |s|
    ensures s[i..][0] == s[i] && s[i..][1..] == s[i + 1..]
  {
  }

  /** Length of the first line of `s`, its '\n' included. */
  function FirstLineLength(s: string): (k: nat)
    ensures k <= |s|
    ensures s != [] ==> 0 < k
    ensures forall i | 0 <= i < k - 1 :: s[i] != '\n'
    ensures k < |s| ==> s[k - 1] == '\n'
  {
    if s == [] then 0
    else if s[0] == '\n' then 1
    else 1 + FirstLineLength(s[1..])
  }

  /** Python's `readlines()`: every line keeps its '\n', the last may lack one. */
  function Lines(s: string): (ls: seq<string>)
    decreases |s|
  {
    if s == [] then []
    else
      var k := FirstLineLength(s);
      [s[..k]] + Lines(s[k..])
  }

  /** Writing the lines back one after the other (`f.write(line)` in a loop). */
  function Concat(ls: seq<string>): (s: string)
  {
    if ls == [] then "" else ls[0] + Concat(ls[1..])
  }

  lemma {:induction false} ConcatAppend(a: seq<string>, b: seq<string>)
    ensures Concat(a + b) == Concat(a) + Concat(b)
  {
    if a == [] {
      assert a + b == b;
    } else {
      assert (a + b)[0] == a[0];
      assert (a + b)[1..] == a[1..] + b;
      ConcatAppend(a[1..], b);
    }
  }

  /** Reading lines and writing them back reproduces the text. */
  lemma {:induction false} ConcatLines(s: string)
    ensures Concat(Lines(s)) == s
    decreases |s|
  {
    if s != [] {
      var k := FirstLineLength(s);
      ConcatLines(s[k..]);
    }
  }

  /** The first line of `x + y` is that of `x` when `x` ends with a line break. */
  lemma {:induction false} FirstLineOfAppend(x: string, y: string)
    requires x != [] && x[|x| - 1] == '\n'
    ensures FirstLineLength(x + y) == FirstLineLength(x)
    decreases |x|
  {
    if x[0] != '\n' {
      assert (x + y)[1..] == x[1..] + y;
      FirstLineOfAppend(x[1..], y);
    }
  }

  /** Cutting `x + y` inside `x`. */
  lemma SplitInPrefix<T>(x: seq<T>, y: seq<T>, k: nat)
    requires k <= |x|
    ensures (x + y)[..k] == x[..k] && (x + y)[k..] == x[k..] + y
  {
  }

  /** Text that ends on a line break splits into lines independently of what follows. */
  lemma {:induction false} LinesAppend(x: string, y: string)
    requires x == [] || x[|x| - 1] == '\n'
    ensures Lines(x + y) == Lines(x) + Lines(y)
    decreases |x|
  {
    if x == [] {
      assert x + y == y;
    } else {
      var k := FirstLineLength(x);
      FirstLineOfAppend(x, y);
      var rest := x[k..];
      assert rest == [] || rest[|rest| - 1] == x[|x| - 1];
      SplitInPrefix(x, y, k);
      LinesAppend(rest, y);
      AppendAssoc([x[..k]], Lines(rest), Lines(y));
    }
  }

  lemma {:induction false} FirstLineOfSingle(m: string)
    requires '\n' !in m
    ensures FirstLineLength(m + "\n") == |m| + 1
    decreases |m|
  {
    if m != [] {
      assert (m + "\n")[1..] == m[1..] + "\n";
      FirstLineOfSingle(m[1..]);
    }
  }

  /** A single line without an inner break is read back as one line. */
  lemma SingleLine(m: string)
    requires '\n' !in m
    ensures Lines(m + "\n") == [m + "\n"]
  {
    var s := m + "\n";
    FirstLineOfSingle(m);
    assert s[..|s|] == s && s[|s|..] == [];
  }

  /** Two lines without inner breaks, each closed by a '\n', read back as two lines. */
  lemma TwoLines(m: string, e: string)
    requires '\n' !in m && '\n' !in e
    ensures Lines(m + "\n" + (e + "\n")) == [m + "\n", e + "\n"]
  {
    LinesAppend(m + "\n", e + "\n");
    SingleLine(m);
    SingleLine(e);
  }

  /** Appending a '\n' and two such lines to a text adds those two lines
      after the lines of the text closed by the '\n'. */
  lemma AppendedLines(content: string, m: string, e: string)
    requires '\n' !in m && '\n' !in e
    ensures Lines(content + ("\n" + m + "\n" + e + "\n")) == Lines(content + "\n") + [m + "\n", e + "\n"]
  {
    var x := content + "\n";
    var block := m + "\n" + (e + "\n");
    assert content + ("\n" + m + "\n" + e + "\n") == x + block;
    LinesAppend(x, block);
    TwoLines(m, e);
  }

  /** Whatever occurs in one of the lines occurs in the text. */
  lemma {:induction false} LineOccursInText(s: string, t: string, j: nat)
    requires j < |Lines(s)| && Contains(Lines(s)[j], t)
    ensures Contains(s, t)
    decreases |s|
  {
    var k := FirstLineLength(s);
    assert s == s[..k] + s[k..] + "";
    if j == 0 {
      ContainsInfix([], s[..k], s[k..], t);
      assert [] + s[..k] + s[k..] == s;
    } else {
      LineOccursInText(s[k..], t, j - 1);
      ContainsInfix(s[..k], s[k..], "", t);
    }
  }

  /** A line as `readlines` returns it: non-empty, '\n' at most at its end,
      and '\n' at its end unless it is the last line. */
  predicate IsLine(l: string, last: bool)
  {
    l != [] && '\n' !in l[..|l| - 1] && (!last ==> l[|l| - 1] == '\n')
  }

  predicate WellFormedLines(ls: seq<string>)
  {
    forall i | 0 <= i < |ls| :: IsLine(ls[i], i == |ls| - 1)
  }

  lemma {:induction false} LinesWellFormed(s: string)
    ensures WellFormedLines(Lines(s))
    decreases |s|
  {
    if s != [] {
      var k := FirstLineLength(s);
      LinesWellFormed(s[k..]);
      var l := s[..k];
      assert forall i | 0 <= i < |l| - 1 :: l[i] == s[i];
      assert '\n' !in l[..|l| - 1];
      assert k < |s| ==> l[|l| - 1] == '\n';
      assert k == |s| ==> Lines(s[k..]) == [];
    }
  }

  lemma {:induction false} LineWithoutBreak(m: string)
    requires m != [] && '\n' !in m
    ensures Lines(m) == [m]
    decreases |m|
  {
    NoBreakFirstLine(m);
    assert m[..|m|] == m && m[|m|..] == [];
  }

  lemma {:induction false} NoBreakFirstLine(m: string)
    requires '\n' !in m
    ensures FirstLineLength(m) == |m|
    decreases |m|
  {
    if m != [] {
      NoBreakFirstLine(m[1..]);
    }
  }

  /** Writing well-formed lines and reading them back gives the same lines. */
  lemma {:induction false} ReadBack(ls: seq<string>)
    requires WellFormedLines(ls)
    ensures Lines(Concat(ls)) == ls
  {
    if ls != [] {
      var l := ls[0];
      assert forall i | 0 <= i < |ls[1..]| :: ls[1..][i] == ls[i + 1];
      ReadBack(ls[1..]);
      if l[|l| - 1] == '\n' {
        var m := l[..|l| - 1];
        assert l == m + "\n";
        SingleLine(m);
        LinesAppend(l, Concat(ls[1..]));
      } else {
        assert |ls| == 1;
        LineWithoutBreak(l);
        assert Concat(ls) == l + "";
      }
    }
  }
}
