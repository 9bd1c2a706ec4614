/** Lines of a text and the line diff between two texts.

    `difflib.unified_diff` is not modelled as an algorithm: a diff is an edit
    script of kept, inserted and deleted lines whose old-side projection is the
    old text's lines and whose new-side projection is the new text's lines. The
    one further fact the model uses about difflib is that two equal line lists
    produce no insertions or deletions. Nothing is assumed about minimality. */
module LineDiff {
  import opened Text

  // ---------------------------------------------------------------------------
  // `str.splitlines(keepends=True)`
  // ---------------------------------------------------------------------------

  /** Length of the first line of `s`, its line break (`\n`, `\r\n` or `\r`)
      included. */
  function FirstLineLength(s: string): (n: nat)
    requires |s| > 0
    ensures 1 <= n <= |s|
    decreases |s|
  {
    if s[0] == '\n' then 1
    else if s[0] == '\r' then (if |s| > 1 && s[1] == '\n' then 2 else 1)
    else if |s| == 1 then 1
    else 1 + FirstLineLength(s[1..])
  }

  /** `s.splitlines(keepends=True)`. */
  function SplitLinesKeep(s: string): (r: seq<string>)
    ensures forall k | 0 <= k < |r| :: r[k] != ""
    decreases |s|
  {
    if |s| == 0 then []
    else
      var n := FirstLineLength(s);
      [s[..n]] + SplitLinesKeep(s[n..])
  }

  /** `"".join(lines)`. */
  function Concat(lines: seq<string>): string
    decreases |lines|
  {
    if |lines| == 0 then "" else lines[0] + Concat(lines[1..])
  }

  /** Because the line breaks are kept, joining the lines gives the text back. */
  lemma {:induction false} ConcatSplitLines(s: string)
    ensures Concat(SplitLinesKeep(s)) == s
    decreases |s|
  {
    if |s| > 0 {
      var n := FirstLineLength(s);
      ConcatSplitLines(s[n..]);
      var r := SplitLinesKeep(s);
      assert r[0] == s[..n] && r[1..] == SplitLinesKeep(s[n..]);
      assert s == s[..n] + s[n..];
    }
  }

  /** Two texts have the same lines exactly when they are the same text. */
  lemma SplitLinesInjective(a: string, b: string)
    ensures SplitLinesKeep(a) == SplitLinesKeep(b) <==> a == b
  {
    ConcatSplitLines(a);
    ConcatSplitLines(b);
  }

  // ---------------------------------------------------------------------------
  // Edit scripts
  // ---------------------------------------------------------------------------

  datatype Edit = Keep(line: string) | Insert(line: string) | Delete(line: string)

  /** The lines an edit script reads from the old text. */
  function OldSide(script: seq<Edit>): seq<string>
    decreases |script|
  {
    if |script| == 0 then []
    else (if script[0].Insert? then [] else [script[0].line]) + OldSide(script[1..])
  }

  /** The lines an edit script writes into the new text. */
  function NewSide(script: seq<Edit>): seq<string>
    decreases |script|
  {
    if |script| == 0 then []
    else (if script[0].Delete? then [] else [script[0].line]) + NewSide(script[1..])
  }

  predicate HasChange(script: seq<Edit>) {
    exists k | 0 <= k < |script| :: !script[k].Keep?
  }

  /** What the model relies on about `difflib`'s script for `a` and `b`. */
  predicate IsDiffOf(script: seq<Edit>, a: seq<string>, b: seq<string>) {
    && OldSide(script) == a
    && NewSide(script) == b
    && (a == b ==> !HasChange(script))
  }

  /** A line differ: `difflib` applied to two line lists. */
  type Differ = (seq<string>, seq<string>) -> seq<Edit>

  ghost predicate IsLineDiffer(differ: Differ) {
    forall a, b :: IsDiffOf(differ(a, b), a, b)
  }

  /** A script without insertions or deletions reads and writes the same lines. */
  lemma {:induction false} KeepOnlySidesAgree(script: seq<Edit>)
    requires !HasChange(script)
    ensures OldSide(script) == NewSide(script)
    decreases |script|
  {
    if |script| > 0 {
      assert script[0].Keep?;
      assert !HasChange(script[1..]) by {
        forall k | 0 <= k < |script| - 1
          ensures script[1..][k].Keep?
        {
          assert script[1..][k] == script[k + 1];
        }
      }
      KeepOnlySidesAgree(script[1..]);
    }
  }

  /** A diff reports a change exactly when the two line lists differ. */
  lemma DiffHasChangeIff(script: seq<Edit>, a: seq<string>, b: seq<string>)
    requires IsDiffOf(script, a, b)
    ensures HasChange(script) <==> a != b
  {
    if !HasChange(script) {
      KeepOnlySidesAgree(script);
    }
  }

  function KeepAll(lines: seq<string>): (r: seq<Edit>)
    ensures |r| == |lines|
    ensures forall k | 0 <= k < |r| :: r[k] == Keep(lines[k])
  {
    seq(|lines|, k requires 0 <= k < |lines| => Keep(lines[k]))
  }

  function DeleteAll(lines: seq<string>): (r: seq<Edit>)
    ensures |r| == |lines|
    ensures forall k | 0 <= k < |r| :: r[k] == Delete(lines[k])
  {
    seq(|lines|, k requires 0 <= k < |lines| => Delete(lines[k]))
  }

  function InsertAll(lines: seq<string>): (r: seq<Edit>)
    ensures |r| == |lines|
    ensures forall k | 0 <= k < |r| :: r[k] == Insert(lines[k])
  {
    seq(|lines|, k requires 0 <= k < |lines| => Insert(lines[k]))
  }

  /** The simplest differ: keep everything when equal, otherwise delete every
      old line and insert every new one. It satisfies `IsDiffOf`, so the
      requirement placed on `difflib` can be met. */
  function WholesaleDiff(a: seq<string>, b: seq<string>): (r: seq<Edit>)
    ensures IsDiffOf(r, a, b)
  {
    SidesOfKeepAll(a);
    SidesOfDeleteAll(a);
    SidesOfInsertAll(b);
    SidesOfAppend(DeleteAll(a), InsertAll(b));
    if a == b then KeepAll(a) else DeleteAll(a) + InsertAll(b)
  }

  lemma {:induction false} SidesOfAppend(x: seq<Edit>, y: seq<Edit>)
    ensures OldSide(x + y) == OldSide(x) + OldSide(y)
    ensures NewSide(x + y) == NewSide(x) + NewSide(y)
    decreases |x|
  {
    if |x| > 0 {
      SidesOfAppend(x[1..], y);
      assert (x + y)[1..] == x[1..] + y;
    } else {
      assert x + y == y;
    }
  }

  lemma {:induction false} SidesOfKeepAll(lines: seq<string>)
    ensures OldSide(KeepAll(lines)) == lines && NewSide(KeepAll(lines)) == lines
    ensures !HasChange(KeepAll(lines))
    decreases |lines|
  {
    if |lines| > 0 {
      SidesOfKeepAll(lines[1..]);
      assert KeepAll(lines)[1..] == KeepAll(lines[1..]);
    }
  }

  lemma {:induction false} SidesOfDeleteAll(lines: seq<string>)
    ensures OldSide(DeleteAll(lines)) == lines && NewSide(DeleteAll(lines)) == []
    decreases |lines|
  {
    if |lines| > 0 {
      SidesOfDeleteAll(lines[1..]);
      assert DeleteAll(lines)[1..] == DeleteAll(lines[1..]);
    }
  }

  lemma {:induction false} SidesOfInsertAll(lines: seq<string>)
    ensures OldSide(InsertAll(lines)) == [] && NewSide(InsertAll(lines)) == lines
    decreases |lines|
  {
    if |lines| > 0 {
      SidesOfInsertAll(lines[1..]);
      assert InsertAll(lines)[1..] == InsertAll(lines[1..]);
    }
  }
}
