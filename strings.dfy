/**
 * Line-level string handling shared by the merge model.
 *
 * Text is a `string` in which '\n' is the only line break: `Lines` is what
 * Python's `str.splitlines(keepends=True)` returns on such text, `Join` is
 * `"".join`, and `NewlineCount` is `str.count('\n')`. `Composed` is the
 * alternation bit, conflict, bit, ... that both generations of
 * `FileMerge.result` build.
 */
module Strings {

  /** True when `s` ends with a line break. */
  predicate EndsWithNewline(s: string)
  {
    |s| > 0 && s[|s| - 1] == '\n'
  }

  /** `s[0:n]`: the first `n` characters, or all of a shorter `s`. */
  function Slice(s: string, n: nat): (r: string)
    ensures r <= s && |r| == if |s| <= n then |s| else n
  {
    if |s| <= n then s else s[..n]
  }

  /** `s.count('\n')` */
  function NewlineCount(s: string): nat
  {
    if s == [] then 0 else (if s[0] == '\n' then 1 else 0) + NewlineCount(s[1..])
  }

  /** Length of the first line of `s`: up to and including its first '\n', or all of `s`. */
  function FirstLineLength(s: string): (k: nat)
    requires s != []
    ensures 1 <= k <= |s|
    ensures forall j :: 0 <= j < k - 1 ==> s[j] != '\n'
    ensures k < |s| ==> s[k - 1] == '\n'
  {
    if s[0] == '\n' || |s| == 1 then 1 else 1 + FirstLineLength(s[1..])
  }

  /** `s.splitlines(keepends=True)` */
  function Lines(s: string): seq<string>
    decreases |s|
  {
    if s == [] then []
    else
      var k := FirstLineLength(s);
      [s[..k]] + Lines(s[k..])
  }

  /** `"".join(ls)` */
  function Join(ls: seq<string>): string
  {
    if ls == [] then "" else ls[0] + Join(ls[1..])
  }

  /** `len(s.splitlines())` */
  function LineCount(s: string): nat
  {
    |Lines(s)|
  }

  /** One element of a `splitlines(keepends=True)` result: non-empty, '\n' at most at its end. */
  predicate IsLine(l: string)
  {
    l != [] && forall j :: 0 <= j < |l| - 1 ==> l[j] != '\n'
  }

  /** A list shaped like a `splitlines(keepends=True)` result: lines, all but the last ending in '\n'. */
  predicate IsLineList(ls: seq<string>)
  {
    forall i :: 0 <= i < |ls| ==> IsLine(ls[i]) && (i < |ls| - 1 ==> EndsWithNewline(ls[i]))
  }

  lemma {:induction false} JoinConcat(a: seq<string>, b: seq<string>)
    ensures Join(a + b) == Join(a) + Join(b)
  {
    if a == [] {
      assert a + b == b;
    } else {
      assert (a + b)[1..] == a[1..] + b;
      JoinConcat(a[1..], b);
    }
  }

  lemma JoinSnoc(a: seq<string>, l: string)
    ensures Join(a + [l]) == Join(a) + l
  {
    JoinConcat(a, [l]);
    assert Join([l]) == l + Join([]);
  }

  /** Joining the lines of `s` gives `s` back. */
  lemma {:induction false} JoinLines(s: string)
    ensures Join(Lines(s)) == s
    decreases |s|
  {
    if s != [] {
      var k := FirstLineLength(s);
      JoinLines(s[k..]);
      assert s == s[..k] + s[k..];
    }
  }

  /** `Lines` produces lines, each but the last ending in '\n'. */
  lemma {:induction false} LinesAreLineList(s: string)
    ensures IsLineList(Lines(s))
    decreases |s|
  {
    if s != [] {
      var k := FirstLineLength(s);
      var rest := Lines(s[k..]);
      LinesAreLineList(s[k..]);
      assert Lines(s) == [s[..k]] + rest;
      if rest != [] {
        assert s[k..] != [];
        assert EndsWithNewline(s[..k]);
      }
      forall i | 0 <= i < |Lines(s)|
        ensures IsLine(Lines(s)[i]) && (i < |Lines(s)| - 1 ==> EndsWithNewline(Lines(s)[i]))
      {
        if i > 0 {
          assert Lines(s)[i] == rest[i - 1];
        }
      }
    }
  }

  lemma {:induction false} FirstLineOfLine(l: string, rest: string)
    requires IsLine(l) && (EndsWithNewline(l) || rest == [])
    ensures FirstLineLength(l + rest) == |l|
    decreases |l|
  {
    if |l| > 1 {
      assert l[0] != '\n';
      assert (l + rest)[1..] == l[1..] + rest;
      FirstLineOfLine(l[1..], rest);
    }
  }

  /** Splitting the join of a line list gives the list back. */
  lemma {:induction false} LinesOfJoin(ls: seq<string>)
    requires IsLineList(ls)
    ensures Lines(Join(ls)) == ls
  {
    if ls != [] {
      var tail := Join(ls[1..]);
      assert IsLine(ls[0]);
      assert |ls| > 1 ==> EndsWithNewline(ls[0]);
      assert IsLineList(ls[1..]) by {
        forall i | 0 <= i < |ls[1..]|
          ensures IsLine(ls[1..][i]) && (i < |ls[1..]| - 1 ==> EndsWithNewline(ls[1..][i]))
        {
          assert ls[1..][i] == ls[i + 1];
        }
      }
      FirstLineOfLine(ls[0], tail);
      LinesOfJoin(ls[1..]);
      var s := ls[0] + tail;
      assert s[..|ls[0]|] == ls[0];
      assert s[|ls[0]|..] == tail;
    }
  }

  lemma PrefixIsLineList(ls: seq<string>, n: nat)
    requires IsLineList(ls) && n <= |ls|
    ensures IsLineList(ls[..n]) && IsLineList(ls[n..])
  {
    assert forall i :: 0 <= i < n ==> ls[..n][i] == ls[i];
    assert forall i :: 0 <= i < |ls| - n ==> ls[n..][i] == ls[n + i];
  }

  /**
   * The first `n` lines of `s` followed by the rest give `s`, and each part
   * splits into exactly its own lines.
   */
  lemma SplitAtLine(s: string, n: nat)
    requires n <= LineCount(s)
    ensures Join(Lines(s)[..n]) + Join(Lines(s)[n..]) == s
    ensures Lines(Join(Lines(s)[..n])) == Lines(s)[..n]
    ensures Lines(Join(Lines(s)[n..])) == Lines(s)[n..]
  {
    var ls := Lines(s);
    assert ls == ls[..n] + ls[n..];
    JoinConcat(ls[..n], ls[n..]);
    JoinLines(s);
    LinesAreLineList(s);
    PrefixIsLineList(ls, n);
    LinesOfJoin(ls[..n]);
    LinesOfJoin(ls[n..]);
  }

  /** When `s` ends with a line break, so does its last line. */
  lemma {:induction false} LastLineEndsWithNewline(s: string)
    requires EndsWithNewline(s)
    ensures Lines(s) != [] && EndsWithNewline(Lines(s)[|Lines(s)| - 1])
    decreases |s|
  {
    var k := FirstLineLength(s);
    if k < |s| {
      LastLineEndsWithNewline(s[k..]);
    } else {
      assert s[..k] == s;
    }
  }

  /** A text ending with a line break splits independently of what follows it. */
  lemma LinesConcat(a: string, b: string)
    requires a == [] || EndsWithNewline(a)
    ensures Lines(a + b) == Lines(a) + Lines(b)
    ensures LineCount(a + b) == LineCount(a) + LineCount(b)
  {
    var la, lb := Lines(a), Lines(b);
    LinesAreLineList(a);
    LinesAreLineList(b);
    if a != [] {
      LastLineEndsWithNewline(a);
    }
    assert IsLineList(la + lb) by {
      forall i | 0 <= i < |la + lb|
        ensures IsLine((la + lb)[i]) && (i < |la + lb| - 1 ==> EndsWithNewline((la + lb)[i]))
      {
        if i < |la| {
          assert (la + lb)[i] == la[i];
        } else {
          assert (la + lb)[i] == lb[i - |la|];
        }
      }
    }
    JoinConcat(la, lb);
    JoinLines(a);
    JoinLines(b);
    LinesOfJoin(la + lb);
  }

  /** Whole lines put in front of `s` add one line per '\n'. */
  lemma PrependedLines(chunk: string, s: string)
    requires EndsWithNewline(chunk)
    ensures LineCount(chunk + s) == NewlineCount(chunk) + LineCount(s)
  {
    LinesConcat(chunk, s);
    NewlinesCountLines(chunk);
  }

  lemma {:induction false} NewlineCountConcat(a: string, b: string)
    ensures NewlineCount(a + b) == NewlineCount(a) + NewlineCount(b)
  {
    if a == [] {
      assert a + b == b;
    } else {
      assert (a + b)[1..] == a[1..] + b;
      NewlineCountConcat(a[1..], b);
    }
  }

  lemma {:induction false} NewlineCountOfLine(l: string)
    requires IsLine(l)
    ensures NewlineCount(l) == if EndsWithNewline(l) then 1 else 0
    decreases |l|
  {
    if |l| > 1 {
      assert l[0] != '\n';
      assert IsLine(l[1..]);
      NewlineCountOfLine(l[1..]);
    } else {
      assert l[1..] == [];
    }
  }

  /** A text ending with a line break has exactly one '\n' per line. */
  lemma {:induction false} NewlinesCountLines(s: string)
    requires s == [] || EndsWithNewline(s)
    ensures NewlineCount(s) == LineCount(s)
    decreases |s|
  {
    if s != [] {
      var k := FirstLineLength(s);
      assert s == s[..k] + s[k..];
      NewlineCountConcat(s[..k], s[k..]);
      assert IsLine(s[..k]);
      if k < |s| {
        assert EndsWithNewline(s[..k]);
      } else {
        assert s[..k] == s;
      }
      NewlineCountOfLine(s[..k]);
      NewlinesCountLines(s[k..]);
    }
  }

  /** The lengths for which the alternation bit, conflict, bit, ... uses every bit and every conflict exactly once. */
  predicate Alternates(bits: seq<string>, conflicts: seq<string>)
  {
    |conflicts| <= |bits| <= |conflicts| + 1
  }

  /**
   * The alternation bits[0], conflicts[0], bits[1], conflicts[1], ...,
   * read from its last piece: a conflict when there are at least as many
   * conflicts as bits, otherwise a bit. It is meant for lengths that
   * `Alternates`; on others it still gives some text.
   */
  function Composed(bits: seq<string>, conflicts: seq<string>): string
    decreases |bits| + |conflicts|
  {
    if |bits| + |conflicts| == 0 then ""
    else if |bits| <= |conflicts| then Composed(bits, conflicts[..|conflicts| - 1]) + conflicts[|conflicts| - 1]
    else Composed(bits[..|bits| - 1], conflicts) + bits[|bits| - 1]
  }

  /** Closing a bit after the last conflict extends the text by that bit. */
  lemma ComposedSnocBit(bits: seq<string>, conflicts: seq<string>, b: string)
    requires |bits| == |conflicts|
    ensures Composed(bits + [b], conflicts) == Composed(bits, conflicts) + b
  {
    assert (bits + [b])[..|bits|] == bits;
  }

  /** Closing a conflict after the last bit extends the text by that conflict. */
  lemma ComposedSnocConflict(bits: seq<string>, conflicts: seq<string>, c: string)
    requires |bits| == |conflicts| + 1
    ensures Composed(bits, conflicts + [c]) == Composed(bits, conflicts) + c
  {
    assert (conflicts + [c])[..|conflicts|] == conflicts;
  }

  /** The alternation of the first `nb` bits and `nc` conflicts, one bit longer. */
  lemma ComposedPrefixBit(bits: seq<string>, conflicts: seq<string>, nb: nat, nc: nat)
    requires nb == nc && nb < |bits| && nc <= |conflicts|
    ensures Composed(bits[..nb + 1], conflicts[..nc]) == Composed(bits[..nb], conflicts[..nc]) + bits[nb]
  {
    ComposedSnocBit(bits[..nb], conflicts[..nc], bits[nb]);
    assert bits[..nb] + [bits[nb]] == bits[..nb + 1];
  }

  /** The alternation of the first `nb` bits and `nc` conflicts, one conflict longer. */
  lemma ComposedPrefixConflict(bits: seq<string>, conflicts: seq<string>, nb: nat, nc: nat)
    requires nb == nc + 1 && nb <= |bits| && nc < |conflicts|
    ensures Composed(bits[..nb], conflicts[..nc + 1]) == Composed(bits[..nb], conflicts[..nc]) + conflicts[nc]
  {
    ComposedSnocConflict(bits[..nb], conflicts[..nc], conflicts[nc]);
    assert conflicts[..nc] + [conflicts[nc]] == conflicts[..nc + 1];
  }
}
