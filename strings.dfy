/**
 * The JavaScript string operations the nginx generator uses: `split` on a
 * one-character separator, `join`, and a global `replace` whose pattern is a
 * literal (a regular expression with no special characters left in it).
 */
module Strings {

  /**
   * `s.split(sep)`: the pieces between the separators, left to right. There
   * is always at least one piece (`"".split(sep)` is `[""]`).
   */
  function Split(s: string, sep: char): (pieces: seq<string>)
    ensures |pieces| >= 1
    ensures forall i :: 0 <= i < |pieces| ==> sep !in pieces[i]
  {
    if s == [] then [[]]
    else
      var rest := Split(s[1..], sep);
      if s[0] == sep then [[]] + rest
      else [[s[0]] + rest[0]] + rest[1..]
  }

  /** `pieces.join(sep)` */
  function Join(pieces: seq<string>, sep: string): string {
    if pieces == [] then []
    else if |pieces| == 1 then pieces[0]
    else pieces[0] + sep + Join(pieces[1..], sep)
  }

  /**
   * The first piece is the text before the first separator; when there is
   * a separator, the other pieces are the split of what follows it.
   */
  lemma {:induction false} SplitHead(s: string, sep: char)
    ensures |Split(s, sep)[0]| <= |s|
    ensures Split(s, sep)[0] == s[..|Split(s, sep)[0]|]
    ensures |Split(s, sep)[0]| == |s| ==> Split(s, sep) == [s]
    ensures |Split(s, sep)[0]| < |s| ==>
      s[|Split(s, sep)[0]|] == sep && Split(s, sep)[1..] == Split(s[|Split(s, sep)[0]| + 1..], sep)
  {
    if s != [] && s[0] != sep {
      var rest := Split(s[1..], sep);
      SplitHead(s[1..], sep);
      var k := |rest[0]|;
      if k < |s| - 1 {
        assert s[1..][k + 1..] == s[k + 2..];
      } else {
        assert rest == [s[1..]];
        assert s == [s[0]] + s[1..];
      }
    }
  }

  /** There is a second piece exactly when the separator occurs. */
  lemma SplitOnePiece(s: string, sep: char)
    ensures |Split(s, sep)| == 1 <==> sep !in s
  {
    SplitHead(s, sep);
    var k := |Split(s, sep)[0]|;
    if k == |s| {
      assert s == Split(s, sep)[0];
    }
  }

  /**
   * The second piece is the text after the first separator up to the next
   * separator or the end of the string.
   */
  lemma SplitSecondPiece(s: string, sep: char)
    requires |Split(s, sep)| > 1
    ensures var p0, p1 := Split(s, sep)[0], Split(s, sep)[1];
      var n := |p0| + 1 + |p1|;
      && n <= |s| && s[..n] == p0 + [sep] + p1
      && (n == |s| || s[n] == sep)
  {
    var pieces := Split(s, sep);
    SplitHead(s, sep);
    var k := |pieces[0]|;
    var t := s[k + 1..];
    SplitHead(t, sep);
    assert pieces[1] == Split(t, sep)[0];
    SliceAround(s, k, pieces[1]);
  }

  /** A slice of `s` through index `k` and the `v` that follows it. */
  lemma SliceAround(s: string, k: nat, v: string)
    requires k + 1 + |v| <= |s| && v == s[k + 1..][..|v|]
    ensures s[..k + 1 + |v|] == s[..k] + [s[k]] + v
  {
    assert forall i :: 0 <= i < |v| ==> v[i] == s[k + 1 + i];
  }

  /** Joining the pieces of a split gives back the string. */
  lemma {:induction false} JoinSplit(s: string, sep: char)
    ensures Join(Split(s, sep), [sep]) == s
  {
    if s != [] {
      var rest := Split(s[1..], sep);
      JoinSplit(s[1..], sep);
      if s[0] == sep {
        assert ([[]] + rest)[1..] == rest;
      } else if |rest| > 1 {
        assert ([[s[0]] + rest[0]] + rest[1..])[1..] == rest[1..];
      }
    }
  }

  /** Splitting a join of separator-free pieces gives back the pieces. */
  lemma {:induction false} SplitJoin(pieces: seq<string>, sep: char)
    requires |pieces| >= 1
    requires forall i :: 0 <= i < |pieces| ==> sep !in pieces[i]
    ensures Split(Join(pieces, [sep]), sep) == pieces
    decreases |Join(pieces, [sep])| + |pieces|
  {
    var p := pieces[0];
    if p == [] {
      if |pieces| > 1 {
        var j := Join(pieces[1..], [sep]);
        assert Join(pieces, [sep]) == [sep] + j;
        assert ([sep] + j)[1..] == j;
        SplitJoin(pieces[1..], sep);
        assert pieces == [[]] + pieces[1..];
      }
    } else {
      var shorter := [p[1..]] + pieces[1..];
      assert shorter[1..] == pieces[1..];
      assert forall i :: 1 <= i < |shorter| ==> shorter[i] == pieces[i];
      assert p[1..] == shorter[0] && sep !in p[1..];
      var j := Join(shorter, [sep]);
      assert Join(pieces, [sep]) == [p[0]] + j;
      assert ([p[0]] + j)[1..] == j;
      SplitJoin(shorter, sep);
      assert p == [p[0]] + p[1..];
      assert pieces == [[p[0]] + shorter[0]] + shorter[1..];
    }
  }

  /** `pat` occurs in `s` starting at index `i`. */
  predicate OccursAt(pat: string, s: string, i: nat) {
    i + |pat| <= |s| && s[i..i + |pat|] == pat
  }

  /** `s` contains `pat` somewhere. */
  ghost predicate Occurs(pat: string, s: string) {
    exists i: nat :: OccursAt(pat, s, i)
  }

  /**
   * `s.replace(/pat/g, rep)` for a literal pattern: scanning left to right,
   * each occurrence found is replaced and the scan resumes after it, so
   * occurrences never overlap.
   */
  function ReplaceAll(s: string, pat: string, rep: string): string
    requires pat != []
    decreases |s|
  {
    if |s| < |pat| then s
    else if s[..|pat|] == pat then rep + ReplaceAll(s[|pat|..], pat, rep)
    else [s[0]] + ReplaceAll(s[1..], pat, rep)
  }

  /** Replacing a pattern by itself changes nothing. */
  lemma {:induction false} ReplaceAllSelf(s: string, pat: string)
    requires pat != []
    ensures ReplaceAll(s, pat, pat) == s
    decreases |s|
  {
    if |s| >= |pat| {
      if s[..|pat|] == pat {
        ReplaceAllSelf(s[|pat|..], pat);
        assert s == pat + s[|pat|..];
      } else {
        ReplaceAllSelf(s[1..], pat);
        assert s == [s[0]] + s[1..];
      }
    }
  }

  /** Without an occurrence of the pattern, replacing changes nothing. */
  lemma {:induction false} ReplaceAllAbsent(s: string, pat: string, rep: string)
    requires pat != [] && !Occurs(pat, s)
    ensures ReplaceAll(s, pat, rep) == s
    decreases |s|
  {
    if |s| >= |pat| {
      assert !OccursAt(pat, s, 0);
      forall i: nat | i + |pat| <= |s[1..]|
        ensures !OccursAt(pat, s[1..], i)
      {
        assert s[1..][i..i + |pat|] == s[i + 1..i + 1 + |pat|];
        assert !OccursAt(pat, s, i + 1);
      }
      ReplaceAllAbsent(s[1..], pat, rep);
      assert s == [s[0]] + s[1..];
    }
  }

  /** An occurrence at the front is replaced, and the scan goes on after it. */
  lemma ReplaceAllFront(pat: string, rest: string, rep: string)
    requires pat != []
    ensures ReplaceAll(pat + rest, pat, rep) == rep + ReplaceAll(rest, pat, rep)
  {
    assert (pat + rest)[..|pat|] == pat;
    assert (pat + rest)[|pat|..] == rest;
  }
}
