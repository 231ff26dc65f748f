/** How the text code cuts strings into pieces: maximal runs of a character
    class (`re.finditer(r'\w+')`, `str.split()`), `re.split` on a character
    class with `+`, and `str.split` on the two-character separator "\n\n". */
module Splitting {
  import opened Seqs

  /** Length of the leading run of characters satisfying `p`. */
  function RunLength(s: string, p: char -> bool): (n: nat)
    ensures n <= |s|
    ensures forall i :: 0 <= i < n ==> p(s[i])
    ensures n < |s| ==> !p(s[n])
  {
    if s == [] || !p(s[0]) then 0 else 1 + RunLength(s[1..], p)
  }

  /** The maximal runs of `p`-characters of `s`, left to right. */
  function Runs(s: string, p: char -> bool): (r: seq<string>)
    decreases |s|
  {
    if s == [] then []
    else if !p(s[0]) then Runs(s[1..], p)
    else
      var n := RunLength(s, p);
      [s[..n]] + Runs(s[n..], p)
  }

  /** Every run is non-empty and made of `p`-characters only. */
  lemma {:induction false} RunsWellFormed(s: string, p: char -> bool)
    ensures forall w :: w in Runs(s, p) ==> w != [] && forall i :: 0 <= i < |w| ==> p(w[i])
    decreases |s|
  {
    if s != [] {
      if !p(s[0]) {
        RunsWellFormed(s[1..], p);
      } else {
        RunsWellFormed(s[RunLength(s, p)..], p);
      }
    }
  }

  /** A non-empty block of `p`-characters is a single run. */
  lemma {:induction false} RunsOfBlock(w: string, p: char -> bool)
    requires w != []
    requires forall i :: 0 <= i < |w| ==> p(w[i])
    ensures Runs(w, p) == [w]
  {
    RunLengthAll(w, p);
    assert w[..|w|] == w;
    assert w[|w|..] == [];
  }

  lemma {:induction false} RunLengthAll(w: string, p: char -> bool)
    requires forall i :: 0 <= i < |w| ==> p(w[i])
    ensures RunLength(w, p) == |w|
  {
    if w != [] {
      RunLengthAll(w[1..], p);
    }
  }

  /** A run never extends over a character outside the class. */
  lemma {:induction false} RunLengthStops(a: string, c: char, b: string, p: char -> bool)
    requires !p(c)
    ensures RunLength(a + [c] + b, p) == RunLength(a, p)
  {
    if a != [] && p(a[0]) {
      assert (a + [c] + b)[1..] == a[1..] + [c] + b;
      RunLengthStops(a[1..], c, b, p);
    }
  }

  /** Maximality: a separator character splits the runs of the two sides
      without merging or losing any of them. */
  lemma {:induction false} RunsSeparate(a: string, c: char, b: string, p: char -> bool)
    requires !p(c)
    ensures Runs(a + [c] + b, p) == Runs(a, p) + Runs(b, p)
    decreases |a|
  {
    var s := a + [c] + b;
    if a == [] {
      assert s[1..] == b;
    } else if !p(a[0]) {
      assert s[1..] == a[1..] + [c] + b;
      RunsSeparate(a[1..], c, b, p);
    } else {
      RunLengthStops(a, c, b, p);
      var n := RunLength(a, p);
      assert s[..n] == a[..n];
      assert s[n..] == a[n..] + [c] + b;
      RunsSeparate(a[n..], c, b, p);
    }
  }

  /** `re.split` on a character class followed by `+`: the pieces between
      maximal separator runs, with an empty first (last) piece when `s`
      starts (ends) with a separator. */
  function SplitOnRuns(s: string, p: char -> bool): (r: seq<string>)
    ensures |r| >= 1
    decreases |s|
  {
    if s == [] then [""]
    else if p(s[0]) then
      var n := RunLength(s, p);
      [""] + SplitOnRuns(s[n..], p)
    else
      var rest := SplitOnRuns(s[1..], p);
      [[s[0]] + rest[0]] + rest[1..]
  }

  /** No piece holds a separator, and there is exactly one more piece than
      there are separator runs. */
  lemma SplitOnRunsPieces(s: string, p: char -> bool)
    ensures forall w :: w in SplitOnRuns(s, p) ==> forall i :: 0 <= i < |w| ==> !p(w[i])
    ensures |SplitOnRuns(s, p)| == |Runs(s, p)| + 1
  {
    SplitOnRunsClean(s, p);
    SplitOnRunsCount(s, p);
  }

  lemma {:induction false} SplitOnRunsClean(s: string, p: char -> bool)
    ensures forall w :: w in SplitOnRuns(s, p) ==> forall i :: 0 <= i < |w| ==> !p(w[i])
    decreases |s|
  {
    if s != [] {
      if p(s[0]) {
        SplitOnRunsClean(s[RunLength(s, p)..], p);
      } else {
        SplitOnRunsClean(s[1..], p);
        var rest := SplitOnRuns(s[1..], p);
        assert forall w :: w in rest[1..] ==> w in rest;
        assert rest[0] in rest;
      }
    }
  }

  lemma {:induction false} SplitOnRunsCount(s: string, p: char -> bool)
    ensures |SplitOnRuns(s, p)| == |Runs(s, p)| + 1
    decreases |s|
  {
    if s != [] {
      if p(s[0]) {
        SplitOnRunsCount(s[RunLength(s, p)..], p);
      } else {
        SplitOnRunsCount(s[1..], p);
      }
    }
  }

  /** The pieces with the separator runs put back between them:
      `p0 + r0 + p1 + r1 + ... + pn`. */
  function Interleave(pieces: seq<string>, seps: seq<string>): string
    requires |pieces| == |seps| + 1
  {
    if seps == [] then pieces[0] else pieces[0] + seps[0] + Interleave(pieces[1..], seps[1..])
  }

  /** The first piece of `re.split` is the leading run of non-separators. */
  lemma {:induction false} SplitOnRunsFirst(s: string, p: char -> bool, np: char -> bool)
    requires forall c :: np(c) == !p(c)
    ensures SplitOnRuns(s, p)[0] == s[..RunLength(s, np)]
    decreases |s|
  {
    if s != [] && !p(s[0]) {
      SplitOnRunsFirst(s[1..], p, np);
      assert s[..RunLength(s, np)] == [s[0]] + s[1..][..RunLength(s[1..], np)];
    }
  }

  /** Splitting loses nothing: the pieces interleaved with the separator
      runs give back the text. */
  lemma {:induction false} SplitOnRunsRebuild(s: string, p: char -> bool)
    ensures |SplitOnRuns(s, p)| == |Runs(s, p)| + 1
    ensures Interleave(SplitOnRuns(s, p), Runs(s, p)) == s
    decreases |s|
  {
    SplitOnRunsCount(s, p);
    if s != [] {
      if p(s[0]) {
        SplitOnRunsRebuild(s[RunLength(s, p)..], p);
        RebuildAtSeparator(s, p);
      } else {
        SplitOnRunsRebuild(s[1..], p);
        RebuildAtPiece(s, p);
      }
    }
  }

  lemma RebuildAtSeparator(s: string, p: char -> bool)
    requires s != [] && p(s[0])
    requires |SplitOnRuns(s[RunLength(s, p)..], p)| == |Runs(s[RunLength(s, p)..], p)| + 1
    requires Interleave(SplitOnRuns(s[RunLength(s, p)..], p), Runs(s[RunLength(s, p)..], p)) == s[RunLength(s, p)..]
    ensures Interleave(SplitOnRuns(s, p), Runs(s, p)) == s
  {
    var n := RunLength(s, p);
    var pieces, seps := SplitOnRuns(s[n..], p), Runs(s[n..], p);
    assert SplitOnRuns(s, p) == [""] + pieces;
    assert Runs(s, p) == [s[..n]] + seps;
    RebuildFront(s, n, pieces, seps);
  }

  /** Putting a separator run back in front of a rebuilt suffix. */
  lemma RebuildFront(s: string, n: nat, pieces: seq<string>, seps: seq<string>)
    requires n <= |s|
    requires |pieces| == |seps| + 1
    requires Interleave(pieces, seps) == s[n..]
    ensures Interleave([""] + pieces, [s[..n]] + seps) == s
  {
    InterleaveSeparator(s[..n], pieces, seps);
    assert s[..n] + s[n..] == s;
  }

  lemma RebuildAtPiece(s: string, p: char -> bool)
    requires s != [] && !p(s[0])
    requires |SplitOnRuns(s[1..], p)| == |Runs(s[1..], p)| + 1
    requires Interleave(SplitOnRuns(s[1..], p), Runs(s[1..], p)) == s[1..]
    ensures Interleave(SplitOnRuns(s, p), Runs(s, p)) == s
  {
    InterleavePiece(s[0], SplitOnRuns(s[1..], p), Runs(s[1..], p));
    assert [s[0]] + s[1..] == s;
  }

  /** A leading empty piece and separator run contribute just the run. */
  lemma InterleaveSeparator(run: string, pieces: seq<string>, seps: seq<string>)
    requires |pieces| == |seps| + 1
    ensures Interleave([""] + pieces, [run] + seps) == run + Interleave(pieces, seps)
  {
    var ps, ss := [""] + pieces, [run] + seps;
    assert ps[0] == "" && ss[0] == run;
    assert ps[1..] == pieces && ss[1..] == seps;
    var rest := Interleave(pieces, seps);
    assert Interleave(ps, ss) == "" + run + rest;
    assert "" + run == run;
  }

  /** A character glued to the front of the first piece comes first. */
  lemma InterleavePiece(c: char, pieces: seq<string>, seps: seq<string>)
    requires |pieces| == |seps| + 1
    ensures Interleave([[c] + pieces[0]] + pieces[1..], seps) == [c] + Interleave(pieces, seps)
  {
    var glued := [[c] + pieces[0]] + pieces[1..];
    assert glued[0] == [c] + pieces[0];
    if seps != [] {
      assert glued[1..] == pieces[1..];
      var rest := Interleave(pieces[1..], seps[1..]);
      assert Interleave(glued, seps) == ([c] + pieces[0]) + (seps[0] + rest);
      assert Interleave(pieces, seps) == pieces[0] + (seps[0] + rest);
      AppendAssoc([c], pieces[0], seps[0] + rest);
    }
  }

  /** Skipping a prefix with no `np`-character leaves the runs unchanged. */
  lemma {:induction false} RunsSkip(s: string, k: nat, np: char -> bool)
    requires k <= |s|
    requires forall i :: 0 <= i < k ==> !np(s[i])
    ensures Runs(s, np) == Runs(s[k..], np)
  {
    if k > 0 {
      RunsSkip(s[1..], k - 1, np);
      assert s[1..][k - 1..] == s[k..];
    }
  }

  /** The pieces of `re.split` that a filter `q` keeps, when `q` rejects the
      empty string, are the maximal runs of non-separators that it keeps. */
  lemma {:induction false} SplitOnRunsFiltered(s: string, p: char -> bool, np: char -> bool, q: string -> bool)
    requires forall c :: np(c) == !p(c)
    requires !q("")
    ensures Filter(SplitOnRuns(s, p), q) == Filter(Runs(s, np), q)
    decreases |s|
  {
    if s == [] {
      FilterSingleton("", q);
    } else if p(s[0]) {
      var n := RunLength(s, p);
      SplitOnRunsFiltered(s[n..], p, np, q);
      FilterCons("", SplitOnRuns(s[n..], p), q);
      RunsSkip(s, n, np);
    } else {
      SplitOnRunsFiltered(s[1..], p, np, q);
      FilteredPieceStep(s, p, np, q);
    }
  }

  /** The step of `SplitOnRunsFiltered` at a non-separator character. */
  lemma FilteredPieceStep(s: string, p: char -> bool, np: char -> bool, q: string -> bool)
    requires forall c :: np(c) == !p(c)
    requires !q("")
    requires s != [] && !p(s[0])
    requires Filter(SplitOnRuns(s[1..], p), q) == Filter(Runs(s[1..], np), q)
    ensures Filter(SplitOnRuns(s, p), q) == Filter(Runs(s, np), q)
  {
    var m := RunLength(s, np);
    var rest := SplitOnRuns(s[1..], p);
    PieceShape(s, p, np);
    PieceTail(s[1..], p, np, q);
    FilterCons(s[..m], rest[1..], q);
    FilterCons(s[..m], Runs(s[m..], np), q);
  }

  /** At a non-separator, the first piece of `re.split` and the first run of
      non-separators are the same string. */
  lemma PieceShape(s: string, p: char -> bool, np: char -> bool)
    requires forall c :: np(c) == !p(c)
    requires s != [] && !p(s[0])
    ensures SplitOnRuns(s, p) == [s[..RunLength(s, np)]] + SplitOnRuns(s[1..], p)[1..]
    ensures Runs(s, np) == [s[..RunLength(s, np)]] + Runs(s[RunLength(s, np)..], np)
    ensures s[1..][RunLength(s[1..], np)..] == s[RunLength(s, np)..]
  {
    var t := s[1..];
    var m := RunLength(s, np);
    assert np(s[0]);
    RunLengthShift(s, np);
    var k := RunLength(t, np);
    var rest := SplitOnRuns(t, p);
    SplitOnRunsFirst(t, p, np);
    assert rest[0] == t[..k];
    assert [s[0]] + t[..k] == s[..m];
    assert SplitOnRuns(s, p) == [[s[0]] + rest[0]] + rest[1..];
    assert t[k..] == s[m..];
  }

  /** Past the first piece of `re.split` and the first run of
      non-separators, both sides keep the same strings. */
  lemma PieceTail(t: string, p: char -> bool, np: char -> bool, q: string -> bool)
    requires forall c :: np(c) == !p(c)
    requires !q("")
    requires Filter(SplitOnRuns(t, p), q) == Filter(Runs(t, np), q)
    ensures Filter(SplitOnRuns(t, p)[1..], q) == Filter(Runs(t[RunLength(t, np)..], np), q)
  {
    var rest := SplitOnRuns(t, p);
    var k := RunLength(t, np);
    SplitOnRunsFirst(t, p, np);
    assert rest == [rest[0]] + rest[1..];
    FilterCons(rest[0], rest[1..], q);
    var head := if q(rest[0]) then [rest[0]] else [];
    if k > 0 {
      assert Runs(t, np) == [t[..k]] + Runs(t[k..], np);
      FilterCons(t[..k], Runs(t[k..], np), q);
    } else {
      assert head == [];
      assert t[k..] == t;
    }
    CancelPrefix(head, Filter(rest[1..], q), Filter(Runs(t[k..], np), q));
  }

  lemma CancelPrefix(a: seq<string>, x: seq<string>, y: seq<string>)
    requires a + x == a + y
    ensures x == y
  {
    assert x == (a + x)[|a|..];
    assert y == (a + y)[|a|..];
  }

  /** A run that starts at a run character extends the run of the rest by one. */
  lemma RunLengthShift(s: string, np: char -> bool)
    requires s != [] && np(s[0])
    ensures RunLength(s, np) == 1 + RunLength(s[1..], np)
  {
  }

  /** Joins pieces with "\n\n" between neighbours (`"\n\n".join(pieces)`). */
  function JoinBlankLine(pieces: seq<string>): string
    requires |pieces| >= 1
  {
    if |pieces| == 1 then pieces[0] else pieces[0] + "\n\n" + JoinBlankLine(pieces[1..])
  }

  /** `s.split("\n\n")`: occurrences of the separator are taken left to right
      without overlap. */
  function SplitBlankLine(s: string): (r: seq<string>)
    ensures |r| >= 1
    ensures r[0] != [] ==> s != [] && r[0][0] == s[0]
    decreases |s|
  {
    if |s| < 2 then [s]
    else if s[0] == '\n' && s[1] == '\n' then [""] + SplitBlankLine(s[2..])
    else
      var rest := SplitBlankLine(s[1..]);
      [[s[0]] + rest[0]] + rest[1..]
  }

  /** The separator occurs at position i of w. */
  predicate BlankLineAt(w: string, i: int) {
    0 <= i < |w| - 1 && w[i] == '\n' && w[i + 1] == '\n'
  }

  /** Splitting then joining gives back the text, and no piece contains the
      separator. */
  lemma SplitBlankLineRoundTrip(s: string)
    ensures JoinBlankLine(SplitBlankLine(s)) == s
    ensures forall w, i :: w in SplitBlankLine(s) ==> !BlankLineAt(w, i)
  {
    SplitBlankLineJoin(s);
    SplitBlankLineClean(s);
  }

  lemma {:induction false} SplitBlankLineJoin(s: string)
    ensures JoinBlankLine(SplitBlankLine(s)) == s
    decreases |s|
  {
    if |s| >= 2 {
      if s[0] == '\n' && s[1] == '\n' {
        SplitBlankLineJoin(s[2..]);
        assert s == "\n\n" + s[2..];
      } else {
        var rest := SplitBlankLine(s[1..]);
        SplitBlankLineJoin(s[1..]);
        var r := SplitBlankLine(s);
        if |rest| == 1 {
          assert JoinBlankLine(r) == [s[0]] + rest[0];
        } else {
          assert r[1..] == rest[1..];
          assert JoinBlankLine(r) == [s[0]] + rest[0] + "\n\n" + JoinBlankLine(rest[1..]);
          assert JoinBlankLine(rest) == rest[0] + "\n\n" + JoinBlankLine(rest[1..]);
        }
        assert s == [s[0]] + s[1..];
      }
    }
  }

  lemma {:induction false} SplitBlankLineClean(s: string)
    ensures forall w, i :: w in SplitBlankLine(s) ==> !BlankLineAt(w, i)
    decreases |s|
  {
    if |s| >= 2 {
      if s[0] == '\n' && s[1] == '\n' {
        SplitBlankLineClean(s[2..]);
      } else {
        var rest := SplitBlankLine(s[1..]);
        SplitBlankLineClean(s[1..]);
        var r := SplitBlankLine(s);
        forall w, i | w in r
          ensures !BlankLineAt(w, i)
        {
          if w == r[0] {
            FirstPieceClean(s, i);
          } else {
            assert w in rest;
          }
        }
      }
    }
  }

  /** The separator is matched leftmost: no piece but the last ends in a
      newline, so no piece followed by "\n\n" could have let the match
      start one character earlier. */
  lemma {:induction false} SplitBlankLineLeftmost(s: string)
    ensures var r := SplitBlankLine(s);
      forall k :: 0 <= k < |r| - 1 ==> r[k] == [] || r[k][|r[k]| - 1] != '\n'
    decreases |s|
  {
    if |s| >= 2 {
      var r := SplitBlankLine(s);
      if s[0] == '\n' && s[1] == '\n' {
        SplitBlankLineLeftmost(s[2..]);
        assert r[1..] == SplitBlankLine(s[2..]);
      } else {
        var rest := SplitBlankLine(s[1..]);
        SplitBlankLineLeftmost(s[1..]);
        assert r[1..] == rest[1..];
        if |rest| >= 2 && rest[0] == [] {
          EmptyFirstPiece(s[1..]);
        }
        forall k | 0 <= k < |r| - 1
          ensures r[k] == [] || r[k][|r[k]| - 1] != '\n'
        {
          if k > 0 {
            assert r[k] == rest[k];
          }
        }
      }
    }
  }

  /** An empty first piece followed by more pieces means the text starts
      with the separator. */
  lemma EmptyFirstPiece(s: string)
    requires |SplitBlankLine(s)| >= 2 && SplitBlankLine(s)[0] == []
    ensures |s| >= 2 && s[0] == '\n' && s[1] == '\n'
  {
  }

  /** The first piece of a text that does not start with the separator is
      its first character followed by the first piece of the rest. */
  lemma FirstPieceClean(s: string, i: int)
    requires |s| >= 2 && !(s[0] == '\n' && s[1] == '\n')
    requires forall w, i :: w in SplitBlankLine(s[1..]) ==> !BlankLineAt(w, i)
    ensures !BlankLineAt(SplitBlankLine(s)[0], i)
  {
    var rest := SplitBlankLine(s[1..]);
    var w := SplitBlankLine(s)[0];
    assert w == [s[0]] + rest[0];
    assert rest[0] in rest;
    if |w| >= 2 {
      assert w[1] == s[1];
    }
    if 1 <= i < |w| - 1 {
      assert w[i] == rest[0][i - 1] && w[i + 1] == rest[0][i];
      assert !BlankLineAt(rest[0], i - 1);
    }
  }
}
