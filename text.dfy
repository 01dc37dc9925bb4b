/**
 * The three Python string operations the parser relies on, over `seq<char>`:
 * `s.replace(p, "")`, `s.split(c)` and the list comprehension that drops empty
 * pieces, with the facts about them that the parser's properties rest on.
 */
module Text {

  /** `p` occurs in `s` at index `i`. */
  predicate OccursAt(s: string, p: string, i: int) {
    0 <= i && i + |p| <= |s| && s[i..i + |p|] == p
  }

  /** Python's `p in s`. */
  predicate Occurs(s: string, p: string) {
    exists i :: 0 <= i <= |s| && OccursAt(s, p, i)
  }

  /** `s.replace(p, "")`: every occurrence of `p` found by a left-to-right scan,
      without overlap, is deleted. */
  function RemoveAll(s: string, p: string): (r: string)
    requires |p| > 0
    ensures |r| <= |s|
    decreases |s|
  {
    if |s| < |p| then s
    else if s[..|p|] == p then RemoveAll(s[|p|..], p)
    else [s[0]] + RemoveAll(s[1..], p)
  }

  /** `a` is `b` with some characters deleted. */
  predicate Subseq(a: string, b: string)
    decreases |b|
  {
    |a| == 0 || (|b| > 0 && ((a[0] == b[0] && Subseq(a[1..], b[1..])) || Subseq(a, b[1..])))
  }

  lemma {:induction false} SubseqRefl(a: string)
    ensures Subseq(a, a)
    decreases |a|
  {
    if |a| > 0 {
      SubseqRefl(a[1..]);
    }
  }

  lemma {:induction false} SubseqDrop(a: string, b: string, k: nat)
    requires k <= |b| && Subseq(a, b[k..])
    ensures Subseq(a, b)
    decreases k
  {
    if k > 0 {
      assert b[k..] == b[1..][k - 1..];
      SubseqDrop(a, b[1..], k - 1);
    }
  }

  /** Deleting characters twice is deleting characters once. */
  lemma {:induction false} SubseqTrans(a: string, b: string, c: string)
    requires Subseq(a, b) && Subseq(b, c)
    ensures Subseq(a, c)
    decreases |c|
  {
    if |a| > 0 {
      if Subseq(b, c[1..]) {
        SubseqTrans(a, b, c[1..]);
      } else if a[0] == b[0] && Subseq(a[1..], b[1..]) {
        SubseqTrans(a[1..], b[1..], c[1..]);
      } else {
        SubseqTrans(a, b[1..], c[1..]);
      }
    }
  }

  /** Deleting characters never lengthens a text. */
  lemma {:induction false} SubseqLength(a: string, b: string)
    requires Subseq(a, b)
    ensures |a| <= |b|
    decreases |b|
  {
    if |a| > 0 {
      if a[0] == b[0] && Subseq(a[1..], b[1..]) {
        SubseqLength(a[1..], b[1..]);
      } else {
        SubseqLength(a, b[1..]);
      }
    }
  }

  /** Removal only ever deletes characters of its input. */
  lemma {:induction false} RemoveAllSubseq(s: string, p: string)
    requires |p| > 0
    ensures Subseq(RemoveAll(s, p), s)
    decreases |s|
  {
    if |s| < |p| {
      SubseqRefl(s);
    } else if s[..|p|] == p {
      RemoveAllSubseq(s[|p|..], p);
      SubseqDrop(RemoveAll(s[|p|..], p), s, |p|);
    } else {
      RemoveAllSubseq(s[1..], p);
      var r := RemoveAll(s, p);
      assert r[0] == s[0] && r[1..] == RemoveAll(s[1..], p);
    }
  }

  lemma {:induction false} RemoveAllAbsent(s: string, p: string)
    requires |p| > 0 && !Occurs(s, p)
    ensures RemoveAll(s, p) == s
    decreases |s|
  {
    if |s| >= |p| {
      assert !OccursAt(s, p, 0);
      forall i | 0 <= i <= |s[1..]| && OccursAt(s[1..], p, i) ensures false {
        assert s[i + 1..i + 1 + |p|] == s[1..][i..i + |p|];
        assert OccursAt(s, p, i + 1);
      }
      RemoveAllAbsent(s[1..], p);
    }
  }

  lemma {:induction false} RemoveAllShrinks(s: string, p: string, i: int)
    requires |p| > 0 && OccursAt(s, p, i)
    ensures |RemoveAll(s, p)| < |s|
    decreases |s|
  {
    if s[..|p|] != p {
      assert i != 0;
      assert s[1..][i - 1..i - 1 + |p|] == s[i..i + |p|];
      RemoveAllShrinks(s[1..], p, i - 1);
    }
  }

  /** `s.replace(p, "")` leaves `s` unchanged exactly when `p` does not occur in it. */
  lemma RemoveAllUnchangedIff(s: string, p: string)
    requires |p| > 0
    ensures RemoveAll(s, p) == s <==> !Occurs(s, p)
  {
    if Occurs(s, p) {
      var i :| 0 <= i <= |s| && OccursAt(s, p, i);
      RemoveAllShrinks(s, p, i);
    } else {
      RemoveAllAbsent(s, p);
    }
  }

  /** Deleting `p` from `x + t` keeps `x` in front when no occurrence starts in `x`. */
  lemma {:induction false} RemoveAllKeep(x: string, t: string, p: string)
    requires |p| > 0
    requires forall i :: 0 <= i < |x| ==> !OccursAt(x + t, p, i)
    ensures RemoveAll(x + t, p) == x + RemoveAll(t, p)
    decreases |x|
  {
    if |x| == 0 {
      assert x + t == t;
    } else {
      assert !OccursAt(x + t, p, 0);
      assert (x + t)[1..] == x[1..] + t;
      forall i | 0 <= i < |x[1..]| ensures !OccursAt(x[1..] + t, p, i) {
        assert (x[1..] + t)[i..] == (x + t)[i + 1..];
        assert !OccursAt(x + t, p, i + 1);
      }
      RemoveAllKeep(x[1..], t, p);
    }
  }

  /** An occurrence at the front is deleted. */
  lemma RemoveAllHit(p: string, t: string)
    requires |p| > 0
    ensures RemoveAll(p + t, p) == RemoveAll(t, p)
  {
    assert (p + t)[..|p|] == p;
    assert (p + t)[|p|..] == t;
  }

  /** A text that occurs in `s` only at `a` is deleted there and nowhere else. */
  lemma RemoveOnlyOccurrence(s: string, a: nat, e: nat)
    requires a < e <= |s|
    requires forall i :: 0 <= i <= |s| && OccursAt(s, s[a..e], i) ==> i == a
    ensures RemoveAll(s, s[a..e]) == s[..a] + s[e..]
  {
    var g, x, t := s[a..e], s[..a], s[e..];
    var y := s[a..];
    NoOccurrenceBefore(s, g, a);
    NoOccurrenceAfter(s, g, a, e);
    assert x + y == s;
    RemoveAllKeep(x, y, g);
    assert y == g + t;
    RemoveAllHit(g, t);
    RemoveAllAbsent(t, g);
  }

  /** No occurrence starts in the text before the only one. */
  lemma NoOccurrenceBefore(s: string, g: string, a: nat)
    requires a <= |s|
    requires forall i :: 0 <= i <= |s| && OccursAt(s, g, i) ==> i == a
    ensures forall i :: 0 <= i < a ==> !OccursAt(s[..a] + s[a..], g, i)
  {
    assert s[..a] + s[a..] == s;
  }

  /** An occurrence in a suffix is an occurrence in the whole text, further right. */
  lemma NoOccurrenceAfter(s: string, g: string, a: nat, e: nat)
    requires a < e <= |s| && |g| > 0
    requires forall i :: 0 <= i <= |s| && OccursAt(s, g, i) ==> i == a
    ensures !Occurs(s[e..], g)
  {
    var t := s[e..];
    forall j | 0 <= j <= |t| ensures !OccursAt(t, g, j) {
      if j + |g| <= |t| {
        assert s[e + j..e + j + |g|] == t[j..j + |g|];
        assert OccursAt(t, g, j) ==> OccursAt(s, g, e + j);
      }
    }
  }

  /** Removing one character distributes over concatenation. */
  lemma {:induction false} RemoveCharAppend(a: string, b: string, c: char)
    ensures RemoveAll(a + b, [c]) == RemoveAll(a, [c]) + RemoveAll(b, [c])
    decreases |a|
  {
    if |a| > 0 {
      assert (a + b)[1..] == a[1..] + b;
      RemoveCharAppend(a[1..], b, c);
    } else {
      assert a + b == b;
    }
  }

  /** After `replace(c, "")` for one character `c`, no `c` is left. */
  lemma {:induction false} RemoveCharGone(s: string, c: char)
    ensures c !in RemoveAll(s, [c])
    decreases |s|
  {
    if |s| > 0 {
      RemoveCharGone(s[1..], c);
    }
  }

  /** A string without `c` is left alone by `replace(c, "")`. */
  lemma RemoveCharAbsent(s: string, c: char)
    requires c !in s
    ensures RemoveAll(s, [c]) == s
  {
    forall i | 0 <= i <= |s| ensures !OccursAt(s, [c], i) {
      if i + 1 <= |s| {
        assert s[i..i + 1] == [s[i]];
      }
    }
    RemoveAllAbsent(s, [c]);
  }

  /** `s.split(sep)`: the pieces between the separators, so always at least one. */
  function Split(s: string, sep: char): (r: seq<string>)
    ensures |r| >= 1
    ensures forall i :: 0 <= i < |r| ==> sep !in r[i]
    decreases |s|
  {
    if |s| == 0 then [""]
    else
      var rest := Split(s[1..], sep);
      if s[0] == sep then [""] + rest
      else [[s[0]] + rest[0]] + rest[1..]
  }

  /** `sep.join(pieces)`, the inverse of `Split`. */
  function Join(pieces: seq<string>, sep: char): string
    requires |pieces| >= 1
    decreases |pieces|
  {
    if |pieces| == 1 then pieces[0] else pieces[0] + [sep] + Join(pieces[1..], sep)
  }

  /** Joining the pieces again gives back the split string. */
  lemma {:induction false} JoinSplit(s: string, sep: char)
    ensures Join(Split(s, sep), sep) == s
    decreases |s|
  {
    if |s| > 0 {
      JoinSplit(s[1..], sep);
      var rest := Split(s[1..], sep);
      if s[0] != sep {
        if |rest| == 1 {
          assert Split(s, sep) == [[s[0]] + rest[0]];
        } else {
          assert Split(s, sep)[1..] == rest[1..];
          assert Join(rest, sep) == rest[0] + [sep] + Join(rest[1..], sep);
        }
      } else {
        assert Split(s, sep)[1..] == rest;
      }
    }
  }

  lemma {:induction false} SplitNoSep(a: string, sep: char)
    requires sep !in a
    ensures Split(a, sep) == [a]
    decreases |a|
  {
    if |a| > 0 {
      SplitNoSep(a[1..], sep);
      assert [a[0]] + a[1..] == a;
    }
  }

  /** A character missing from the text is missing from every piece. */
  lemma {:induction false} SplitKeepsOut(w: string, sep: char, c: char)
    requires c !in w
    ensures forall i :: 0 <= i < |Split(w, sep)| ==> c !in Split(w, sep)[i]
    decreases |w|
  {
    if |w| > 0 {
      SplitKeepsOut(w[1..], sep, c);
    }
  }

  lemma {:induction false} SplitAfterPiece(a: string, t: string, sep: char)
    requires sep !in a
    ensures Split(a + [sep] + t, sep) == [a] + Split(t, sep)
    decreases |a|
  {
    if |a| == 0 {
      assert a + [sep] + t == [sep] + t;
      assert ([sep] + t)[1..] == t;
    } else {
      assert (a + [sep] + t)[1..] == a[1..] + [sep] + t;
      SplitAfterPiece(a[1..], t, sep);
      var rest := Split(a[1..] + [sep] + t, sep);
      assert rest[0] == a[1..] && rest[1..] == Split(t, sep);
      assert [a[0]] + a[1..] == a;
    }
  }

  /** Splitting a join of separator-free pieces gives back the pieces. */
  lemma {:induction false} SplitJoin(pieces: seq<string>, sep: char)
    requires |pieces| >= 1
    requires forall i :: 0 <= i < |pieces| ==> sep !in pieces[i]
    ensures Split(Join(pieces, sep), sep) == pieces
    decreases |pieces|
  {
    if |pieces| == 1 {
      SplitNoSep(pieces[0], sep);
    } else {
      SplitJoin(pieces[1..], sep);
      SplitAfterPiece(pieces[0], Join(pieces[1..], sep), sep);
    }
  }

  /** What holds of every piece by index holds of every member. */
  lemma EveryPiece(pieces: seq<string>, c: char)
    requires forall i :: 0 <= i < |pieces| ==> c !in pieces[i]
    ensures forall x :: x in pieces ==> c !in x
  {
  }

  /** `[x for x in pieces if x != ""]`. */
  function NonEmpty(pieces: seq<string>): (r: seq<string>)
    ensures forall x :: x in r <==> x in pieces && x != ""
    ensures |r| <= |pieces|
    decreases |pieces|
  {
    if |pieces| == 0 then []
    else (if pieces[0] == "" then [] else [pieces[0]]) + NonEmpty(pieces[1..])
  }
}
