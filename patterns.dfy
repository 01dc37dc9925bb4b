/**
 * The four fixed regular expressions of the task-creation syntax and `re.search`
 * over them. Each has the shape "a literal lead, then one or more characters of a
 * class", so a search is: the leftmost index where the lead is followed by at least
 * one character of the class, and from there the longest such run (the quantifier
 * is greedy and nothing follows it in the pattern).
 */
module Patterns {
  import opened Results

  /** The repeated character class at the end of a pattern. */
  datatype RunClass =
    | BangRun      // `!+`
    | NonSpaceRun  // `[^ ]+`: anything but the space character

  predicate InRun(c: char, k: RunClass) {
    match k
    case BangRun => c == '!'
    case NonSpaceRun => c != ' '
  }

  datatype Pattern = Pattern(lead: string, run: RunClass)

  /** `( !+)` */
  const PriorityPattern := Pattern(" ", BangRun)
  /** `( -s [^ ]+)` */
  const StatusPattern := Pattern(" -s ", NonSpaceRun)
  /** `( # [^ ]+)` */
  const TagPattern := Pattern(" # ", NonSpaceRun)
  /** `( \+ [^ ]+)` */
  const ProjectPattern := Pattern(" + ", NonSpaceRun)

  /** A match of the whole pattern: `s[start..end]`. */
  datatype Span = Span(start: nat, end: nat)

  /** The pattern can match starting at index `i`. */
  predicate StartsAt(s: string, p: Pattern, i: nat) {
    i + |p.lead| < |s| && s[i..i + |p.lead|] == p.lead && InRun(s[i + |p.lead|], p.run)
  }

  /** Where the longest run of the class starting at `j` ends. */
  function RunEnd(s: string, k: RunClass, j: nat): (e: nat)
    requires j <= |s|
    ensures j <= e <= |s|
    ensures forall t :: j <= t < e ==> InRun(s[t], k)
    ensures e == |s| || !InRun(s[e], k)
    decreases |s| - j
  {
    if j == |s| || !InRun(s[j], k) then j else RunEnd(s, k, j + 1)
  }

  /** `m` is the greedy match of `p` that starts at `m.start`. */
  predicate IsMatchAt(s: string, p: Pattern, m: Span) {
    StartsAt(s, p, m.start) && m.end == RunEnd(s, p.run, m.start + |p.lead|)
  }

  /** `re.search` from index `from` on. */
  function SearchFrom(s: string, p: Pattern, from: nat): (r: Option<Span>)
    ensures r.Some? ==> from <= r.value.start && IsMatchAt(s, p, r.value)
    ensures r.Some? ==> forall i: nat :: from <= i < r.value.start ==> !StartsAt(s, p, i)
    ensures r.None? ==> forall i: nat :: from <= i ==> !StartsAt(s, p, i)
    decreases |s| - from
  {
    if from >= |s| then None
    else if StartsAt(s, p, from) then Some(Span(from, RunEnd(s, p.run, from + |p.lead|)))
    else SearchFrom(s, p, from + 1)
  }

  /** `re.search(p, s)`: the leftmost match, or none. */
  function Search(s: string, p: Pattern): (r: Option<Span>)
    ensures r.Some? ==> IsMatchAt(s, p, r.value)
    ensures r.Some? ==> forall i: nat :: i < r.value.start ==> !StartsAt(s, p, i)
    ensures r.None? <==> forall i: nat :: !StartsAt(s, p, i)
  {
    SearchFrom(s, p, 0)
  }

  /** The text of a match is the lead followed by a non-empty run of the class, and
      the run cannot be extended: the character after it, if any, is outside the class. */
  lemma MatchShape(s: string, p: Pattern, m: Span)
    requires IsMatchAt(s, p, m)
    ensures m.start + |p.lead| < m.end <= |s|
    ensures s[m.start..m.start + |p.lead|] == p.lead
    ensures forall t :: m.start + |p.lead| <= t < m.end ==> InRun(s[t], p.run)
    ensures m.end == |s| || !InRun(s[m.end], p.run)
  {
  }

  /** `re.search(p, s).group()`, or none: the lead followed by a non-empty run of
      the class. */
  function Found(s: string, p: Pattern): (g: Option<string>)
    ensures g.Some? <==> Search(s, p).Some?
    ensures g.Some? ==> |g.value| > |p.lead| && g.value[..|p.lead|] == p.lead
    ensures g.Some? ==> forall t :: |p.lead| <= t < |g.value| ==> InRun(g.value[t], p.run)
  {
    match Search(s, p)
    case None => None
    case Some(m) =>
      MatchShape(s, p, m);
      Some(s[m.start..m.end])
  }
}
