/**
 * `parse_task_creation_syntax`: one line of free text with inline tokens becomes a
 * `Task`. The four tokens are searched for in the ORIGINAL line; then, in the order
 * priority, status, tags, projects, every occurrence of each matched text is deleted
 * from the line, and the token's payload, with its spaces removed, is turned into a
 * value. Whatever text is left is the task; it is neither trimmed nor checked.
 */
module Parser {
  import opened Results
  import opened Enums
  import opened Tasks
  import opened Text
  import opened Patterns

  /** `token.replace(" ", "")`. */
  function Squeeze(token: string): (r: string)
    ensures ' ' !in r
    ensures Subseq(r, token)
  {
    RemoveCharGone(token, ' ');
    RemoveAllSubseq(token, " ");
    RemoveAll(token, " ")
  }

  /** `text.replace(token, "")` when the token was found, else `text` as it is. */
  function Strip(text: string, token: Option<string>): (r: string)
    requires token.Some? ==> |token.value| > 0
    ensures Subseq(r, text) && |r| <= |text|
  {
    if token.Some? then
      RemoveAllSubseq(text, token.value);
      SubseqLength(RemoveAll(text, token.value), text);
      RemoveAll(text, token.value)
    else
      SubseqRefl(text);
      text
  }

  /** The payload of a tag or project token: its squeezed text split on `sep`, with
      the empty pieces dropped. */
  function Fragments(token: string, sep: char): (r: seq<string>)
    ensures forall x :: x in r ==> x != "" && sep !in x && ' ' !in x
  {
    SplitKeepsOut(Squeeze(token), sep, ' ');
    EveryPiece(Split(Squeeze(token), sep), sep);
    EveryPiece(Split(Squeeze(token), sep), ' ');
    NonEmpty(Split(Squeeze(token), sep))
  }

  /** The tag set of a ` # ` token. */
  function TagsOf(token: string): (r: set<string>)
    ensures "" !in r
    ensures forall x :: x in r ==> '#' !in x && ' ' !in x
  {
    set x | x in Fragments(token, '#')
  }

  /** The project list of a ` + ` token. */
  function ProjectsOf(token: string): (r: seq<string>)
    ensures forall i :: 0 <= i < |r| ==> r[i] != "" && '+' !in r[i] && ' ' !in r[i]
  {
    Fragments(token, '+')
  }

  /** `parse_task_creation_syntax(input)`, with the fresh identifier passed in. The
      `ValueError`s of `Priority(...)` and `Status(...)` become `Err`. The project
      list is computed and then dropped: no field of `Task` holds it. */
  function Parse(input: string, id: Uuid): (r: Result<Task, ValueError>)
    ensures r.Ok? ==> r.value.id == id && r.value.context == Some("")
    ensures r.Ok? ==> TagsWellFormed(r.value)
    ensures r.Ok? ==> r.value.status == TODO
  {
    var priorityToken := Found(input, PriorityPattern);
    var statusToken := Found(input, StatusPattern);
    var tagToken := Found(input, TagPattern);
    var projectToken := Found(input, ProjectPattern);
    var text1 := Strip(input, priorityToken);
    var priority :=
      if priorityToken.Some? then PriorityOf(StrArg(Squeeze(priorityToken.value))) else Ok(MEDIUM);
    if priority.Err? then Err(priority.error)
    else
      var text2 := Strip(text1, statusToken);
      var status :=
        if statusToken.Some? then StatusOf(StrArg(Squeeze(statusToken.value))) else Ok(TODO);
      if status.Err? then Err(status.error)
      else
        var text3 := Strip(text2, tagToken);
        var tags := if tagToken.Some? then TagsOf(tagToken.value) else {};
        var text4 := Strip(text3, projectToken);
        var projects := if projectToken.Some? then ProjectsOf(projectToken.value) else [];
        Ok(Task(text4, Some(""), status.value, priority.value, tags, id))
  }

  // ---------------------------------------------------------------------------
  // Payloads

  /** Squeezing a token whose run has no space only squeezes its lead. */
  lemma SqueezeToken(g: string, lead: string)
    requires |lead| <= |g| && g[..|lead|] == lead
    requires forall t :: |lead| <= t < |g| ==> g[t] != ' '
    ensures Squeeze(g) == Squeeze(lead) + g[|lead|..]
  {
    assert g == lead + g[|lead|..];
    RemoveCharAppend(lead, g[|lead|..], ' ');
    RemoveCharAbsent(g[|lead|..], ' ');
  }

  /** A priority token is a space and a run of `k >= 1` marks; squeezed, it is the
      run alone, which `Priority` always accepts. So the parser never fails on it. */
  lemma PriorityTokenAccepted(s: string)
    requires Found(s, PriorityPattern).Some?
    ensures var g := Found(s, PriorityPattern).value;
      Squeeze(g) == g[1..] && Squeeze(g) == Bangs(|g| - 1)
      && PriorityOf(StrArg(Squeeze(g))).Ok?
      && PriorityOf(StrArg(Squeeze(g))).value.Value() == BangRank(|g| - 1)
  {
    var g := Found(s, PriorityPattern).value;
    SqueezeToken(g, " ");
    assert Squeeze(" ") == "";
    assert g[1..] == Bangs(|g| - 1);
  }

  /** A status token squeezed is `-s` glued to its word, a string, and `Status` takes
      only integers: it always raises. */
  lemma StatusTokenRejected(s: string)
    requires Found(s, StatusPattern).Some?
    ensures var g := Found(s, StatusPattern).value;
      Squeeze(g) == "-s" + g[4..]
      && StatusOf(StrArg(Squeeze(g))) == Err(NotAStatus(StrArg("-s" + g[4..])))
  {
    var g := Found(s, StatusPattern).value;
    SqueezeToken(g, " -s ");
    assert Squeeze(" -s ") == "-s";
  }

  /** The fragments of a tag or project token are exactly the non-empty pieces of its
      word split on the delimiter; none holds the delimiter or a space. */
  lemma FragmentsOfToken(g: string, lead: string, sep: char)
    requires |lead| <= |g| && g[..|lead|] == lead
    requires Squeeze(lead) == [sep]
    requires forall t :: |lead| <= t < |g| ==> g[t] != ' '
    ensures forall x :: x in Fragments(g, sep) <==> x != "" && x in Split(g[|lead|..], sep)
    ensures forall x :: x in Fragments(g, sep) ==> sep !in x && ' ' !in x
  {
    var w := g[|lead|..];
    SqueezeToken(g, lead);
    assert Squeeze(g) == [sep] + w;
    assert ([sep] + w)[1..] == w;
    assert Split(Squeeze(g), sep) == [""] + Split(w, sep);
    SplitKeepsOut(w, sep, ' ');
  }

  // ---------------------------------------------------------------------------
  // Properties of Parse

  /** The call fails exactly when a status token is present, and then with the
      `ValueError` for the string `-s<word>`; no other input makes it fail. */
  lemma ParseFailsIffStatusToken(s: string, id: Uuid)
    ensures Parse(s, id).Err? <==> Found(s, StatusPattern).Some?
    ensures Found(s, StatusPattern).Some? ==>
      Parse(s, id) == Err(NotAStatus(StrArg("-s" + Found(s, StatusPattern).value[4..])))
  {
    if Found(s, PriorityPattern).Some? {
      PriorityTokenAccepted(s);
    }
    if Found(s, StatusPattern).Some? {
      StatusTokenRejected(s);
    }
  }

  /** Without a status token the call succeeds; the priority is MEDIUM when there is no
      ` !` run, and otherwise the rank of the leftmost run's length, saturating. */
  lemma ParsePriority(s: string, id: Uuid)
    requires Found(s, StatusPattern).None?
    ensures Parse(s, id).Ok?
    ensures Found(s, PriorityPattern).None? ==> Parse(s, id).value.priority == MEDIUM
    ensures Found(s, PriorityPattern).Some? ==>
      Parse(s, id).value.priority.Value() == BangRank(|Found(s, PriorityPattern).value| - 1)
  {
    if Found(s, PriorityPattern).Some? {
      PriorityTokenAccepted(s);
    }
  }

  /** The tags are the non-empty `#`-pieces of the leftmost tag token's word; no tag is
      empty or holds a `#` or a space. */
  lemma ParseTags(s: string, id: Uuid)
    requires Parse(s, id).Ok?
    ensures Found(s, TagPattern).None? ==> Parse(s, id).value.tags == {}
    ensures Found(s, TagPattern).Some? ==> forall x :: x in Parse(s, id).value.tags <==>
      x != "" && x in Split(Found(s, TagPattern).value[3..], '#')
    ensures forall x :: x in Parse(s, id).value.tags ==> x != "" && '#' !in x && ' ' !in x
  {
    if Found(s, TagPattern).Some? {
      var g := Found(s, TagPattern).value;
      assert Squeeze(" # ") == "#";
      FragmentsOfToken(g, " # ", '#');
    }
  }

  /** The project token's list is made of non-empty `+`-pieces of its word, yet the task
      carries none of it: with only a project token, the result is the default task
      over the line with that token deleted. */
  lemma ParseDropsProjects(s: string, id: Uuid)
    requires Found(s, PriorityPattern).None? && Found(s, StatusPattern).None?
    requires Found(s, TagPattern).None? && Found(s, ProjectPattern).Some?
    ensures forall x :: x in ProjectsOf(Found(s, ProjectPattern).value) <==>
      x != "" && x in Split(Found(s, ProjectPattern).value[3..], '+')
    ensures Parse(s, id) == Ok(NewTask(RemoveAll(s, Found(s, ProjectPattern).value), id))
  {
    assert Squeeze(" + ") == "+";
    FragmentsOfToken(Found(s, ProjectPattern).value, " + ", '+');
  }

  /** With no token at all, the line itself is the task and every field is default. */
  lemma ParsePlainText(s: string, id: Uuid)
    requires forall i: nat :: !StartsAt(s, PriorityPattern, i)
    requires forall i: nat :: !StartsAt(s, StatusPattern, i)
    requires forall i: nat :: !StartsAt(s, TagPattern, i)
    requires forall i: nat :: !StartsAt(s, ProjectPattern, i)
    ensures Parse(s, id) == Ok(NewTask(s, id))
  {
  }

  /** The task text is the line with characters deleted and nothing added. */
  lemma ParseOnlyDeletes(s: string, id: Uuid)
    requires Parse(s, id).Ok?
    ensures Subseq(Parse(s, id).value.task, s)
    ensures |Parse(s, id).value.task| <= |s|
  {
    var t1 := Strip(s, Found(s, PriorityPattern));
    var t2 := Strip(t1, Found(s, StatusPattern));
    var t3 := Strip(t2, Found(s, TagPattern));
    var t4 := Strip(t3, Found(s, ProjectPattern));
    SubseqTrans(t2, t1, s);
    SubseqTrans(t3, t2, s);
    SubseqTrans(t4, t3, s);
  }

  /** With a single token class present, whose matched text occurs nowhere else in
      the line, the task is the line with exactly that match cut out. A status token
      is left out: it always fails. */
  lemma ParseSingleToken(s: string, id: Uuid, p: Pattern)
    requires p == PriorityPattern || p == TagPattern || p == ProjectPattern
    requires Search(s, p).Some? && Search(s, StatusPattern).None?
    requires p != PriorityPattern ==> Search(s, PriorityPattern).None?
    requires p != TagPattern ==> Search(s, TagPattern).None?
    requires p != ProjectPattern ==> Search(s, ProjectPattern).None?
    requires forall i :: 0 <= i <= |s| && OccursAt(s, Found(s, p).value, i) ==>
      i == Search(s, p).value.start
    ensures Parse(s, id).Ok?
    ensures Parse(s, id).value.task == s[..Search(s, p).value.start] + s[Search(s, p).value.end..]
  {
    var m := Search(s, p).value;
    MatchShape(s, p, m);
    assert Found(s, p) == Some(s[m.start..m.end]);
    RemoveOnlyOccurrence(s, m.start, m.end);
    if p == PriorityPattern {
      PriorityTokenAccepted(s);
    }
  }

  /** The identifier is the only thing that depends on it: two calls on the same line
      agree on success and on every other field. */
  lemma ParseIdOnly(s: string, id1: Uuid, id2: Uuid)
    ensures Parse(s, id1).Ok? == Parse(s, id2).Ok?
    ensures Parse(s, id1).Ok? ==> Parse(s, id1).value.(id := id2) == Parse(s, id2).value
    ensures Parse(s, id1).Err? ==> Parse(s, id1) == Parse(s, id2)
  {
  }
}
