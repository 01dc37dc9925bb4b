/**
 * Properties proved about the parser model on lines of a given shape: plain text
 * followed by one token, and the quirks of matching on the original line and
 * deleting every occurrence. The concrete lines at the end are instances of these
 * shapes.
 */
module ParserExamples {
  import opened Results
  import opened Enums
  import opened Tasks
  import opened Text
  import opened Patterns
  import opened Parser

  /** Text that holds none of the characters the token syntax is keyed on. */
  predicate NoSyntax(w: string) {
    '!' !in w && '-' !in w && '#' !in w && '+' !in w
  }

  // ---------------------------------------------------------------------------
  // Helpers: searching and deleting in lines of a known shape

  /** A pattern whose lead holds a character absent from the line never matches. */
  lemma NoStartWithout(s: string, p: Pattern, k: nat)
    requires k < |p.lead| && p.lead[k] !in s
    ensures forall i: nat :: !StartsAt(s, p, i)
  {
    forall i: nat ensures !StartsAt(s, p, i) {
      if i + |p.lead| < |s| {
        assert s[i..i + |p.lead|][k] == s[i + k];
      }
    }
  }

  /** A line without `!` has no priority token. */
  lemma NoBangNoPriority(s: string)
    requires '!' !in s
    ensures forall i: nat :: !StartsAt(s, PriorityPattern, i)
  {
  }

  /** The leftmost match is found where the pattern first starts. */
  lemma FoundAt(s: string, p: Pattern, i: nat, e: nat)
    requires StartsAt(s, p, i) && forall j: nat :: j < i ==> !StartsAt(s, p, j)
    requires i + |p.lead| < e <= |s| && forall t :: i + |p.lead| <= t < e ==> InRun(s[t], p.run)
    requires e == |s| || !InRun(s[e], p.run)
    ensures Found(s, p) == Some(s[i..e])
  {
    var m := Search(s, p).value;
    assert m.start == i;
  }

  /** No occurrence of `p` starts in `x` when its second character is missing from
      `x` and does not open `t`. */
  lemma NoOccurrenceIn(x: string, t: string, p: string)
    requires |p| >= 2 && p[1] !in x
    requires |t| > 0 ==> t[0] != p[1]
    ensures forall i :: 0 <= i < |x| ==> !OccursAt(x + t, p, i)
  {
    forall i | 0 <= i < |x| ensures !OccursAt(x + t, p, i) {
      if i + |p| <= |x + t| {
        assert (x + t)[i..i + |p|][1] == (x + t)[i + 1];
        if i + 1 < |x| {
          assert (x + t)[i + 1] == x[i + 1];
        } else {
          assert (x + t)[i + 1] == t[0];
        }
      }
    }
  }

  /** A token whose lead opens with a space followed by a character absent from the
      text before it, and whose word has no space, is found right after that text. */
  lemma FoundAfterText(line: string, w: string, word: string, p: Pattern)
    requires |p.lead| >= 2 && p.lead[0] == ' ' && p.lead[1] != ' ' && p.lead[1] !in w
    requires p.run == NonSpaceRun && |word| >= 1 && ' ' !in word
    requires line == w + (p.lead + word)
    ensures Found(line, p) == Some(p.lead + word)
  {
    var n := |p.lead|;
    forall j: nat | j < |w| ensures !StartsAt(line, p, j) {
      if j + n < |line| {
        assert line[j..j + n][1] == line[j + 1];
        assert line[j + 1] == if j + 1 < |w| then w[j + 1] else ' ';
      }
    }
    assert line[|w|..|w| + n] == p.lead;
    forall t | |w| + n <= t < |line| ensures line[t] != ' ' {
      assert line[t] == word[t - |w| - n];
    }
    FoundAt(line, p, |w|, |line|);
    assert line[|w|..|line|] == p.lead + word;
  }

  // ---------------------------------------------------------------------------
  // Shapes

  /** Text followed by ` ` and `k` marks: the marks set the priority and the token
      is deleted. With empty text the task is the empty string. */
  lemma TrailingPriority(line: string, w: string, k: nat, id: Uuid)
    requires NoSyntax(w) && k >= 1 && line == w + " " + Bangs(k)
    ensures Parse(line, id).Ok?
    ensures var t := Parse(line, id).value;
      t.task == w && t.priority.Value() == BangRank(k)
      && t.status == TODO && t.tags == {} && t.context == Some("")
  {
    TrailingPriorityTokens(line, w, k);
    TrailingTokenDeleted(w, " " + Bangs(k));
    ParsePriority(line, id);
  }

  lemma TrailingPriorityTokens(line: string, w: string, k: nat)
    requires NoSyntax(w) && k >= 1 && line == w + " " + Bangs(k)
    ensures Found(line, PriorityPattern) == Some(" " + Bangs(k))
    ensures Found(line, StatusPattern).None? && Found(line, TagPattern).None?
    ensures Found(line, ProjectPattern).None?
    ensures line == w + (" " + Bangs(k))
  {
    var p := " " + Bangs(k);
    assert line == w + p;
    NoStartWithout(line, StatusPattern, 1);
    NoStartWithout(line, TagPattern, 1);
    NoStartWithout(line, ProjectPattern, 1);
    forall j: nat | j < |w| ensures !StartsAt(line, PriorityPattern, j) {
      assert line[j + 1] == if j + 1 < |w| then w[j + 1] else ' ';
    }
    FoundAt(line, PriorityPattern, |w|, |line|);
    assert line[|w|..|line|] == p;
  }

  /** A token after text that lacks the token's second character is deleted whole. */
  lemma TrailingTokenDeleted(w: string, g: string)
    requires |g| >= 2 && g[0] == ' ' && g[1] != ' ' && g[1] !in w
    ensures RemoveAll(w + g, g) == w
  {
    NoOccurrenceIn(w, g, g);
    RemoveAllKeep(w, g, g);
    RemoveAllHit(g, []);
    assert w + [] == w && g + [] == g;
  }

  /** Text followed by a status token: the call raises for the string `-s<word>`. */
  lemma TrailingStatus(line: string, w: string, word: string, id: Uuid)
    requires NoSyntax(w) && |word| >= 1 && ' ' !in word
    requires line == w + " -s " + word
    ensures Parse(line, id) == Err(NotAStatus(StrArg("-s" + word)))
  {
    assert line == w + (" -s " + word);
    FoundAfterText(line, w, word, StatusPattern);
    assert (" -s " + word)[4..] == word;
    ParseFailsIffStatusToken(line, id);
  }

  /** Text followed by a tag token: the tags are the non-empty `#`-pieces of its word
      and the token is deleted. */
  lemma TrailingTags(line: string, w: string, word: string, id: Uuid)
    requires NoSyntax(w) && |word| >= 1
    requires ' ' !in word && '!' !in word && '-' !in word && '+' !in word
    requires line == w + " # " + word
    ensures Parse(line, id).Ok?
    ensures var t := Parse(line, id).value;
      t.task == w && t.priority == MEDIUM && t.status == TODO
      && forall x :: x in t.tags <==> x != "" && x in Split(word, '#')
  {
    TrailingTagsTokens(line, w, word);
    TrailingTokenDeleted(w, " # " + word);
    assert (" # " + word)[3..] == word;
    ParsePriority(line, id);
    ParseTags(line, id);
  }

  lemma TrailingTagsTokens(line: string, w: string, word: string)
    requires NoSyntax(w) && |word| >= 1
    requires ' ' !in word && '!' !in word && '-' !in word && '+' !in word
    requires line == w + " # " + word
    ensures Found(line, TagPattern) == Some(" # " + word)
    ensures Found(line, PriorityPattern).None? && Found(line, StatusPattern).None?
    ensures Found(line, ProjectPattern).None?
    ensures line == w + (" # " + word)
  {
    var g := " # " + word;
    assert line == w + g;
    assert '!' !in line && '-' !in line && '+' !in line by {
      assert '!' !in g && '-' !in g && '+' !in g;
    }
    NoBangNoPriority(line);
    NoStartWithout(line, StatusPattern, 1);
    NoStartWithout(line, ProjectPattern, 1);
    FoundAfterText(line, w, word, TagPattern);
  }

  /** A line with no token is the task, with every field at its default. */
  lemma PlainLine(line: string, id: Uuid)
    requires '-' !in line && '#' !in line && '+' !in line
    requires forall i :: 0 <= i < |line| - 1 ==> !(line[i] == ' ' && line[i + 1] == '!')
    ensures Parse(line, id) == Ok(NewTask(line, id))
  {
    NoStartWithout(line, StatusPattern, 1);
    NoStartWithout(line, TagPattern, 1);
    NoStartWithout(line, ProjectPattern, 1);
    forall i: nat ensures !StartsAt(line, PriorityPattern, i) {
      if i + 1 < |line| {
        assert line[i..i + 1][0] == line[i];
      }
    }
    ParsePlainText(line, id);
  }

  /** A status marker at the very start of the line has no space before it, so it is
      not a token: the whole line, marker included, is the task. */
  lemma LeadingStatusMarker(line: string, word: string, id: Uuid)
    requires NoSyntax(word) && line == "-s " + word
    ensures Parse(line, id) == Ok(NewTask(line, id))
  {
    forall i: nat ensures !StartsAt(line, StatusPattern, i) {
      if i + 4 < |line| {
        assert line[i..i + 4][1] == line[i + 1];
        if i >= 2 {
          assert line[i + 1] == word[i - 2];
        }
      }
    }
    assert '!' !in line && '#' !in line && '+' !in line by {
      assert line == "-s " + word;
    }
    NoBangNoPriority(line);
    NoStartWithout(line, TagPattern, 1);
    NoStartWithout(line, ProjectPattern, 1);
    ParsePlainText(line, id);
  }

  /** `replace` deletes every occurrence of the matched text, not just the match: the
      same run of marks further on is deleted too. */
  lemma RepeatedPriority(line: string, a: string, b: string, k: nat, id: Uuid)
    requires NoSyntax(a) && NoSyntax(b) && k >= 1
    requires line == a + " " + Bangs(k) + b + " " + Bangs(k)
    ensures Parse(line, id).Ok?
    ensures var t := Parse(line, id).value;
      t.task == a + b && t.priority.Value() == BangRank(k) && t.tags == {}
  {
    var p := " " + Bangs(k);
    RepeatedPriorityTokens(line, a, b, k);
    RepeatedPriorityText(a, b, p);
    ParsePriority(line, id);
  }

  lemma RepeatedPriorityText(a: string, b: string, p: string)
    requires |p| >= 2 && p[0] == ' ' && p[1] == '!' && NoSyntax(a) && NoSyntax(b)
    ensures RemoveAll(a + (p + (b + p)), p) == a + b
  {
    NoOccurrenceIn(a, p + (b + p), p);
    RemoveAllKeep(a, p + (b + p), p);
    RemoveAllHit(p, b + p);
    TrailingTokenDeleted(b, p);
  }

  lemma RepeatedPriorityTokens(line: string, a: string, b: string, k: nat)
    requires NoSyntax(a) && NoSyntax(b) && k >= 1
    requires line == a + " " + Bangs(k) + b + " " + Bangs(k)
    ensures Found(line, PriorityPattern) == Some(" " + Bangs(k))
    ensures Found(line, StatusPattern).None? && Found(line, TagPattern).None?
    ensures Found(line, ProjectPattern).None?
    ensures line == a + ((" " + Bangs(k)) + (b + (" " + Bangs(k))))
  {
    var p := " " + Bangs(k);
    var rest := b + p;
    assert line == a + (p + rest);
    assert '-' !in line && '#' !in line && '+' !in line by {
      assert '-' !in p && '#' !in p && '+' !in p;
    }
    NoStartWithout(line, StatusPattern, 1);
    NoStartWithout(line, TagPattern, 1);
    NoStartWithout(line, ProjectPattern, 1);
    forall j: nat | j < |a| ensures !StartsAt(line, PriorityPattern, j) {
      assert line[j + 1] == if j + 1 < |a| then a[j + 1] else ' ';
    }
    var e := |a| + |p|;
    assert line[e] == rest[0];
    assert rest[0] == if |b| > 0 then b[0] else ' ';
    FoundAt(line, PriorityPattern, |a|, e);
    assert line[|a|..e] == p;
  }

  /** Tokens are found on the original line and then deleted one after the other. In
      `w # !!` the tag token ` # !!` and the priority token ` !!` overlap: deleting the
      priority first leaves ` #`, where the tag token no longer occurs, so ` #` stays
      in the task, while the tag `!!` is still taken from the original match. */
  lemma OverlappingTagAndPriority(line: string, w: string, k: nat, id: Uuid)
    requires NoSyntax(w) && k >= 1 && line == w + " # " + Bangs(k)
    ensures Parse(line, id).Ok?
    ensures var t := Parse(line, id).value;
      t.task == w + " #" && t.priority.Value() == BangRank(k) && t.tags == {Bangs(k)}
  {
    OverlappingTokens(line, w, k);
    ParsePriority(line, id);
    OverlappingTask(line, w, k, Found(line, PriorityPattern), Found(line, StatusPattern),
                    Found(line, TagPattern), Found(line, ProjectPattern));
    OverlappingTags(line, k, id);
  }

  lemma OverlappingTask(line: string, w: string, k: nat,
                         pt: Option<string>, st: Option<string>, tt: Option<string>,
                         jt: Option<string>)
    requires NoSyntax(w) && k >= 1 && line == w + " # " + Bangs(k)
    requires pt == Some(" " + Bangs(k)) && tt == Some(" # " + Bangs(k))
    requires st.None? && jt.None?
    ensures Strip(Strip(Strip(Strip(line, pt), st), tt), jt) == w + " #"
  {
    var x := w + " #";
    assert line == x + (" " + Bangs(k));
    OverlappingText(w, k);
  }

  lemma OverlappingTags(line: string, k: nat, id: Uuid)
    requires k >= 1
    requires Found(line, TagPattern) == Some(" # " + Bangs(k))
    requires Parse(line, id).Ok?
    ensures Parse(line, id).value.tags == {Bangs(k)}
  {
    ParseTags(line, id);
    assert (" # " + Bangs(k))[3..] == Bangs(k);
    SplitNoSep(Bangs(k), '#');
  }

  lemma OverlappingText(w: string, k: nat)
    requires NoSyntax(w) && k >= 1
    ensures RemoveAll((w + " #") + (" " + Bangs(k)), " " + Bangs(k)) == w + " #"
    ensures RemoveAll(w + " #", " # " + Bangs(k)) == w + " #"
  {
    var p := " " + Bangs(k);
    var g := " # " + Bangs(k);
    var x := w + " #";
    TrailingTokenDeleted(x, p);
    forall i | 0 <= i <= |x| ensures !OccursAt(x, g, i) {
      if i + |g| <= |x| {
        assert x[i..i + |g|][1] == x[i + 1];
        assert x[i + 1] == w[i + 1];
      }
    }
    RemoveAllAbsent(x, g);
  }

  lemma OverlappingTokens(line: string, w: string, k: nat)
    requires NoSyntax(w) && k >= 1 && line == w + " # " + Bangs(k)
    ensures Found(line, PriorityPattern) == Some(" " + Bangs(k))
    ensures Found(line, TagPattern) == Some(" # " + Bangs(k))
    ensures Found(line, StatusPattern).None? && Found(line, ProjectPattern).None?
  {
    var g := " # " + Bangs(k);
    assert line == w + g;
    assert '-' !in line && '+' !in line by {
      assert '-' !in g && '+' !in g;
    }
    NoStartWithout(line, StatusPattern, 1);
    NoStartWithout(line, ProjectPattern, 1);
    OverlappingPriorityToken(line, w, g, k);
    OverlappingTagToken(line, w, g, k);
  }

  lemma OverlappingPriorityToken(line: string, w: string, g: string, k: nat)
    requires NoSyntax(w) && k >= 1 && g == " # " + Bangs(k) && line == w + g
    ensures Found(line, PriorityPattern) == Some(" " + Bangs(k))
  {
    forall j: nat | j < |w| + 2 ensures !StartsAt(line, PriorityPattern, j) {
      if j + 1 < |w| {
        assert line[j + 1] == w[j + 1];
      } else {
        assert line[j + 1] == g[j + 1 - |w|];
      }
    }
    forall t | |w| + 3 <= t < |line| ensures line[t] == '!' {
      assert line[t] == g[t - |w|];
    }
    FoundAt(line, PriorityPattern, |w| + 2, |line|);
    assert line[|w| + 2..|line|] == g[2..] == " " + Bangs(k);
  }

  lemma OverlappingTagToken(line: string, w: string, g: string, k: nat)
    requires NoSyntax(w) && k >= 1 && g == " # " + Bangs(k) && line == w + g
    ensures Found(line, TagPattern) == Some(g)
  {
    assert ' ' !in Bangs(k);
    FoundAfterText(line, w, Bangs(k), TagPattern);
  }

  // ---------------------------------------------------------------------------
  // Concrete lines

  lemma GoToWork(line: string, id: Uuid)
    requires line == "go to work"
    ensures Parse(line, id) == Ok(Task("go to work", Some(""), TODO, MEDIUM, {}, id))
  {
    PlainLine(line, id);
  }

  lemma GoToWorkUrgent(line: string, id: Uuid)
    requires line == "go to work !!!"
    ensures Parse(line, id) == Ok(Task("go to work", Some(""), TODO, MEDIUM, {}, id))
  {
    assert "go to work" + " " + Bangs(3) == line;
    TrailingPriority(line, "go to work", 3, id);
    PriorityRoundTrip(Parse(line, id).value.priority, MEDIUM);
  }

  /** Marks with no space before them are plain text. */
  lemma MarksFirst(line: string, id: Uuid)
    requires line == "!!! go"
    ensures Parse(line, id) == Ok(Task("!!! go", Some(""), TODO, MEDIUM, {}, id))
  {
    PlainLine(line, id);
  }

  /** A line that is only a priority token leaves an empty task. */
  lemma OnlyMarks(line: string, id: Uuid)
    requires line == " !!!"
    ensures Parse(line, id) == Ok(Task("", Some(""), TODO, MEDIUM, {}, id))
  {
    assert "" + " " + Bangs(3) == line;
    TrailingPriority(line, "", 3, id);
    PriorityRoundTrip(Parse(line, id).value.priority, MEDIUM);
  }

  lemma BuyMilk(line: string, id: Uuid)
    requires line == "buy milk # groceries#urgent"
    ensures Parse(line, id) == Ok(Task("buy milk", Some(""), TODO, MEDIUM, {"groceries", "urgent"}, id))
  {
    var word := "groceries#urgent";
    BuyMilkLine(line);
    BuyMilkWord(word);
    TrailingTags(line, "buy milk", word, id);
    BuyMilkTags(Parse(line, id).value.tags, word);
  }

  lemma BuyMilkLine(line: string)
    requires line == "buy milk # groceries#urgent"
    ensures NoSyntax("buy milk") && line == "buy milk" + " # " + "groceries#urgent"
  {
  }

  lemma BuyMilkWord(word: string)
    requires word == "groceries#urgent"
    ensures |word| >= 1 && ' ' !in word && '!' !in word && '-' !in word && '+' !in word
    ensures word == Join(["groceries", "urgent"], '#')
  {
  }

  lemma BuyMilkTags(tags: set<string>, word: string)
    requires word == Join(["groceries", "urgent"], '#')
    requires forall x :: x in tags <==> x != "" && x in Split(word, '#')
    ensures tags == {"groceries", "urgent"}
  {
    SplitJoin(["groceries", "urgent"], '#');
  }

  /** Any status word makes the call raise, a valid one included. */
  lemma ReviewInProgress(line: string, id: Uuid)
    requires line == "review PR -s INPROGRESS"
    ensures Parse(line, id) == Err(NotAStatus(StrArg("-sINPROGRESS")))
  {
    ReviewInProgressFacts(line);
    TrailingStatus(line, "review PR", "INPROGRESS", id);
  }

  lemma ReviewInProgressFacts(line: string)
    requires line == "review PR -s INPROGRESS"
    ensures NoSyntax("review PR") && ' ' !in "INPROGRESS"
    ensures line == "review PR" + " -s " + "INPROGRESS" && "-s" + "INPROGRESS" == "-sINPROGRESS"
  {
  }

  lemma UnknownStatus(line: string, id: Uuid)
    requires line == "x -s MAYBE"
    ensures Parse(line, id) == Err(NotAStatus(StrArg("-sMAYBE")))
  {
    UnknownStatusFacts(line);
    TrailingStatus(line, "x", "MAYBE", id);
  }

  lemma UnknownStatusFacts(line: string)
    requires line == "x -s MAYBE"
    ensures NoSyntax("x") && ' ' !in "MAYBE"
    ensures line == "x" + " -s " + "MAYBE" && "-s" + "MAYBE" == "-sMAYBE"
  {
  }

  /** A status marker that opens the line is kept as text. */
  lemma StatusMarkerAlone(line: string, id: Uuid)
    requires line == "-s INPROGRESS"
    ensures Parse(line, id) == Ok(Task("-s INPROGRESS", Some(""), TODO, MEDIUM, {}, id))
  {
    assert "-s " + "INPROGRESS" == line;
    LeadingStatusMarker(line, "INPROGRESS", id);
  }

  lemma RepeatedMarks(line: string, id: Uuid)
    requires line == "a !! b !!"
    ensures Parse(line, id) == Ok(Task("a b", Some(""), TODO, LOW, {}, id))
  {
    RepeatedMarksFacts(line);
    RepeatedPriority(line, "a", " b", 2, id);
    PriorityRoundTrip(Parse(line, id).value.priority, LOW);
  }

  lemma RepeatedMarksFacts(line: string)
    requires line == "a !! b !!"
    ensures NoSyntax("a") && NoSyntax(" b") && line == "a" + " " + Bangs(2) + " b" + " " + Bangs(2)
    ensures "a" + " b" == "a b"
  {
  }

  lemma TagOfMarks(line: string, id: Uuid)
    requires line == "a # !!"
    ensures Parse(line, id) == Ok(Task("a #", Some(""), TODO, LOW, {"!!"}, id))
  {
    TagOfMarksFacts(line);
    OverlappingTagAndPriority(line, "a", 2, id);
    PriorityRoundTrip(Parse(line, id).value.priority, LOW);
  }

  lemma TagOfMarksFacts(line: string)
    requires line == "a # !!"
    ensures NoSyntax("a") && line == "a" + " # " + Bangs(2)
    ensures "a" + " #" == "a #" && Bangs(2) == "!!"
  {
  }
}
