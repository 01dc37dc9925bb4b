# Task-creation syntax of the todo tool

This project models the tool's task-creation micro-syntax. The function
`parse_task_creation_syntax` turns one line of free text into a `Task`. Inline
tokens in the line set the task's fields:

- ` !!!` sets the priority;
- ` -s WORD` sets the status;
- ` # a#b` sets the tags;
- ` + p+q` names projects.

The model also covers the domain types the parser depends on:

- `Priority`, with its `_missing_` hook that maps a run of `!` to a level;
- `Status`;
- `Task`, in both of its shapes: with an identifier in `core/todo.py` and
  `core/pydantic_classes.py`, and without one in `todo.py`.

The repository declares these types three times, almost word for word. Each
is modelled once, and the table below cites every copy a member models.

The files follow the program's structure:

- `results.dfy`: `Option` and `Result`.
- `enums.dfy`: `Priority(...)` and `Status(...)`, with their `ValueError` path.
- `tasks.dfy`: both `Task` shapes and their defaults.
- `text.dfy`: the string built-ins the parser uses:
  - `str.replace(x, "")` as delete-every-occurrence, left to right, without overlap;
  - `str.split`;
  - the comprehension that drops empty pieces.
- `patterns.dfy`: the four fixed regular expressions and `re.search`. Each is a
  literal lead followed by a greedy run of one character class, searched
  leftmost first.
- `parser.dfy`: the parser and its properties.
- `examples.dfy`: properties proved about the model on line shapes and on concrete lines.

The parser is modelled as the code is written:

- All four tokens are looked for in the original line.
- Every occurrence of each matched text is then deleted, in the order
  priority, status, tags, projects.
- The payload of a priority token, with its spaces removed, is a run of `!`.
  `Priority` always accepts it.
- The payload of a status token, with its spaces removed, is `-s<word>`.
  `Status` accepts only its integer values 1..5, so any status token makes
  the call raise `ValueError`. This includes a valid name such as `INPROGRESS`.
- The project list is computed and then dropped.
- The remaining text becomes the task exactly as it is; `ParserExamples.OnlyMarks`
  proves that `" !!!"` gives the empty task.

The parser's own docstring lists the statuses TODO, INPROGRESS, BLOCKED,
WAITINGFOR and DONE for `-s` (core/todo.py:102). Yet the status token reaches
`Status` as the string `-s<word>`, and `Status` has no hook for strings, so a
listed status name is never accepted. `ParserExamples.ReviewInProgress` proves
that `"review PR -s INPROGRESS"` raises `ValueError` for `-sINPROGRESS`.

## Model

| member | source | states |
|---|---|---|
| Enums.LookupPriority | core/pydantic_classes.py:8-17 | the enum's own value lookup succeeds exactly on the integers 1..5 and returns the member with that value; a string never matches |
| Enums.MissingPriority | core/pydantic_classes.py:19-39 | `_missing_` yields a member exactly for a non-empty all-`!` string, and its value is the saturating rank of the count (5 or more → 1, else 6 − count); the empty string yields nothing |
| Enums.PriorityOf | core/todo.py:16-47 | `Priority(x)` succeeds on an integer iff it is in 1..5 (member with that value), on a string iff it is a non-empty run of `!` (rank of its length); every other input is the `ValueError` for that input |
| Enums.StatusOf | core/pydantic_classes.py:42-47 | `Status(x)` succeeds iff `x` is an integer in 1..5 and returns the member with that value; there is no fallback, so every string is the `ValueError` for it |
| Enums.PriorityRoundTrip | core/pydantic_classes.py:8-17 | `Priority(p.value) == p` for every member, and distinct members have distinct values |
| Enums.StatusRoundTrip | todo.py:47-52 | `Status(s.value) == s` for every member, and distinct members have distinct values |
| Enums.BangTable | todo.py:24-44 | one, two, three and four marks give SOMEDAY, LOW, MEDIUM, HIGH; five or more give CRITICAL |
| Enums.MoreBangsNoLessUrgent | core/pydantic_classes.py:28-37 | adding a `!` to a run never raises the numeric priority value, i.e. never makes the task less urgent |
| Enums.PriorityRejects | core/todo.py:27-47 | integers outside 1..5, strings holding any non-`!` character, and the empty string all raise `ValueError` |
| Tasks.NewTask | core/pydantic_classes.py:64-77 | `Task(task=text, id=id)` keeps the text and identifier, has no empty tag, and agrees with the id-less shape given context "" |
| Tasks.NewLegacyTask | todo.py:55-64 | the id-less `Task(task=text, context=c)` keeps both, with status value 1 (TODO), priority value 3 (MEDIUM) and no tags |
| Tasks.DefaultsAgree | core/pydantic_classes.py:64-77 | a task built with only its text has context "", status TODO, priority MEDIUM and no tags, the same defaults as the id-less `Task` of todo.py:55-64 given context ""; it has no empty tag; only the identifier tells two such tasks apart |
| Text.RemoveAll | core/todo.py:119 | `text.replace(m, "")` never lengthens the text |
| Text.RemoveAllSubseq | core/todo.py:119 | the result of `replace(m, "")` is a subsequence of the text: characters are only deleted |
| Text.RemoveAllAbsent | core/todo.py:127 | a text in which `m` does not occur is left unchanged |
| Text.RemoveAllShrinks | core/todo.py:136 | a text in which `m` occurs gets strictly shorter |
| Text.RemoveOnlyOccurrence | core/todo.py:119 | a text that occurs in the line only at one place is deleted there and the rest of the line is kept in order |
| Text.NoOccurrenceBefore | core/todo.py:119 | when a text occurs only at one index, no occurrence starts before it |
| Text.NoOccurrenceAfter | core/todo.py:119 | when a text occurs only at one index, it does not occur after its end |
| Text.RemoveAllUnchangedIff | core/todo.py:147 | `replace(m, "")` leaves the text unchanged if and only if `m` does not occur in it |
| Text.RemoveCharAppend | core/todo.py:120 | removing spaces distributes over concatenation |
| Text.RemoveCharGone | core/todo.py:128 | after `replace(" ", "")` no space is left |
| Text.RemoveCharAbsent | core/todo.py:137 | `replace(" ", "")` on a text without spaces is the identity |
| Text.Split | core/todo.py:138 | `str.split(sep)` gives at least one piece and no piece holds `sep` |
| Text.JoinSplit | core/todo.py:138 | joining the pieces of `split(sep)` with `sep` gives the text back |
| Text.SplitJoin | core/todo.py:149 | splitting a join of `sep`-free pieces (at least one) gives exactly those pieces back |
| Text.SplitNoSep | core/todo.py:149 | a text without `sep` splits into itself alone |
| Text.SplitAfterPiece | core/todo.py:138 | a `sep`-free piece followed by `sep` splits off as the first piece |
| Text.NonEmpty | core/todo.py:139 | the comprehension keeps exactly the non-empty pieces and never adds any |
| Text.SubseqTrans | core/todo.py:119-147 | deletions compose: a subsequence of a subsequence is a subsequence |
| Text.SubseqDrop | core/todo.py:119 | a subsequence of a suffix is a subsequence of the whole text |
| Text.SubseqRefl | core/todo.py:119 | a text is a subsequence of itself (the no-match branch) |
| Patterns.RunEnd | core/todo.py:110-114 | the greedy `+` run: every character up to the end is in the class and the character at the end, if any, is not |
| Patterns.SearchFrom | core/todo.py:110-114 | searching from an index finds the first start of the pattern at or after it, with its greedy run, or proves there is none |
| Patterns.Search | core/todo.py:110-114 | `re.search` finds a match iff the pattern starts somewhere, and then the leftmost one with its greedy run |
| Patterns.MatchShape | core/todo.py:110-114 | a match is the lead followed by a non-empty, non-extensible run of the class |
| Patterns.Found | core/todo.py:118 | `.group()` is present iff the search matched, and is the lead followed by a non-empty run of the class |
| Parser.Parse | core/todo.py:98-160 | on success the task carries the given identifier, context "", status TODO (every status token raises) and no empty tag |
| Parser.Squeeze | core/todo.py:120 | `token.replace(" ", "")` leaves no space and only deletes characters of the token (also lines 128, 137, 148) |
| Parser.Strip | core/todo.py:117-119 | `input.replace(match, "")` under `if match` only deletes characters of the line and never lengthens it (also lines 125-127, 134-136, 145-147) |
| Parser.Fragments | core/todo.py:137-139 | the split-and-filter payload has no empty piece and no piece holding the delimiter or a space |
| Parser.TagsOf | core/todo.py:134-140 | the tag set never holds "" and no tag holds `#` or a space |
| Parser.ProjectsOf | core/todo.py:145-150 | every project fragment is non-empty and holds neither `+` nor a space |
| Parser.ParseSingleToken | core/todo.py:110-150 | when a single priority, tag or project token is found and its text occurs nowhere else in the line, the call succeeds and the task is the line with exactly that match cut out |
| Parser.SqueezeToken | core/todo.py:120 | a token whose run has no space loses only the spaces of its lead |
| Parser.PriorityTokenAccepted | core/todo.py:117-121 | the squeezed priority token is exactly its run of marks, which `Priority` always accepts with the rank of its length |
| Parser.StatusTokenRejected | core/todo.py:125-129 | the squeezed status token is `-s<word>`, which `Status` always rejects |
| Text.SplitKeepsOut | core/todo.py:138 | splitting a text without some character gives pieces without it |
| Parser.FragmentsOfToken | core/todo.py:134-140 | the payload pieces of a ` # ` / ` + ` token are exactly the non-empty `sep`-pieces of its word, and none holds `sep` or a space |
| Parser.ParseFailsIffStatusToken | core/todo.py:111 | the call fails if and only if a status token is present, and then with the `ValueError` for `-s<word>`; no other input makes it fail (see also 125-129) |
| Parser.ParsePriority | core/todo.py:117-123 | without a status token the call succeeds; priority is MEDIUM without a ` !` run, otherwise the rank of the leftmost run's length |
| Parser.ParseTags | core/todo.py:132-142 | tags are empty without a tag token, otherwise exactly the non-empty `#`-pieces of the token's word; no tag is empty or holds `#` or a space |
| Parser.ParseDropsProjects | core/todo.py:143-159 | the project list is the non-empty `+`-pieces of the token's word, yet the result is the default task over the line with the token deleted |
| Parser.ParsePlainText | core/todo.py:152-159 | a line where no pattern starts anywhere is the task as it is, with every field at its default |
| Parser.ParseOnlyDeletes | core/todo.py:119-153 | the task text is a subsequence of the line and no longer than it |
| Text.SubseqLength | core/todo.py:153 | a subsequence is no longer than the text it is taken from |
| Parser.ParseIdOnly | core/todo.py:158 | the identifier affects nothing but the `id` field: two calls on one line agree on success, on the error and on every other field |
| ParserExamples.NoStartWithout | core/todo.py:111-114 | a pattern whose lead holds a character absent from the line matches nowhere |
| ParserExamples.NoBangNoPriority | core/todo.py:110 | a line without `!` has no priority token |
| ParserExamples.FoundAt | core/todo.py:110-118 | where the pattern first starts, with its maximal run, is what `.group()` returns |
| ParserExamples.FoundAfterText | core/todo.py:111-114 | a ` -s `, ` # ` or ` + ` token after text that lacks its marker character is found whole, right after that text |
| Text.RemoveAllKeep | core/todo.py:119 | deleting a text whose occurrences all start after a prefix keeps that prefix in front |
| Text.RemoveAllHit | core/todo.py:119 | an occurrence at the front is deleted |
| ParserExamples.NoOccurrenceIn | core/todo.py:119 | no occurrence can start inside text lacking the deleted text's second character |
| ParserExamples.TrailingPriority | core/todo.py:117-121 | text then ` ` and `k` marks: the task is the text, the priority the rank of `k`, all else default |
| ParserExamples.TrailingPriorityTokens | core/todo.py:110-114 | on such a line only the priority token is found, and it is the whole trailing run |
| ParserExamples.TrailingTokenDeleted | core/todo.py:119 | a trailing token is deleted whole, leaving the text before it |
| ParserExamples.TrailingStatus | core/todo.py:125-129 | text then ` -s word`: the call raises the `ValueError` for `-s<word>` |
| ParserExamples.TrailingTags | core/todo.py:134-140 | text then ` # word`: the task is the text and the tags are the non-empty `#`-pieces of `word` |
| ParserExamples.TrailingTagsTokens | core/todo.py:110-114 | on such a line only the tag token is found, and it is the whole trailing token |
| ParserExamples.PlainLine | core/todo.py:110-114 | a line with no `-`, `#`, `+` and no space before a `!` is the task as it is, every field default |
| ParserExamples.LeadingStatusMarker | core/todo.py:111 | a status marker at the very start has no space before it, so the whole line stays the task |
| ParserExamples.RepeatedPriority | core/todo.py:119 | `replace` deletes every occurrence: `a !! b !!`-shaped lines lose both runs |
| ParserExamples.RepeatedPriorityText | core/todo.py:119 | deleting the marks token from `a` + token + `b` + token leaves `a` + `b` |
| ParserExamples.RepeatedPriorityTokens | core/todo.py:110 | on such a line the leftmost run is the token and no other pattern matches |
| ParserExamples.OverlappingTagAndPriority | core/todo.py:110-142 | in `w # !!` the priority token ` !!` is deleted first, so ` #` stays in the task, while the tag `!!` still comes from the original match |
| ParserExamples.OverlappingTask | core/todo.py:119-136 | the four deletions leave `w #` on such a line |
| ParserExamples.OverlappingTags | core/todo.py:134-140 | the tags of such a line are exactly the run of marks |
| ParserExamples.OverlappingText | core/todo.py:136 | after the priority run is gone the tag token no longer occurs, so its deletion changes nothing |
| ParserExamples.OverlappingTokens | core/todo.py:110-114 | on such a line the priority and tag tokens overlap and both are found; no status or project token is |
| ParserExamples.OverlappingPriorityToken | core/todo.py:110 | the priority token found there is the trailing ` ` and marks |
| ParserExamples.OverlappingTagToken | core/todo.py:113 | the tag token found there is the whole trailing ` # ` and marks |
| ParserExamples.GoToWork | core/todo.py:152-159 | `"go to work"` is a default task with that text |
| ParserExamples.GoToWorkUrgent | core/todo.py:185-187 | `"go to work !!!"` gives task `"go to work"` with priority MEDIUM |
| ParserExamples.MarksFirst | core/todo.py:110 | `"!!! go"` keeps its marks in the text and has priority MEDIUM |
| ParserExamples.OnlyMarks | core/todo.py:153 | `" !!!"` gives the empty task |
| ParserExamples.BuyMilk | core/todo.py:134-140 | `"buy milk # groceries#urgent"` gives task `"buy milk"` and tags {groceries, urgent} |
| ParserExamples.BuyMilkTags | core/todo.py:138-140 | the non-empty `#`-pieces of `groceries#urgent` are exactly groceries and urgent |
| ParserExamples.ReviewInProgress | core/todo.py:125-129 | `"review PR -s INPROGRESS"` raises the `ValueError` for `-sINPROGRESS` |
| ParserExamples.UnknownStatus | core/todo.py:125-129 | `"x -s MAYBE"` raises the `ValueError` for `-sMAYBE` |
| ParserExamples.StatusMarkerAlone | core/todo.py:111 | `"-s INPROGRESS"` is a default task with that very text |
| ParserExamples.RepeatedMarks | core/todo.py:119 | `"a !! b !!"` gives task `"a b"` with priority LOW |
| ParserExamples.TagOfMarks | core/todo.py:110-142 | `"a # !!"` gives task `"a #"`, priority LOW and tags {"!!"} |

## Left out

- File I/O on the markdown checklist is not modelled: `add_todo` and `list_todos` in core/todo.py:163-182 and todo.py, and the module-level path and console objects.
- The command-line front end and console rendering are not modelled: `main` in todo.py, interface/cli and display. They are argument parsing and output only.
- The PostgreSQL store is not modelled (database/): it is network, SQL and environment access. Only the enum value round trip it relies on is stated, as `Enums.PriorityRoundTrip` and `Enums.StatusRoundTrip`.
- `uuid4()` is randomness, so the identifier is a parameter of `Parser.Parse`. Uniqueness across calls is not modelled.
- chatapp/, obsidian/ and storage/ are not part of this model. They are an external chat library, wall-clock and filesystem access, and empty stubs.
- `Profile`, `Document` and `Project` are declared but never used by the parser, so they are not modelled.
- pydantic's validation machinery beyond the field defaults is not modelled. The `Task` fields are typed directly.
- Python's general regular-expression engine is not modelled. Only the four fixed patterns the parser uses are, each as a leftmost search for a literal lead and a greedy run.
- Strings are sequences of characters. Unicode details of Python strings (code points against surrogates) play no part in these patterns and are not modelled.
- Parser.Parse: its own contract states identifier, context, status TODO and the tags invariant. Failure, priority, tags, task text and projects are stated by the `Parser` lemmas in the table above.
