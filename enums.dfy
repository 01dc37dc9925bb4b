/**
 * The two ranked enumerations of the to-do tool, `Priority` and `Status`, and what
 * calling them with a value does (`Priority(x)`, `Status(x)`): an exact lookup by
 * value, then, for `Priority` only, the `_missing_` hook that turns a run of `!`
 * into a rank. The three copies of these classes in the repository are identical,
 * so they are modelled once.
 */
module Enums {
  import opened Results

  /** The argument of an enum call. Callers pass either an integer rank (the database
      layer) or a string (the task-creation parser). */
  datatype EnumArg = IntArg(n: int) | StrArg(s: string)

  /** The `ValueError` an enum call raises when no member is found for its argument. */
  datatype ValueError = NotAPriority(arg: EnumArg) | NotAStatus(arg: EnumArg)

  /** Most urgent first; the rank is the member's value. */
  datatype Priority = CRITICAL | HIGH | MEDIUM | LOW | SOMEDAY {
    function Value(): (v: int)
      ensures 1 <= v <= 5
    {
      match this
      case CRITICAL => 1
      case HIGH => 2
      case MEDIUM => 3
      case LOW => 4
      case SOMEDAY => 5
    }
  }

  /** The life cycle of a task, in order. */
  datatype Status = TODO | INPROGRESS | BLOCKED | WAITINGFOR | DONE {
    function Value(): (v: int)
      ensures 1 <= v <= 5
    {
      match this
      case TODO => 1
      case INPROGRESS => 2
      case BLOCKED => 3
      case WAITINGFOR => 4
      case DONE => 5
    }
  }

  /** Every character is `!`; true of the empty string, like Python's `all(...)`. */
  predicate AllBangs(s: string) {
    forall i :: 0 <= i < |s| ==> s[i] == '!'
  }

  /** A string of `k` exclamation marks. */
  function Bangs(k: nat): (s: string)
    ensures |s| == k && AllBangs(s)
  {
    seq(k, _ => '!')
  }

  /** The rank a run of `k >= 1` marks stands for: one mark is the least urgent,
      and five or more saturate at the most urgent. */
  function BangRank(k: nat): int {
    if k >= 5 then 1 else 6 - k
  }

  /** The enum's own lookup: an integer equal to a member's value. A string never
      equals an integer value, so it always falls through. */
  function LookupPriority(arg: EnumArg): (r: Option<Priority>)
    ensures r.Some? <==> arg.IntArg? && 1 <= arg.n <= 5
    ensures r.Some? ==> r.value.Value() == arg.n
  {
    match arg
    case IntArg(n) =>
      if n == 1 then Some(CRITICAL)
      else if n == 2 then Some(HIGH)
      else if n == 3 then Some(MEDIUM)
      else if n == 4 then Some(LOW)
      else if n == 5 then Some(SOMEDAY)
      else None
    case StrArg(_) => None
  }

  /** The `_missing_` hook: an all-`!` string is mapped by its length; a count of
      zero (the empty string) reaches none of the branches and yields nothing. */
  function MissingPriority(arg: EnumArg): (r: Option<Priority>)
    ensures r.Some? <==> arg.StrArg? && AllBangs(arg.s) && |arg.s| >= 1
    ensures r.Some? ==> r.value.Value() == BangRank(|arg.s|)
  {
    if arg.StrArg? && AllBangs(arg.s) then
      var count := |arg.s|;
      if count >= 5 then Some(CRITICAL)
      else if count == 4 then Some(HIGH)
      else if count == 3 then Some(MEDIUM)
      else if count == 2 then Some(LOW)
      else if count == 1 then Some(SOMEDAY)
      else None
    else None
  }

  /** `Priority(arg)`: lookup by value, then `_missing_`, else `ValueError`. */
  function PriorityOf(arg: EnumArg): (r: Result<Priority, ValueError>)
    ensures r.Err? ==> r.error == NotAPriority(arg)
    ensures arg.IntArg? ==> (r.Ok? <==> 1 <= arg.n <= 5)
    ensures arg.IntArg? && r.Ok? ==> r.value.Value() == arg.n
    ensures arg.StrArg? ==> (r.Ok? <==> |arg.s| >= 1 && AllBangs(arg.s))
    ensures arg.StrArg? && r.Ok? ==> r.value.Value() == BangRank(|arg.s|)
  {
    match LookupPriority(arg)
    case Some(p) => Ok(p)
    case None =>
      match MissingPriority(arg)
      case Some(p) => Ok(p)
      case None => Err(NotAPriority(arg))
  }

  /** `Status(arg)`: lookup by value only; the class has no `_missing_` hook. */
  function StatusOf(arg: EnumArg): (r: Result<Status, ValueError>)
    ensures r.Ok? <==> arg.IntArg? && 1 <= arg.n <= 5
    ensures r.Ok? ==> r.value.Value() == arg.n
    ensures r.Err? ==> r.error == NotAStatus(arg)
  {
    match arg
    case IntArg(n) =>
      if n == 1 then Ok(TODO)
      else if n == 2 then Ok(INPROGRESS)
      else if n == 3 then Ok(BLOCKED)
      else if n == 4 then Ok(WAITINGFOR)
      else if n == 5 then Ok(DONE)
      else Err(NotAStatus(arg))
    case StrArg(_) => Err(NotAStatus(arg))
  }

  /** Writing a priority as its value and calling `Priority` on that value gives the
      member back, and no two members share a value. */
  lemma PriorityRoundTrip(p: Priority, q: Priority)
    ensures PriorityOf(IntArg(p.Value())) == Ok(p)
    ensures p.Value() == q.Value() ==> p == q
  {
  }

  /** The same round trip for statuses, whose values also follow the life cycle. */
  lemma StatusRoundTrip(s: Status, t: Status)
    ensures StatusOf(IntArg(s.Value())) == Ok(s)
    ensures s.Value() == t.Value() ==> s == t
  {
  }

  /** The exclamation-mark table: one to four marks give SOMEDAY, LOW, MEDIUM, HIGH,
      and any longer run is CRITICAL. */
  lemma BangTable(k: nat)
    requires k >= 5
    ensures PriorityOf(StrArg("!")) == Ok(SOMEDAY)
    ensures PriorityOf(StrArg("!!")) == Ok(LOW)
    ensures PriorityOf(StrArg("!!!")) == Ok(MEDIUM)
    ensures PriorityOf(StrArg("!!!!")) == Ok(HIGH)
    ensures PriorityOf(StrArg(Bangs(k))) == Ok(CRITICAL)
  {
    assert "!" == Bangs(1);
    assert "!!" == Bangs(2);
    assert "!!!" == Bangs(3);
    assert "!!!!" == Bangs(4);
  }

  /** One more mark never makes a priority less urgent. */
  lemma MoreBangsNoLessUrgent(k: nat)
    requires k >= 1
    ensures PriorityOf(StrArg(Bangs(k))).Ok? && PriorityOf(StrArg(Bangs(k + 1))).Ok?
    ensures PriorityOf(StrArg(Bangs(k + 1))).value.Value() <= PriorityOf(StrArg(Bangs(k))).value.Value()
  {
  }

  /** The values `_missing_` gives up on: integers outside 1..5, any string with a
      character other than `!`, and the empty string. */
  lemma PriorityRejects(n: int, s: string, i: nat)
    requires n < 1 || n > 5
    requires i < |s| && s[i] != '!'
    ensures PriorityOf(IntArg(n)) == Err(NotAPriority(IntArg(n)))
    ensures PriorityOf(StrArg(s)) == Err(NotAPriority(StrArg(s)))
    ensures PriorityOf(StrArg("")) == Err(NotAPriority(StrArg("")))
  {
  }
}
