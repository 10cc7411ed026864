/** The daily payment rollover (`auto_extend_due_date`): every case whose pay
    date is today gets its due date moved one calendar month on, from the old
    due date or, when there is none, from today. Each case is committed on its
    own, so an exception part-way leaves the earlier cases rolled over. */
module AutoExtend {
  import opened Wrappers
  import opened Calendar
  import opened Cases

  datatype RolloverOutcome =
    | Completed(store: seq<Case>)
      /** Month addition failed on case `failedAt` (its base date is in
          December 9999); the job stops there, earlier commits stay. */
    | Aborted(store: seq<Case>, failedAt: nat)
  {
    /** Whether the job reached (and committed) position `i`. */
    predicate Reached(i: int) {
      Completed? || i < failedAt
    }
  }

  predicate PaidOn(c: Case, today: Date) {
    c.payDate == Some(today)
  }

  /** The date a rollover counts one month from. */
  function Base(c: Case, today: Date): Date {
    if c.dueDate.Some? then c.dueDate.value else today
  }

  /** The due date a paid case rolls over to, `None` when month addition
      raises. */
  function ExtendedDue(c: Case, today: Date): (r: Option<Date>)
    requires Valid(today) && WellFormed(c)
    ensures r.Some? ==> Valid(r.value) && Before(Base(c, today), r.value)
    ensures r.Some? ==> MonthIndex(r.value) == MonthIndex(Base(c, today)) + 1
    ensures r.None? <==> Base(c, today).year == MaxYear && Base(c, today).month == 12
  {
    var r := AddMonths(Base(c, today), 1);
    assert r.Some? ==> Before(Base(c, today), r.value) by {
      if r.Some? { AddMonthsIsLater(Base(c, today), 1); }
    }
    r
  }

  /** `r` with case `c` committed in front of it. */
  function Prepend(c: Case, r: RolloverOutcome): (r': RolloverOutcome)
    ensures r'.store == [c] + r.store && r'.Completed? == r.Completed?
    ensures r'.Aborted? ==> r'.failedAt == r.failedAt + 1
    ensures r'.Reached(0)
    ensures forall i :: 1 <= i ==> (r'.Reached(i) <==> r.Reached(i - 1))
  {
    match r
    case Completed(s) => Completed([c] + s)
    case Aborted(s, k) => Aborted([c] + s, k + 1)
  }

  /** What committing position `i` does to a case: a paid case gets the
      extended due date and keeps every other field, an unpaid one is left
      as it was. */
  predicate RolledOver(before: Case, after: Case, today: Date)
    requires Valid(today) && WellFormed(before)
  {
    if PaidOn(before, today) then
      ExtendedDue(before, today).Some? && after == before.(dueDate := ExtendedDue(before, today))
    else
      after == before
  }

  function AutoExtendDueDate(cases: seq<Case>, today: Date): (r: RolloverOutcome)
    requires Valid(today) && WellFormedStore(cases)
    ensures |r.store| == |cases|
    ensures WellFormedStore(r.store)
    ensures r.Aborted? ==>
      && r.failedAt < |cases|
      && PaidOn(cases[r.failedAt], today)
      && ExtendedDue(cases[r.failedAt], today).None?
    ensures forall i :: 0 <= i < |cases| ==>
      if r.Reached(i) then RolledOver(cases[i], r.store[i], today) else r.store[i] == cases[i]
  {
    if |cases| == 0 then Completed([])
    else
      var c := cases[0];
      var tail := cases[1..];
      var rest := AutoExtendDueDate(tail, today);
      if !PaidOn(c, today) || ExtendedDue(c, today).Some? then
        var c' := if PaidOn(c, today) then c.(dueDate := ExtendedDue(c, today)) else c;
        var r := Prepend(c', rest);
        assert RolledOver(c, c', today) && WellFormed(c');
        forall i | 1 <= i < |cases|
          ensures if r.Reached(i) then RolledOver(cases[i], r.store[i], today) else r.store[i] == cases[i]
        {
          assert cases[i] == tail[i - 1] && r.store[i] == rest.store[i - 1];
        }
        r
      else
        Aborted(cases, 0)
  }

  /** Nothing but the due date of a paid case changes: unpaid cases are left
      alone and every other column of a paid case keeps its value. */
  lemma RolloverFrame(cases: seq<Case>, today: Date)
    requires Valid(today) && WellFormedStore(cases)
    ensures
      var r := AutoExtendDueDate(cases, today);
      && (forall i :: 0 <= i < |cases| && !PaidOn(cases[i], today) ==> r.store[i] == cases[i])
      && (forall i :: 0 <= i < |cases| ==> r.store[i].(dueDate := cases[i].dueDate) == cases[i])
  {
    var r := AutoExtendDueDate(cases, today);
    forall i | 0 <= i < |cases|
      ensures !PaidOn(cases[i], today) ==> r.store[i] == cases[i]
      ensures r.store[i].(dueDate := cases[i].dueDate) == cases[i]
    {
      assert r.Reached(i) ==> RolledOver(cases[i], r.store[i], today);
    }
  }

  /** A paid case the job reached now falls due one calendar month after its
      old due date, or one month after today when it had none; in both cases
      strictly later than the date counted from. */
  lemma RolloverAdvances(cases: seq<Case>, today: Date, i: int)
    requires Valid(today) && WellFormedStore(cases)
    requires 0 <= i < |cases| && PaidOn(cases[i], today)
    requires AutoExtendDueDate(cases, today).Reached(i)
    ensures
      var after := AutoExtendDueDate(cases, today).store[i].dueDate;
      && (cases[i].dueDate.Some? ==> after == AddMonths(cases[i].dueDate.value, 1))
      && (cases[i].dueDate.None? ==> after == AddMonths(today, 1))
      && after.Some? && Before(Base(cases[i], today), after.value)
  {
    assert RolledOver(cases[i], AutoExtendDueDate(cases, today).store[i], today);
  }

  /** The job runs to the end exactly when month addition succeeds for every
      paid case. */
  lemma RolloverCompletesIff(cases: seq<Case>, today: Date)
    requires Valid(today) && WellFormedStore(cases)
    ensures AutoExtendDueDate(cases, today).Completed? <==>
      forall i :: 0 <= i < |cases| && PaidOn(cases[i], today) ==> ExtendedDue(cases[i], today).Some?
  {
    var r := AutoExtendDueDate(cases, today);
    if r.Completed? {
      forall i | 0 <= i < |cases| && PaidOn(cases[i], today)
        ensures ExtendedDue(cases[i], today).Some?
      {
        assert RolledOver(cases[i], r.store[i], today);
      }
    }
  }

  /** The pay date is never cleared, so a second run on the same day matches
      the same cases and moves each of their due dates on once more: the job
      is not idempotent. This holds whether the first run completed or
      stopped part-way: every case it reached and committed is extended
      again. */
  lemma RolloverNotIdempotent(cases: seq<Case>, today: Date, i: int)
    requires Valid(today) && WellFormedStore(cases)
    requires 0 <= i < |cases| && PaidOn(cases[i], today)
    requires AutoExtendDueDate(cases, today).Reached(i)
    ensures
      var once := AutoExtendDueDate(cases, today).store;
      var twice := AutoExtendDueDate(once, today);
      && PaidOn(once[i], today)
      && (twice.Reached(i) ==> twice.store[i].dueDate == AddMonths(once[i].dueDate.value, 1))
      && (twice.Reached(i) ==> Before(once[i].dueDate.value, twice.store[i].dueDate.value))
      && twice != Completed(once)
  {
    var once := AutoExtendDueDate(cases, today).store;
    RolloverFrame(cases, today);
    RolloverAdvances(cases, today, i);
    var twice := AutoExtendDueDate(once, today);
    if twice.Reached(i) {
      RolloverAdvances(once, today, i);
      assert Before(once[i].dueDate.value, twice.store[i].dueDate.value);
      assert twice.store[i] != once[i];
    } else {
      assert twice.Aborted?;
    }
  }

  /** Two runs on the same day from a due date of 2025-01-31 end on
      2025-03-28, where a single two-month jump would give 2025-03-31. */
  lemma RolloverTwiceExample(c: Case)
    requires c.payDate == Some(Date(2025, 6, 7)) && c.dueDate == Some(Date(2025, 1, 31)) && WellFormed(c)
    ensures
      var today := Date(2025, 6, 7);
      var once := AutoExtendDueDate([c], today);
      && once == Completed([c.(dueDate := Some(Date(2025, 2, 28)))])
      && AutoExtendDueDate(once.store, today) == Completed([c.(dueDate := Some(Date(2025, 3, 28)))])
      && AddMonths(Date(2025, 1, 31), 2) == Some(Date(2025, 3, 31))
  {
    var today := Date(2025, 6, 7);
    assert ExtendedDue(c, today) == Some(Date(2025, 2, 28));
    var c1 := c.(dueDate := Some(Date(2025, 2, 28)));
    assert AutoExtendDueDate([c], today) == Prepend(c1, AutoExtendDueDate([], today));
    assert ExtendedDue(c1, today) == Some(Date(2025, 3, 28));
    var c2 := c1.(dueDate := Some(Date(2025, 3, 28)));
    assert AutoExtendDueDate([c1], today) == Prepend(c2, AutoExtendDueDate([], today));
  }

  /** Paid on 2025-06-07: a case due 2025-05-15 moves to 2025-06-15; a case
      with no due date gets 2025-07-07. */
  lemma RolloverExamples(c: Case)
    requires c.payDate == Some(Date(2025, 6, 7)) && WellFormed(c)
    ensures
      var today := Date(2025, 6, 7);
      && AutoExtendDueDate([c.(dueDate := Some(Date(2025, 5, 15)))], today)
         == Completed([c.(dueDate := Some(Date(2025, 6, 15)))])
      && AutoExtendDueDate([c.(dueDate := None)], today)
         == Completed([c.(dueDate := Some(Date(2025, 7, 7)))])
  {
    var today := Date(2025, 6, 7);
    var a := c.(dueDate := Some(Date(2025, 5, 15)));
    var b := c.(dueDate := None);
    assert ExtendedDue(a, today) == Some(Date(2025, 6, 15));
    assert ExtendedDue(b, today) == Some(Date(2025, 7, 7));
    assert AutoExtendDueDate([a], today) == Prepend(a.(dueDate := Some(Date(2025, 6, 15))), AutoExtendDueDate([], today));
    assert AutoExtendDueDate([b], today) == Prepend(b.(dueDate := Some(Date(2025, 7, 7))), AutoExtendDueDate([], today));
  }

  /** A run that stops part-way is not idempotent either: case `a` (due
      2025-01-31) is committed before case `b` (due in December 9999) aborts
      the run, and a second run on the same day extends `a` again. */
  lemma RolloverAfterAbortExample(a: Case, b: Case)
    requires a.payDate == Some(Date(2025, 6, 7)) && a.dueDate == Some(Date(2025, 1, 31)) && WellFormed(a)
    requires b.payDate == Some(Date(2025, 6, 7)) && b.dueDate == Some(Date(9999, 12, 5)) && WellFormed(b)
    ensures
      var today := Date(2025, 6, 7);
      var a1 := a.(dueDate := Some(Date(2025, 2, 28)));
      && AutoExtendDueDate([a, b], today) == Aborted([a1, b], 1)
      && AutoExtendDueDate([a1, b], today) == Aborted([a.(dueDate := Some(Date(2025, 3, 28))), b], 1)
  {
    var today := Date(2025, 6, 7);
    var a1 := a.(dueDate := Some(Date(2025, 2, 28)));
    var a2 := a.(dueDate := Some(Date(2025, 3, 28)));
    assert ExtendedDue(b, today) == None;
    assert AutoExtendDueDate([b], today) == Aborted([b], 0);
    assert ExtendedDue(a, today) == Some(Date(2025, 2, 28));
    assert [a, b][1..] == [b];
    assert AutoExtendDueDate([a, b], today) == Prepend(a1, AutoExtendDueDate([b], today));
    assert ExtendedDue(a1, today) == Some(Date(2025, 3, 28));
    assert a1.(dueDate := Some(Date(2025, 3, 28))) == a2;
    assert [a1, b][1..] == [b];
    assert AutoExtendDueDate([a1, b], today) == Prepend(a2, AutoExtendDueDate([b], today));
  }
}
