/** The daily due-soon scan (`notify_due_cases`): select every case due
    exactly `days` days after `today` and send its reminder by email and by
    Telegram. `today` and `days` are parameters here. */
module DueNotify {
  import opened Wrappers
  import opened Calendar
  import opened Cases

  /** Default of the `CASE_DUE_NOTIFY_DAYS` setting. */
  const DefaultNotifyDays := 3

  datatype ScanOutcome =
    | Notified(selected: seq<Case>, sends: seq<Send>)
      /** `today + timedelta(days)` left the date range: OverflowError before any send. */
    | Overflow

  /** The query `Case.due_date == target`, in store order. */
  function DueOn(cases: seq<Case>, target: Date): (r: seq<Case>)
    ensures |r| <= |cases|
    ensures forall c :: c in r <==> c in cases && c.dueDate == Some(target)
    ensures forall c :: multiset(r)[c] == if c.dueDate == Some(target) then multiset(cases)[c] else 0
  {
    if |cases| == 0 then []
    else
      assert cases == [cases[0]] + cases[1..];
      var rest := DueOn(cases[1..], target);
      assert forall c :: c in cases <==> c == cases[0] || c in cases[1..];
      if cases[0].dueDate == Some(target) then [cases[0]] + rest else rest
  }

  function ReminderFor(c: Case): Reminder
    requires c.dueDate.Some?
  {
    Reminder(c.title, c.dueDate.value, c.clientId)
  }

  /** For each selected case in turn, one email then one Telegram message. */
  function SendsFor(selected: seq<Case>): (r: seq<Send>)
    requires forall c :: c in selected ==> c.dueDate.Some?
    ensures |r| == 2 * |selected|
    ensures forall i :: 0 <= i < |selected| ==>
      r[2 * i] == Email(ReminderFor(selected[i])) && r[2 * i + 1] == Telegram(ReminderFor(selected[i]))
  {
    if |selected| == 0 then []
    else
      var rest := SendsFor(selected[1..]);
      var m := ReminderFor(selected[0]);
      var r := [Email(m), Telegram(m)] + rest;
      forall i | 1 <= i < |selected|
        ensures r[2 * i] == Email(ReminderFor(selected[i])) && r[2 * i + 1] == Telegram(ReminderFor(selected[i]))
      {
        assert selected[i] == selected[1..][i - 1];
        assert r[2 * i] == rest[2 * (i - 1)];
        assert r[2 * i + 1] == rest[2 * (i - 1) + 1];
      }
      r
  }

  function NotifyDueCases(cases: seq<Case>, today: Date, days: int): (r: ScanOutcome)
    requires Valid(today) && WellFormedStore(cases)
    ensures r.Overflow? <==> !(1 <= ToOrdinal(today) + days <= MaxOrdinal)
    ensures r.Notified? ==> forall c :: c in r.selected <==>
      c in cases && c.dueDate.Some? && ToOrdinal(c.dueDate.value) == ToOrdinal(today) + days
    ensures r.Notified? ==> forall c :: multiset(r.selected)[c] == if c in cases && c.dueDate.Some? && ToOrdinal(c.dueDate.value) == ToOrdinal(today) + days then multiset(cases)[c] else 0
    ensures r.Notified? ==> AddDays(today, days).Some? && r.selected == DueOn(cases, AddDays(today, days).value)
    ensures r.Notified? ==> |r.sends| == 2 * |r.selected|
    ensures r.Notified? ==> forall i :: 0 <= i < |r.selected| ==>
      && r.sends[2 * i] == Email(Reminder(r.selected[i].title, r.selected[i].dueDate.value, r.selected[i].clientId))
      && r.sends[2 * i + 1] == Telegram(Reminder(r.selected[i].title, r.selected[i].dueDate.value, r.selected[i].clientId))
  {
    match AddDays(today, days)
    case None => Overflow
    case Some(target) =>
      var selected := DueOn(cases, target);
      forall c | c in cases && c.dueDate.Some?
        ensures c.dueDate == Some(target) <==> ToOrdinal(c.dueDate.value) == ToOrdinal(today) + days
      {
        BeforeIffOrdinalLess(c.dueDate.value, target);
      }
      Notified(selected, SendsFor(selected))
  }

  /** The selection keeps store order: it distributes over concatenation. */
  lemma {:induction false} DueOnAppend(a: seq<Case>, b: seq<Case>, target: Date)
    ensures DueOn(a + b, target) == DueOn(a, target) + DueOn(b, target)
  {
    if |a| > 0 {
      assert (a + b)[1..] == a[1..] + b;
      DueOnAppend(a[1..], b, target);
    } else {
      assert a + b == b;
    }
  }

  /** Exact-match policy: a case due one day earlier or one day later than
      the target, or with no due date at all, is not selected. */
  lemma ScanExcludesNeighbours(cases: seq<Case>, today: Date, days: int, c: Case)
    requires Valid(today) && WellFormedStore(cases) && c in cases
    requires 1 <= ToOrdinal(today) + days <= MaxOrdinal
    requires c.dueDate.None? || c.dueDate == AddDays(today, days - 1) || c.dueDate == AddDays(today, days + 1)
    ensures c !in NotifyDueCases(cases, today, days).selected
  {
  }

  /** The scan writes nothing back: its outcome carries no store, so the
      cases a second run on the same day sees are the ones the first run saw.
      Nothing remembers what was sent, so every selected case's email and
      Telegram reminder go out once per run, twice over two runs. */
  lemma ScanIsNotDeduplicated(cases: seq<Case>, today: Date, days: int)
    requires Valid(today) && WellFormedStore(cases)
    requires 1 <= ToOrdinal(today) + days <= MaxOrdinal
    ensures
      var r := NotifyDueCases(cases, today, days);
      r.sends + r.sends == SendsFor(r.selected + r.selected)
  {
    var r := NotifyDueCases(cases, today, days);
    SendsForAppend(r.selected, r.selected);
  }

  /** Over two runs on the same day, each selected case's email and Telegram
      reminder each go out twice: once in the first run's sends, once in the
      second's. */
  lemma ScanRemindsTwice(cases: seq<Case>, today: Date, days: int)
    requires Valid(today) && WellFormedStore(cases)
    requires 1 <= ToOrdinal(today) + days <= MaxOrdinal
    ensures
      var r := NotifyDueCases(cases, today, days);
      var both := r.sends + r.sends;
      forall i :: 0 <= i < |r.selected| ==>
        var m := Reminder(r.selected[i].title, r.selected[i].dueDate.value, r.selected[i].clientId);
        && both[2 * i] == Email(m) && both[2 * |r.selected| + 2 * i] == Email(m)
        && both[2 * i + 1] == Telegram(m) && both[2 * |r.selected| + 2 * i + 1] == Telegram(m)
  {
  }

  lemma {:induction false} SendsForAppend(a: seq<Case>, b: seq<Case>)
    requires forall c :: c in a + b ==> c.dueDate.Some?
    ensures SendsFor(a + b) == SendsFor(a) + SendsFor(b)
  {
    if |a| > 0 {
      assert (a + b)[1..] == a[1..] + b;
      SendsForAppend(a[1..], b);
    } else {
      assert a + b == b;
    }
  }

  /** A case whose due date does not change is selected on one day only:
      the day it is exactly `days` days out. */
  lemma ScanDayUnique(cases: seq<Case>, t1: Date, t2: Date, days: int, c: Case)
    requires Valid(t1) && Valid(t2) && WellFormedStore(cases)
    requires 1 <= ToOrdinal(t1) + days <= MaxOrdinal && 1 <= ToOrdinal(t2) + days <= MaxOrdinal
    requires c in NotifyDueCases(cases, t1, days).selected && c in NotifyDueCases(cases, t2, days).selected
    ensures t1 == t2
  {
    BeforeIffOrdinalLess(t1, t2);
  }

  /** A case due 2025-06-10, scanned on 2025-06-07 with the default of three
      days, gets one email and one Telegram reminder. */
  lemma ScanExample(c: Case)
    requires c.dueDate == Some(Date(2025, 6, 10)) && WellFormed(c)
    ensures
      var m := Reminder(c.title, Date(2025, 6, 10), c.clientId);
      NotifyDueCases([c], Date(2025, 6, 7), DefaultNotifyDays) == Notified([c], [Email(m), Telegram(m)])
  {
    var t := Date(2025, 6, 10);
    AddDaysExample();
    assert DueOn([c], t) == [c];
    var m := Reminder(c.title, t, c.clientId);
    assert SendsFor([c]) == [Email(m), Telegram(m)];
  }
}
