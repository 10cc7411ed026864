/** The `Case` record of the case store, restricted to what the due-date jobs
    read or write, and the reminder and send events of the notification jobs. */
module Cases {
  import opened Wrappers
  import opened Calendar

  /** The `type` enum column: 'maintain' or 'new'. */
  datatype CaseType = Maintain | New

  /** One row of the `cases` table. Date columns may be NULL. */
  datatype Case = Case(
    id: int,
    clientId: int,
    kind: CaseType,
    title: string,
    status: string,
    startDate: Option<Date>,
    dueDate: Option<Date>,
    payDate: Option<Date>,
    note: string
  )

  /** A `Date` column holds only dates Python can represent. */
  predicate ValidOpt(d: Option<Date>) {
    d.Some? ==> Valid(d.value)
  }

  predicate WellFormed(c: Case) {
    ValidOpt(c.startDate) && ValidOpt(c.dueDate) && ValidOpt(c.payDate)
  }

  predicate WellFormedStore(cases: seq<Case>) {
    forall i :: 0 <= i < |cases| ==> WellFormed(cases[i])
  }

  /** The due-soon reminder: case title, due date and client id. */
  datatype Reminder = Reminder(title: string, dueDate: Date, clientId: int)

  /** One attempted delivery. Transport failures are swallowed by the
      senders, so an attempt is all the job can observe. */
  datatype Send = Email(reminder: Reminder) | Telegram(reminder: Reminder)
}
