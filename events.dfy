/** The event records the engine receives, already fetched from storage. */
module Events {

  /** The two lists a day keeps; `event.kind` names one of them. */
  datatype Kind = Opening | Appointment

  /**
   * One row of the `events` table: its kind, its start and end in local
   * seconds, and whether it is a weekly template (a missing or falsy
   * `weekly_recurring` reads as false).
   */
  datatype Event = Event(kind: Kind, startsAt: int, endsAt: int, weeklyRecurring: bool)
}
