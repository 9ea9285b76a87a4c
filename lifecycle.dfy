/**
 * The rules app.py applies to one ticket and to the rows hanging off it:
 * creation by the two public forms, the status transition with its
 * timestamp side effects, the priority change, and what deleting a ticket
 * or a user does to the other tables.
 */
module Lifecycle {
  import opened Optional
  import opened Records

  /** A ticket as the public forms create it: new, never started or closed, owned by nobody. */
  predicate IsNew(t: Ticket) {
    t.status == Nuovo && t.startedAt.None? && t.closedAt.None? && t.assignedTo.None?
  }

  /**
   * The timestamp invariant every transition keeps: a resolved ticket has a
   * closing time. (Its counterpart for `started_at` does not hold: see
   * `ResolvedThenReopenedIsUnstarted`.)
   */
  predicate ClosedWhenResolved(t: Ticket) {
    t.status == Risolto ==> t.closedAt.Some?
  }

  /** The row `new_mezzi` inserts. */
  function NewMezzo(id: Id, now: Time, requesterName: string, vehicleType: string, vehicleNumber: string,
                    anomalyCategory: string, description: string, image: Option<string>): (t: Ticket)
    ensures IsNew(t) && ClosedWhenResolved(t) && t.kind == Mezzo && t.id == id && t.createdAt == now
    ensures t.requesterName == requesterName && t.description == description && t.imageFilename == image
    ensures t.vehicleType == Some(vehicleType) && t.vehicleNumber == Some(vehicleNumber)
    ensures t.anomalyCategory == Some(anomalyCategory)
    ensures t.department.None? && t.title.None? && t.priority.None?
  {
    Ticket(id, Mezzo, Nuovo, now, None, None, requesterName, description, image, None,
           Some(vehicleType), Some(vehicleNumber), Some(anomalyCategory), None, None, None)
  }

  /** The row `new_tecnico` inserts; the handler never reads a department, so none is stored. */
  function NewTecnico(id: Id, now: Time, requesterName: string, title: string, priority: string,
                      description: string, image: Option<string>): (t: Ticket)
    ensures IsNew(t) && ClosedWhenResolved(t) && t.kind == Tecnico && t.id == id && t.createdAt == now
    ensures t.requesterName == requesterName && t.description == description && t.imageFilename == image
    ensures t.title == Some(title) && t.priority == Some(priority) && t.department.None?
    ensures t.vehicleType.None? && t.vehicleNumber.None? && t.anomalyCategory.None?
  {
    Ticket(id, Tecnico, Nuovo, now, None, None, requesterName, description, image, None,
           None, None, None, None, Some(title), Some(priority))
  }

  /**
   * The `update_status` action: the requested string replaces the status
   * unchecked; moving from NUOVO to IN_LAVORAZIONE stamps `started_at`,
   * entering RISOLTO from another status stamps `closed_at`, and nothing
   * else changes.
   */
  function UpdateStatus(t: Ticket, newStatus: string, now: Time): (u: Ticket)
    ensures u.status == newStatus
    ensures (t.status == Nuovo && newStatus == InLavorazione) ==> u.startedAt == Some(now)
    ensures !(t.status == Nuovo && newStatus == InLavorazione) ==> u.startedAt == t.startedAt
    ensures (newStatus == Risolto && t.status != Risolto) ==> u.closedAt == Some(now)
    ensures !(newStatus == Risolto && t.status != Risolto) ==> u.closedAt == t.closedAt
    ensures u.(status := t.status, startedAt := t.startedAt, closedAt := t.closedAt) == t
    ensures ClosedWhenResolved(t) ==> ClosedWhenResolved(u)
  {
    var u := t.(status := newStatus);
    if newStatus == InLavorazione && t.status == Nuovo then u.(startedAt := Some(now))
    else if newStatus == Risolto && t.status != Risolto then u.(closedAt := Some(now))
    else u
  }

  /** The staff walk-through: start a new ticket at `t1`, resolve it at `t2`. */
  lemma StartThenResolve(t: Ticket, t1: Time, t2: Time)
    requires IsNew(t)
    ensures var u := UpdateStatus(UpdateStatus(t, InLavorazione, t1), Risolto, t2);
            u.status == Risolto && u.startedAt == Some(t1) && u.closedAt == Some(t2)
  {
  }

  /** Going straight from NUOVO to RISOLTO closes the ticket but leaves it never started. */
  lemma ResolveWithoutStart(t: Ticket, now: Time)
    requires IsNew(t)
    ensures var u := UpdateStatus(t, Risolto, now); u.closedAt == Some(now) && u.startedAt.None?
  {
  }

  /**
   * A ticket resolved straight from NUOVO and then reopened to IN_LAVORAZIONE
   * is in progress with no start time: `started_at` is only stamped on a
   * move out of NUOVO.
   */
  lemma ResolvedThenReopenedIsUnstarted(t: Ticket, t1: Time, t2: Time)
    requires IsNew(t)
    ensures var u := UpdateStatus(UpdateStatus(t, Risolto, t1), InLavorazione, t2);
            u.status == InLavorazione && u.startedAt.None? && u.closedAt == Some(t1)
  {
  }

  /** Reopening to NUOVO and starting again stamps `started_at` anew, and keeps the old `closed_at`. */
  lemma ReopenRestamps(t: Ticket, t1: Time, t2: Time)
    requires t.status == Risolto
    ensures var u := UpdateStatus(UpdateStatus(t, Nuovo, t1), InLavorazione, t2);
            u.startedAt == Some(t2) && u.closedAt == t.closedAt
  {
  }

  /** The result of a priority change on one ticket. */
  datatype Change = Changed(ticket: Ticket) | Refused(reason: Reason)

  /**
   * The `update_priority` action: refused on a vehicle ticket whatever the
   * value, refused for a value outside BASSA/MEDIA/ALTA, and otherwise only
   * the priority changes.
   */
  function UpdatePriority(t: Ticket, priority: string): (c: Change)
    ensures c.Changed? <==> t.kind == Tecnico && priority in Priorities
    ensures t.kind != Tecnico ==> c == Refused(NotTechnical)
    ensures t.kind == Tecnico && priority !in Priorities ==> c == Refused(InvalidPriority)
    ensures c.Changed? ==> c.ticket.priority == Some(priority) && c.ticket.(priority := t.priority) == t
  {
    if t.kind != Tecnico then Refused(NotTechnical)
    else if priority !in Priorities then Refused(InvalidPriority)
    else Changed(t.(priority := Some(priority)))
  }

  /**
   * What deleting user `uid` does to the tickets: the same tickets remain,
   * none is owned by `uid` any more, and only the owner of those that were
   * changes (to nobody).
   */
  function Detach(tickets: map<Id, Ticket>, uid: Id): (r: map<Id, Ticket>)
    ensures r.Keys == tickets.Keys
    ensures forall k :: k in r ==> r[k].assignedTo != Some(uid)
    ensures forall k :: k in tickets && tickets[k].assignedTo == Some(uid) ==> r[k].assignedTo.None?
    ensures forall k :: k in r ==> r[k].(assignedTo := tickets[k].assignedTo) == tickets[k]
    ensures forall k :: k in tickets && tickets[k].assignedTo != Some(uid) ==> r[k] == tickets[k]
  {
    map k | k in tickets :: if tickets[k].assignedTo == Some(uid) then tickets[k].(assignedTo := None) else tickets[k]
  }

  /**
   * The `delete-orphan` cascade of deleting ticket `tid`: its comments go,
   * every other comment stays as it was.
   */
  function Cascade(comments: map<Id, Comment>, tid: Id): (r: map<Id, Comment>)
    ensures forall c :: c in r ==> c in comments && r[c] == comments[c] && r[c].ticketId != tid
    ensures forall c :: c in comments && comments[c].ticketId != tid ==> c in r
  {
    map c | c in comments && comments[c].ticketId != tid :: comments[c]
  }
}
