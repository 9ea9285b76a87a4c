/**
 * The helpdesk store of app.py: the users, tickets and comments tables,
 * the upload folder, and one method per request-handler action. Each
 * action runs the route's guards first, then its own checks; a refused
 * action leaves every table as it was.
 */
module Helpdesk {
  import opened Optional
  import opened Text
  import opened Records
  import opened Auth
  import Uploads
  import Lifecycle
  import Dashboard

  /** Everything the store holds, for stating what an action changes. */
  datatype Tables = Tables(
    users: map<Id, User>,
    tickets: map<Id, Ticket>,
    comments: map<Id, Comment>,
    uploads: set<string>,
    nextUserId: Id,
    nextTicketId: Id,
    nextCommentId: Id)

  predicate UsernameExists(users: map<Id, User>, name: string) {
    exists k :: k in users && users[k].username == name
  }

  /**
   * `login_required` followed by `Ticket.query.get_or_404`: `None` when the
   * ticket action may run.
   */
  function TicketGate(s: Session, tickets: map<Id, Ticket>, id: Id): (d: Option<Outcome>)
    ensures d.None? <==> LoginRequired(s) && id in tickets
    ensures d.Some? ==> d.value != Done
  {
    if !LoginRequired(s) then Some(NotLoggedIn)
    else if id !in tickets then Some(NotFound)
    else None
  }

  class Store {
    var users: map<Id, User>
    var tickets: map<Id, Ticket>
    var comments: map<Id, Comment>
    /** The names of the files in the upload folder. */
    var uploads: set<string>
    /** The ids the tables hand out next. */
    var nextUserId: Id
    var nextTicketId: Id
    var nextCommentId: Id

    ghost function State(): Tables
      reads this
    {
      Tables(users, tickets, comments, uploads, nextUserId, nextTicketId, nextCommentId)
    }

    /**
     * Rows sit under their own ids, below the next id to hand out; usernames
     * are unique; every comment belongs to a stored ticket; every resolved
     * ticket has a closing time.
     */
    ghost predicate Valid()
      reads this
    {
      && (forall k :: k in users ==> users[k].id == k && k < nextUserId)
      && (forall k :: k in tickets ==> tickets[k].id == k && k < nextTicketId)
      && (forall k :: k in comments ==> comments[k].id == k && k < nextCommentId)
      && (forall k :: k in comments ==> comments[k].ticketId in tickets)
      && (forall k :: k in tickets ==> Lifecycle.ClosedWhenResolved(tickets[k]))
      && (forall a, b :: a in users && b in users && users[a].username == users[b].username ==> a == b)
    }

    /** `db.create_all()` on an empty database. */
    constructor ()
      ensures Valid()
      ensures users == map[] && tickets == map[] && comments == map[] && uploads == {}
    {
      users, tickets, comments, uploads := map[], map[], map[], {};
      nextUserId, nextTicketId, nextCommentId := 1, 1, 1;
    }

    /**
     * `init_db`: afterwards a user `admin` exists and is a superuser. An
     * existing `admin` only gets the flag; otherwise one is created with the
     * default password.
     */
    method InitDb()
      requires Valid()
      modifies this
      ensures Valid()
      ensures exists k :: k in users && users[k].username == "admin" && users[k].isSuperuser
      ensures old(UsernameExists(users, "admin")) ==>
                && State() == old(State()).(users := users)
                && users.Keys == old(users).Keys
                && forall k :: k in users ==>
                     users[k] == if old(users)[k].username == "admin" then old(users)[k].(isSuperuser := true) else old(users)[k]
      ensures !old(UsernameExists(users, "admin")) ==>
                State() == old(State()).(users := old(users)[old(nextUserId) := User(old(nextUserId), "admin", HashPassword("admin123"), true)],
                                         nextUserId := old(nextUserId) + 1)
    {
      if k :| k in users && users[k].username == "admin" {
        users := users[k := users[k].(isSuperuser := true)];
        assert users[k].username == "admin" && users[k].isSuperuser;
      } else {
        var id := nextUserId;
        users := users[id := User(id, "admin", HashPassword("admin123"), true)];
        nextUserId := nextUserId + 1;
        assert users[id].username == "admin";
      }
    }

    /**
     * `login`: when the user with that name exists and the password checks
     * out, the session is filled from that user; otherwise it is left as it
     * was.
     */
    method Login(s: Session, username: string, password: string) returns (r: Session)
      requires Valid()
      ensures forall k :: k in users && users[k].username == username ==>
                r == if CheckPassword(users[k].passwordHash, password) then SessionFor(users[k]) else s
      ensures !UsernameExists(users, username) ==> r == s
    {
      r := s;
      if k :| k in users && users[k].username == username {
        if CheckPassword(users[k].passwordHash, password) {
          r := SessionFor(users[k]);
        }
      }
    }

    /** `new_mezzi`: a public vehicle ticket, with the upload stored when its name is allowed. */
    method NewMezzo(requesterName: string, vehicleType: string, vehicleNumber: string, anomalyCategory: string,
                    description: string, upload: Option<string>, storedName: string, now: Time) returns (id: Id)
      requires Valid()
      modifies this
      ensures Valid()
      ensures id == old(nextTicketId) && id !in old(tickets)
      ensures var image := Uploads.Attachment(upload, storedName);
              State() == old(State()).(
                tickets := old(tickets)[id := Lifecycle.NewMezzo(id, now, requesterName, vehicleType, vehicleNumber,
                                                                 anomalyCategory, description, image)],
                uploads := if image.Some? then old(uploads) + {storedName} else old(uploads),
                nextTicketId := id + 1)
    {
      var image := Uploads.Attachment(upload, storedName);
      if image.Some? {
        uploads := uploads + {storedName};
      }
      id := nextTicketId;
      tickets := tickets[id := Lifecycle.NewMezzo(id, now, requesterName, vehicleType, vehicleNumber,
                                                  anomalyCategory, description, image)];
      nextTicketId := nextTicketId + 1;
    }

    /** `new_tecnico`: a public technical ticket, with the upload stored when its name is allowed. */
    method NewTecnico(requesterName: string, title: string, priority: string, description: string,
                      upload: Option<string>, storedName: string, now: Time) returns (id: Id)
      requires Valid()
      modifies this
      ensures Valid()
      ensures id == old(nextTicketId) && id !in old(tickets)
      ensures var image := Uploads.Attachment(upload, storedName);
              State() == old(State()).(
                tickets := old(tickets)[id := Lifecycle.NewTecnico(id, now, requesterName, title, priority, description, image)],
                uploads := if image.Some? then old(uploads) + {storedName} else old(uploads),
                nextTicketId := id + 1)
    {
      var image := Uploads.Attachment(upload, storedName);
      if image.Some? {
        uploads := uploads + {storedName};
      }
      id := nextTicketId;
      tickets := tickets[id := Lifecycle.NewTecnico(id, now, requesterName, title, priority, description, image)];
      nextTicketId := nextTicketId + 1;
    }

    /** `dashboard`: behind `login_required`, the requested page of the filtered, newest-first listing. */
    method ListTickets(s: Session, q: Dashboard.Query) returns (o: Outcome, page: seq<Ticket>)
      requires Valid() && Dashboard.WellFormed(q)
      ensures !LoginRequired(s) ==> o == NotLoggedIn && page == []
      ensures LoginRequired(s) ==> o == Done && page == Dashboard.View(tickets, q)
    {
      if !LoginRequired(s) {
        return NotLoggedIn, [];
      }
      o, page := Done, Dashboard.View(tickets, q);
    }

    /** The `update_status` action of `ticket_detail`. */
    method UpdateStatus(s: Session, id: Id, status: string, now: Time) returns (o: Outcome)
      requires Valid()
      modifies this
      ensures Valid()
      ensures TicketGate(s, old(tickets), id).Some? ==> Some(o) == TicketGate(s, old(tickets), id) && State() == old(State())
      ensures TicketGate(s, old(tickets), id).None? ==>
                o == Done && State() == old(State()).(tickets := old(tickets)[id := Lifecycle.UpdateStatus(old(tickets)[id], status, now)])
    {
      var d := TicketGate(s, tickets, id);
      if d.Some? {
        return d.value;
      }
      tickets := tickets[id := Lifecycle.UpdateStatus(tickets[id], status, now)];
      o := Done;
    }

    /** The `assign` action of `ticket_detail`: `None` stands for an empty field or `none`; the id is not checked against the users. */
    method Assign(s: Session, id: Id, assignee: Option<Id>) returns (o: Outcome)
      requires Valid()
      modifies this
      ensures Valid()
      ensures TicketGate(s, old(tickets), id).Some? ==> Some(o) == TicketGate(s, old(tickets), id) && State() == old(State())
      ensures TicketGate(s, old(tickets), id).None? ==>
                o == Done && State() == old(State()).(tickets := old(tickets)[id := old(tickets)[id].(assignedTo := assignee)])
    {
      var d := TicketGate(s, tickets, id);
      if d.Some? {
        return d.value;
      }
      tickets := tickets[id := tickets[id].(assignedTo := assignee)];
      o := Done;
    }

    /** The `delete` action of `ticket_detail`: the ticket, its comments and its image go. */
    method DeleteTicket(s: Session, id: Id) returns (o: Outcome)
      requires Valid()
      modifies this
      ensures Valid()
      ensures TicketGate(s, old(tickets), id).Some? ==> Some(o) == TicketGate(s, old(tickets), id) && State() == old(State())
      ensures TicketGate(s, old(tickets), id).None? ==>
                && o == Done
                && State() == old(State()).(tickets := old(tickets) - {id},
                                            comments := Lifecycle.Cascade(old(comments), id),
                                            uploads := Uploads.Discard(old(uploads), old(tickets)[id].imageFilename))
    {
      var d := TicketGate(s, tickets, id);
      if d.Some? {
        return d.value;
      }
      uploads := Uploads.Discard(uploads, tickets[id].imageFilename);
      comments := Lifecycle.Cascade(comments, id);
      tickets := tickets - {id};
      o := Done;
    }

    /** The `add_comment` action of `ticket_detail`: both fields are stripped and must stay non-empty. */
    method AddComment(s: Session, id: Id, authorName: string, body: string, now: Time) returns (o: Outcome)
      requires Valid()
      modifies this
      ensures Valid()
      ensures TicketGate(s, old(tickets), id).Some? ==> Some(o) == TicketGate(s, old(tickets), id) && State() == old(State())
      ensures TicketGate(s, old(tickets), id).None? && (Trim(authorName) == [] || Trim(body) == []) ==>
                o == Rejected(MissingField) && State() == old(State())
      ensures TicketGate(s, old(tickets), id).None? && Trim(authorName) != [] && Trim(body) != [] ==>
                && o == Done
                && State() == old(State()).(
                     comments := old(comments)[old(nextCommentId) := Comment(old(nextCommentId), id, Trim(authorName), Trim(body), now)],
                     nextCommentId := old(nextCommentId) + 1)
    {
      var d := TicketGate(s, tickets, id);
      if d.Some? {
        return d.value;
      }
      var author, text := Trim(authorName), Trim(body);
      if author == [] || text == [] {
        return Rejected(MissingField);
      }
      comments := comments[nextCommentId := Comment(nextCommentId, id, author, text, now)];
      nextCommentId := nextCommentId + 1;
      o := Done;
    }

    /** The `update_priority` action of `ticket_detail`. */
    method UpdatePriority(s: Session, id: Id, priority: string) returns (o: Outcome)
      requires Valid()
      modifies this
      ensures Valid()
      ensures TicketGate(s, old(tickets), id).Some? ==> Some(o) == TicketGate(s, old(tickets), id) && State() == old(State())
      ensures TicketGate(s, old(tickets), id).None? ==>
                match Lifecycle.UpdatePriority(old(tickets)[id], priority)
                case Refused(why) => o == Rejected(why) && State() == old(State())
                case Changed(t) => o == Done && State() == old(State()).(tickets := old(tickets)[id := t])
    {
      var d := TicketGate(s, tickets, id);
      if d.Some? {
        return d.value;
      }
      match Lifecycle.UpdatePriority(tickets[id], priority)
      case Refused(why) =>
        o := Rejected(why);
      case Changed(t) =>
        tickets := tickets[id := t];
        o := Done;
    }

    /** The `create` action of `manage_users`: both fields are stripped and must stay non-empty, and the name must be new. */
    method CreateUser(s: Session, username: string, password: string, isSuperuser: bool) returns (o: Outcome)
      requires Valid()
      modifies this
      ensures Valid()
      ensures Denial(s, true).Some? ==> Some(o) == Denial(s, true) && State() == old(State())
      ensures Denial(s, true).None? && (Trim(username) == [] || Trim(password) == []) ==>
                o == Rejected(MissingField) && State() == old(State())
      ensures Denial(s, true).None? && Trim(username) != [] && Trim(password) != [] && UsernameExists(old(users), Trim(username)) ==>
                o == Rejected(UsernameTaken) && State() == old(State())
      ensures Denial(s, true).None? && Trim(username) != [] && Trim(password) != [] && !UsernameExists(old(users), Trim(username)) ==>
                && o == Done
                && State() == old(State()).(
                     users := old(users)[old(nextUserId) := User(old(nextUserId), Trim(username), HashPassword(Trim(password)), isSuperuser)],
                     nextUserId := old(nextUserId) + 1)
    {
      var d := Denial(s, true);
      if d.Some? {
        return d.value;
      }
      var name, secret := Trim(username), Trim(password);
      if name == [] || secret == [] {
        return Rejected(MissingField);
      }
      if UsernameExists(users, name) {
        return Rejected(UsernameTaken);
      }
      users := users[nextUserId := User(nextUserId, name, HashPassword(secret), isSuperuser)];
      nextUserId := nextUserId + 1;
      o := Done;
    }

    /**
     * The `delete` action of `manage_users`. `None` stands for an empty
     * `user_id` field, which the handler ignores. Nobody deletes their own
     * account; the tickets of a deleted user stay, owned by nobody.
     */
    method DeleteUser(s: Session, userId: Option<Id>) returns (o: Outcome)
      requires Valid()
      modifies this
      ensures Valid()
      ensures Denial(s, true).Some? ==> Some(o) == Denial(s, true) && State() == old(State())
      ensures Denial(s, true).None? && userId.None? ==> o == Ignored && State() == old(State())
      ensures Denial(s, true).None? && userId.Some? && userId.value !in old(users) ==> o == NotFound && State() == old(State())
      ensures Denial(s, true).None? && userId.Some? && userId.value in old(users) && s.userId == userId ==>
                o == Rejected(SelfDelete) && State() == old(State())
      ensures Denial(s, true).None? && userId.Some? && userId.value in old(users) && s.userId != userId ==>
                && o == Done
                && State() == old(State()).(users := old(users) - {userId.value},
                                            tickets := Lifecycle.Detach(old(tickets), userId.value))
    {
      var d := Denial(s, true);
      if d.Some? {
        return d.value;
      }
      if userId.None? {
        return Ignored;
      }
      var uid := userId.value;
      if uid !in users {
        return NotFound;
      }
      if s.userId == Some(uid) {
        return Rejected(SelfDelete);
      }
      users := users - {uid};
      tickets := Lifecycle.Detach(tickets, uid);
      o := Done;
    }

    /**
     * The `reset_password` action of `manage_users`: the new password is
     * stripped and must stay non-empty, then the user must exist (`None`
     * stands for an empty `user_id` field).
     */
    method ResetPassword(s: Session, userId: Option<Id>, newPassword: string) returns (o: Outcome)
      requires Valid()
      modifies this
      ensures Valid()
      ensures Denial(s, true).Some? ==> Some(o) == Denial(s, true) && State() == old(State())
      ensures Denial(s, true).None? && Trim(newPassword) == [] ==> o == Rejected(MissingField) && State() == old(State())
      ensures Denial(s, true).None? && Trim(newPassword) != [] && (userId.None? || userId.value !in old(users)) ==>
                o == NotFound && State() == old(State())
      ensures Denial(s, true).None? && Trim(newPassword) != [] && userId.Some? && userId.value in old(users) ==>
                && o == Done
                && State() == old(State()).(users := old(users)[userId.value := old(users)[userId.value].(passwordHash := HashPassword(Trim(newPassword)))])
    {
      var d := Denial(s, true);
      if d.Some? {
        return d.value;
      }
      var secret := Trim(newPassword);
      if secret == [] {
        return Rejected(MissingField);
      }
      if userId.None? || userId.value !in users {
        return NotFound;
      }
      var uid := userId.value;
      users := users[uid := users[uid].(passwordHash := HashPassword(secret))];
      o := Done;
    }
  }
}
