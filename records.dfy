/**
 * The three tables of the helpdesk (users, tickets, comments) as values, and
 * the outcomes a request handler can end in.
 */
module Records {
  import opened Optional

  type Id = nat

  /** An instant, as the handlers read it from the clock; only its order matters. */
  type Time = int

  /** `ticket_type`: the two submission forms. */
  datatype Kind = Mezzo | Tecnico

  /** The statuses the interface offers; the column itself accepts any string. */
  const Nuovo := "NUOVO"
  const InLavorazione := "IN_LAVORAZIONE"
  const Risolto := "RISOLTO"

  /** The priorities a technical ticket may be moved to. */
  const Priorities: set<string> := {"BASSA", "MEDIA", "ALTA"}

  /** A stored password credential: an ideal hash, whose check succeeds for its own password only. */
  datatype PasswordHash = Digest(password: string)

  datatype User = User(id: Id, username: string, passwordHash: PasswordHash, isSuperuser: bool)

  /**
   * One row of `tickets`: both variants share one widened record whose
   * variant-specific columns are nullable.
   */
  datatype Ticket = Ticket(
    id: Id,
    kind: Kind,
    status: string,
    createdAt: Time,
    startedAt: Option<Time>,
    closedAt: Option<Time>,
    requesterName: string,
    description: string,
    imageFilename: Option<string>,
    assignedTo: Option<Id>,
    vehicleType: Option<string>,
    vehicleNumber: Option<string>,
    anomalyCategory: Option<string>,
    department: Option<string>,
    title: Option<string>,
    priority: Option<string>)

  datatype Comment = Comment(id: Id, ticketId: Id, authorName: string, body: string, createdAt: Time)

  /** Why an authorised request changed nothing. */
  datatype Reason =
    | MissingField     // a required field is empty after stripping
    | UsernameTaken
    | SelfDelete       // a user tried to delete their own account
    | NotTechnical     // priority change on a vehicle ticket
    | InvalidPriority

  datatype Outcome =
    | Done
    | NotLoggedIn      // `login_required` redirected to the login page
    | NotSuperuser     // `superuser_required` redirected to the dashboard
    | NotFound         // unknown ticket (404) or unknown user
    | Rejected(reason: Reason)
    | Ignored          // the handler did nothing and said nothing
}
