# Helpdesk ticket store — a Dafny model

This project models the core of a small Flask helpdesk (`app.py`). Visitors
file two kinds of tickets through public forms: vehicle faults (`MEZZO`) and
technical issues (`TECNICO`). Logged-in staff then work on them from a
dashboard: they change the status, assign an owner, change the priority,
comment, and delete tickets. Superusers also manage the staff accounts.

The model keeps the three tables (users, tickets, comments) as maps keyed by
id. It adds the set of files in the upload folder and one id counter per
table. These live in the class `Helpdesk.Store`, which has one method per
request-handler action.

Each method first runs the route's guards (`login_required`, then
`superuser_required` on the user-management routes), then the handler's own
checks. Its contract gives the outcome and the whole new state of the store.
Every refused action leaves the store exactly as it was.

The rules for a single ticket are pure functions in `Lifecycle`: creation,
the status transition, the priority change, and the delete cascades. The
dashboard query is in `Dashboard`, the string handling (`strip`, `isdigit`,
`ilike`) in `Text`, and the attachment rules in `Uploads`. The session
record, the guards, login and logout are in `Auth` and `Store.Login`.

Quirks of the code, kept as written:
- `status` is an unchecked string.
- `started_at` is stamped on every move from `NUOVO` to `IN_LAVORAZIONE`, so a reopened ticket gets stamped again.
- A ticket resolved straight from `NUOVO` has no `started_at`. Reopening it to `IN_LAVORAZIONE` leaves it in progress with no start time (`Lifecycle.ResolvedThenReopenedIsUnstarted`).
- `closed_at` is never cleared.
- `assign` stores any id without checking that the user exists.
- `new_tecnico` never reads a department, so technical tickets are stored with a null department.
- The two ticket kinds share one record with nullable variant columns, as in the database table.

## Model

| member | source | states |
|---|---|---|
| Text.Trim | app.py:322-323 | `strip()` yields the slice of the field left after cutting only white space (Python's `isspace` set) from both ends, and that slice neither starts nor ends with white space |
| Text.TrimEmptyIffAllSpace | app.py:326 | a field is empty after `strip()` exactly when it holds only white space |
| Text.TrimIdempotent | app.py:275-277 | stripping an already stripped parameter changes nothing |
| Text.DecimalRoundTrip | app.py:288 | `int()` of the decimal spelling of an id gives back that id |
| Uploads.AllowedFile | app.py:104-106 | accepted iff the name has a dot and the lower-cased text after its last dot is `png`, `jpg` or `jpeg` |
| Uploads.AllowedFileExamples | app.py:20 | upper-case extensions pass, only the last dot counts, a name without a dot fails |
| Uploads.Attachment | app.py:151-160 | a ticket records the stored name iff a non-empty, allowed file name came with the form; otherwise no image, and the ticket is still created |
| Uploads.Discard | app.py:405-409 | deleting a ticket removes its image file if it names one, tolerates a missing file, and keeps every other file |
| Auth.CheckPasswordExact | app.py:42-46 | the stored hash of `p` accepts the password `q` exactly when `q == p` |
| Auth.SessionFor | app.py:250-252 | a successful login records the user's id and name and is a superuser session iff the user is a superuser |
| Auth.Denial | app.py:109-128 | a handler body runs iff the session has a `user_id` and, on superuser routes, `is_superuser`; otherwise it redirects to login or is denied, in that order |
| Auth.Logout | app.py:261-267 | after logout the session is not logged in and holds no superuser flag; without a login nothing changes |
| Lifecycle.NewMezzo | app.py:163-171 | a vehicle ticket starts `NUOVO`, unstarted, unclosed and unowned, holding the form's fields and no technical fields |
| Lifecycle.NewTecnico | app.py:220-227 | a technical ticket starts `NUOVO`, unstarted, unclosed and unowned, holding title and priority, no department and no vehicle fields |
| Lifecycle.UpdateStatus | app.py:380-389 | the status becomes the requested string. `started_at` becomes now exactly on `NUOVO`→`IN_LAVORAZIONE`. `closed_at` becomes now exactly on entering `RISOLTO` from another status. Nothing else changes, and a resolved ticket always has a closing time |
| Lifecycle.StartThenResolve | app.py:386-389 | starting at t1 then resolving at t2 gives `started_at = t1` and `closed_at = t2` |
| Lifecycle.ResolveWithoutStart | app.py:386-389 | `NUOVO`→`RISOLTO` sets `closed_at` and leaves `started_at` null |
| Lifecycle.ResolvedThenReopenedIsUnstarted | app.py:386-389 | resolving from `NUOVO` then moving to `IN_LAVORAZIONE` leaves an in-progress ticket with no start time |
| Lifecycle.ReopenRestamps | app.py:386-389 | a resolved ticket moved back to `NUOVO` and started again gets a new `started_at` and keeps its old `closed_at` |
| Lifecycle.UpdatePriority | app.py:428-438 | refused on a non-`TECNICO` ticket whatever the value, or for a value outside `BASSA`/`MEDIA`/`ALTA`; otherwise only the priority changes |
| Lifecycle.Detach | app.py:40 | after deleting a user, the same tickets remain, that user's former tickets get a null owner (`assigned_to_id` set to NULL), and no other field or ticket changes |
| Lifecycle.Cascade | app.py:82 | deleting a ticket removes exactly its comments and leaves every other comment as it was |
| Dashboard.Filter | app.py:284-301 | a ticket is kept iff it passes every non-empty stripped filter (search on id, requester or description; exact status; `unassigned` or owner id) |
| Dashboard.SortNewestFirst | app.py:304 | the listing holds every filtered ticket exactly once and nothing else, with `created_at` non-increasing |
| Dashboard.PageNumber | app.py:278 | the page used is the requested one when it is at least 1, and page 1 otherwise |
| Dashboard.Paginate | app.py:304 | page p holds at most 50 items: those from position (p-1)*50 on, and nothing past the end |
| Dashboard.ViewSound | app.py:275-305 | every ticket on a page exists and matches the filters; a page is newest first, lists no ticket twice, and is empty past the last match |
| Dashboard.ViewComplete | app.py:304 | every matching ticket appears on some page |
| Dashboard.SearchById | app.py:288 | searching for a ticket's id finds that ticket whatever its texts say |
| Helpdesk.TicketGate | app.py:371-374 | a ticket action runs iff the session is logged in and the ticket exists |
| Helpdesk.Store.constructor | app.py:453 | the store starts with empty tables and an empty upload folder |
| Helpdesk.Store.InitDb | app.py:450-469 | afterwards a superuser `admin` exists; an existing `admin` only gains the flag, otherwise one is added with the default password |
| Helpdesk.Store.Login | app.py:240-258 | the session is filled from the user with that name when the password checks; otherwise it is left unchanged |
| Helpdesk.Store.NewMezzo | app.py:139-177 | exactly one new vehicle ticket under a fresh id; the upload folder gains the stored file iff it was accepted; nothing else changes |
| Helpdesk.Store.NewTecnico | app.py:197-233 | exactly one new technical ticket under a fresh id; the upload folder gains the stored file iff it was accepted; nothing else changes |
| Helpdesk.Store.ListTickets | app.py:270-310 | without a login there is no listing; with one, the page of the filtered, sorted tickets |
| Helpdesk.Store.UpdateStatus | app.py:380-392 | guarded; only that ticket changes, by the status transition |
| Helpdesk.Store.Assign | app.py:394-402 | guarded; only that ticket's owner changes, to the given id or to nobody |
| Helpdesk.Store.DeleteTicket | app.py:404-414 | guarded; the ticket, all its comments and its image go; other tickets, comments and files stay |
| Helpdesk.Store.AddComment | app.py:416-426 | guarded; with an empty stripped author or body nothing changes; otherwise exactly one comment is added with the stripped texts and this ticket's id |
| Helpdesk.Store.UpdatePriority | app.py:428-438 | guarded; the store changes only when the priority rule accepts, and then only that ticket |
| Helpdesk.Store.CreateUser | app.py:321-335 | superuser only. An empty stripped name or password, or a name already in use, changes nothing. Otherwise exactly one user is added with the requested flag, and usernames stay unique |
| Helpdesk.Store.DeleteUser | app.py:337-348 | superuser only. An empty id is ignored, and an unknown id or the caller's own id changes nothing. Otherwise the user goes and their tickets stay, unowned |
| Helpdesk.Store.ResetPassword | app.py:350-362 | superuser only; an empty stripped password is refused before the user lookup; otherwise only that user's credential changes |

## Left out

- Flask routing, templates, `flash` messages and redirects are not modelled. Each handler ends in an `Outcome` instead. The cookie-backed session is the `Auth.Session` record, passed in and returned.
- The handlers are separate methods. The dispatch on the `action` form field is not modelled: an unknown action changes nothing.
- SQLAlchemy and SQLite persistence and commits are replaced by in-memory maps. A new row takes the table's counter. This always gives an unused id, but not necessarily the one SQLite would pick (SQLite can reuse the largest deleted id).
- Password hashing is an ideal injective hash (`Auth.HashPassword`) without Werkzeug's random salt.
- `secure_filename`, the timestamped file name, `file.save` and `os.remove` are foreign library and filesystem calls. The stored name is a parameter, and the upload folder is a set of names. The file and the database row are not updated atomically in the source; the model does not cover that gap.
- Clock readings (`datetime.utcnow()`) are passed in as `now`.
- `MAX_CONTENT_LENGTH` is enforced by Flask before any handler runs.
- SQL `ilike`: `%` and `_` in the search term would act as wildcards. `Dashboard.WellFormed` excludes them, and case folding is ASCII only, as in SQLite.
- Non-ASCII digits: `isdigit` is modelled on ASCII digits only.
- `int()` on form and query fields: the model takes numeric fields already parsed (`Option<Id>` for `user_id` and `assigned_to_id`). The `assigned` filter must be `unassigned` or decimal digits. The crashes on other text, and `int`'s acceptance of signs, spaces and underscores, are not modelled. A `page` parameter that is not an integer falls back to 1 before the model sees it.
- SQLite integers are 64-bit: `Id` is an unbounded `nat`. In the source, an all-digit `search` or `assigned` value of 2^63 or more, a `user_id` that large, or a `page` whose offset overflows raises `OverflowError` when bound into the query (`app.py:288`, `app.py:301`, `app.py:304`, `app.py:340`, `app.py:356`). The model answers those requests normally instead: a text-only search match, no assigned match, or `NotFound`.
- Helpdesk.Store.ListTickets: `order_by(created_at.desc())` leaves rows with equal `created_at` in no promised order. `Dashboard.SortNewestFirst` breaks ties by smallest id, so the method gives a page's exact contents only under that choice when tied rows straddle a page boundary. The set of matches and their newest-first order hold whatever the tie order.
- Missing form fields (`request.form.get` returning `None`) are not modelled. The text inputs are strings, and a missing required column would fail the commit.
- The detail page's comment listing (`app.py:375`) and the user lists for the drop-downs are read-only views and are not modelled.
- A session that outlives the deletion of its user keeps working in the source; the model does not track sessions across requests.
- `seed_data.py`, `manage_users.py` and `test_smtp.py` are not part of this model. They are a data-population script, an interactive console copy of the user management, and a network test.
