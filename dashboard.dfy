/**
 * The dashboard query of app.py: the search, status and assignee filters
 * (each applied only when non-empty after stripping, all combined with AND),
 * newest-first ordering on `created_at`, and pages of 50.
 */
module Dashboard {
  import opened Optional
  import opened Text
  import opened Records

  const PerPage := 50

  /** The query-string parameters `search`, `status`, `assigned` (here `assignee`) and `page`. */
  datatype Query = Query(search: string, status: string, assignee: string, page: int)

  /**
   * What the handler needs of its parameters: `int()` succeeds on a
   * non-empty assignee filter other than `unassigned`, and the search term
   * holds no `ilike` wildcard.
   */
  predicate WellFormed(q: Query) {
    var a := Trim(q.assignee);
    (a == [] || a == "unassigned" || IsDigits(a)) && NoWildcards(Trim(q.search))
  }

  /** The search filter for a non-empty term: the id when the term is all digits, or either text field. */
  predicate MatchesSearch(t: Ticket, term: string) {
    || (IsDigits(term) && t.id == DigitsValue(term))
    || ContainsIgnoringCase(t.requesterName, term)
    || ContainsIgnoringCase(t.description, term)
  }

  predicate MatchesAssigned(t: Ticket, a: string)
    requires a == "unassigned" || IsDigits(a)
  {
    if a == "unassigned" then t.assignedTo.None? else t.assignedTo == Some(DigitsValue(a))
  }

  /** A ticket passes every filter that is non-empty after stripping. */
  predicate Matches(t: Ticket, q: Query)
    requires WellFormed(q)
  {
    var term, st, a := Trim(q.search), Trim(q.status), Trim(q.assignee);
    && (term == [] || MatchesSearch(t, term))
    && (st == [] || t.status == st)
    && (a == [] || MatchesAssigned(t, a))
  }

  function Filter(tickets: map<Id, Ticket>, q: Query): (r: map<Id, Ticket>)
    requires WellFormed(q)
    ensures forall k :: k in r <==> k in tickets && Matches(tickets[k], q)
    ensures forall k :: k in r ==> r[k] == tickets[k]
  {
    map k | k in tickets && Matches(tickets[k], q) :: tickets[k]
  }

  /** Every row is stored under its own id. */
  predicate Keyed(m: map<Id, Ticket>) {
    forall k :: k in m ==> m[k].id == k
  }

  predicate NewestFirst(r: seq<Ticket>) {
    forall i, j :: 0 <= i < j < |r| ==> r[i].createdAt >= r[j].createdAt
  }

  /** `k` is the newest row of `m`; among rows created at the same instant, the smallest id. */
  predicate Latest(m: map<Id, Ticket>, k: Id) {
    k in m && forall j :: j in m ==> m[j].createdAt < m[k].createdAt || (m[j].createdAt == m[k].createdAt && k <= j)
  }

  lemma {:induction false} LatestExists(m: map<Id, Ticket>)
    requires m != map[]
    ensures exists k :: Latest(m, k)
    decreases |m|
  {
    var j :| j in m;
    var rest := m - {j};
    if forall x :: x in m ==> x == j {
      assert Latest(m, j);
    } else {
      var y :| y in m && y != j;
      assert y in rest;
      assert |rest| < |m| by { assert rest.Keys == m.Keys - {j}; }
      LatestExists(rest);
      var k :| Latest(rest, k);
      forall x | x in m ensures x == j || (x in rest && rest[x] == m[x]) {
      }
      if m[j].createdAt > m[k].createdAt || (m[j].createdAt == m[k].createdAt && j <= k) {
        assert Latest(m, j);
      } else {
        assert Latest(m, k);
      }
    }
  }

  /** The properties `SortNewestFirst` promises of `r` for the rows `m`. */
  predicate ListsNewestFirst(m: map<Id, Ticket>, r: seq<Ticket>) {
    && |r| == |m|
    && (forall i :: 0 <= i < |r| ==> r[i].id in m && m[r[i].id] == r[i])
    && (forall k :: k in m ==> m[k] in r)
    && (forall i, j :: 0 <= i < j < |r| ==> r[i].id != r[j].id)
    && NewestFirst(r)
  }

  /** Putting the newest row in front of a listing of the others lists them all. */
  lemma PrependLatest(m: map<Id, Ticket>, k: Id, s: seq<Ticket>)
    requires Keyed(m) && Latest(m, k)
    requires ListsNewestFirst(m - {k}, s)
    ensures ListsNewestFirst(m, [m[k]] + s)
  {
    var rest := m - {k};
    var r := [m[k]] + s;
    assert rest.Keys == m.Keys - {k};
    assert |r| == |m|;
    PrependCovers(m, k, s);
    PrependRows(m, k, s);
    PrependOrder(m, k, s);
  }

  lemma PrependCovers(m: map<Id, Ticket>, k: Id, s: seq<Ticket>)
    requires k in m
    requires forall x :: x in m - {k} ==> (m - {k})[x] in s
    ensures forall x :: x in m ==> m[x] in [m[k]] + s
  {
    forall x | x in m ensures m[x] in [m[k]] + s {
      if x != k { assert x in m - {k}; }
    }
  }

  lemma PrependRows(m: map<Id, Ticket>, k: Id, s: seq<Ticket>)
    requires k in m && m[k].id == k
    requires forall i :: 0 <= i < |s| ==> s[i].id in m - {k} && (m - {k})[s[i].id] == s[i]
    ensures forall i :: 0 <= i < |s| + 1 ==> ([m[k]] + s)[i].id in m && m[([m[k]] + s)[i].id] == ([m[k]] + s)[i]
    ensures forall i :: 0 <= i < |s| ==> s[i].id != k
  {
  }

  lemma PrependOrder(m: map<Id, Ticket>, k: Id, s: seq<Ticket>)
    requires Latest(m, k) && m[k].id == k
    requires forall i :: 0 <= i < |s| ==> s[i].id in m - {k} && (m - {k})[s[i].id] == s[i]
    requires forall i, j :: 0 <= i < j < |s| ==> s[i].id != s[j].id
    requires NewestFirst(s)
    ensures forall i, j :: 0 <= i < j < |s| + 1 ==> ([m[k]] + s)[i].id != ([m[k]] + s)[j].id
    ensures NewestFirst([m[k]] + s)
  {
    var r := [m[k]] + s;
    forall i, j | 0 <= i < j < |r| ensures r[i].id != r[j].id && r[i].createdAt >= r[j].createdAt {
      var y := s[j - 1];
      assert r[j] == y;
      assert y.id in m && m[y.id] == y;
      if i > 0 { assert r[i] == s[i - 1]; }
    }
  }

  /**
   * `order_by(Ticket.created_at.desc())`: every row once, newest first. Ties
   * are broken here by id; the database promises no particular tie order,
   * so a page cut through tied rows is exact only under this choice.
   */
  function SortNewestFirst(m: map<Id, Ticket>): (r: seq<Ticket>)
    requires Keyed(m)
    ensures ListsNewestFirst(m, r)
    decreases |m|
  {
    if m == map[] then []
    else
      LatestExists(m);
      var k :| Latest(m, k);
      var rest := m - {k};
      assert |rest| < |m| by { assert rest.Keys == m.Keys - {k}; }
      var s := SortNewestFirst(rest);
      PrependLatest(m, k, s);
      [m[k]] + s
  }

  /** Flask-SQLAlchemy's `paginate(..., error_out=False)` reads a page below 1 as page 1. */
  function PageNumber(page: int): (n: nat)
    ensures n >= 1 && (page >= 1 ==> n == page)
  {
    if page < 1 then 1 else page
  }

  /** The position of the first item of page `page`. */
  function PageStart(page: int): (lo: nat)
    ensures lo == (PageNumber(page) - 1) * PerPage
  {
    (PageNumber(page) - 1) * PerPage
  }

  /**
   * Page `page` of `r`: the (at most) 50 items from position
   * (page - 1) * 50 on, and nothing past the end.
   */
  function Paginate(r: seq<Ticket>, page: int): (p: seq<Ticket>)
    ensures var lo := PageStart(page);
            && |p| <= PerPage
            && (lo >= |r| ==> p == [])
            && (lo < |r| ==> |p| == if |r| - lo < PerPage then |r| - lo else PerPage)
            && forall i :: 0 <= i < |p| ==> lo + i < |r| && p[i] == r[lo + i]
  {
    var lo := PageStart(page);
    if lo >= |r| then []
    else if |r| - lo < PerPage then r[lo..]
    else r[lo..lo + PerPage]
  }

  /** The tickets the dashboard lists on the requested page. */
  function View(tickets: map<Id, Ticket>, q: Query): seq<Ticket>
    requires Keyed(tickets) && WellFormed(q)
  {
    Paginate(SortNewestFirst(Filter(tickets, q)), q.page)
  }

  /** A slice of a listing of `m` is made of rows of `m`, each once, newest first. */
  lemma SliceOfListing(m: map<Id, Ticket>, r: seq<Ticket>, lo: nat, hi: nat)
    requires lo <= hi <= |r|
    requires forall i :: 0 <= i < |r| ==> r[i].id in m && m[r[i].id] == r[i]
    requires forall i, j :: 0 <= i < j < |r| ==> r[i].id != r[j].id
    requires NewestFirst(r)
    ensures var p := r[lo..hi];
            && (forall i :: 0 <= i < |p| ==> p[i].id in m && m[p[i].id] == p[i])
            && (forall i, j :: 0 <= i < j < |p| ==> p[i].id != p[j].id)
            && NewestFirst(p)
  {
    var p := r[lo..hi];
    forall i | 0 <= i < |p| ensures p[i].id in m && m[p[i].id] == p[i] {
      assert p[i] == r[lo + i];
    }
    forall i, j | 0 <= i < j < |p| ensures p[i].createdAt >= p[j].createdAt && p[i].id != p[j].id {
      assert p[i] == r[lo + i] && p[j] == r[lo + j];
    }
  }

  /** A page of a listing of `m` is itself made of rows of `m`, each once, newest first. */
  lemma PageOfListing(m: map<Id, Ticket>, r: seq<Ticket>, page: int)
    requires forall i :: 0 <= i < |r| ==> r[i].id in m && m[r[i].id] == r[i]
    requires forall i, j :: 0 <= i < j < |r| ==> r[i].id != r[j].id
    requires NewestFirst(r)
    ensures var p := Paginate(r, page);
            && (forall i :: 0 <= i < |p| ==> p[i].id in m && m[p[i].id] == p[i])
            && (forall i, j :: 0 <= i < j < |p| ==> p[i].id != p[j].id)
            && NewestFirst(p)
  {
    var lo := PageStart(page);
    if lo < |r| {
      var hi := if |r| - lo < PerPage then |r| else lo + PerPage;
      assert Paginate(r, page) == r[lo..hi];
      SliceOfListing(m, r, lo, hi);
    }
  }

  /**
   * A page holds matching tickets only, newest first, each once, and is
   * empty past the last matching ticket.
   */
  lemma ViewSound(tickets: map<Id, Ticket>, q: Query)
    requires Keyed(tickets) && WellFormed(q)
    ensures var p := View(tickets, q);
            && |p| <= PerPage
            && (forall i :: 0 <= i < |p| ==> p[i].id in tickets && tickets[p[i].id] == p[i] && Matches(p[i], q))
            && (forall i, j :: 0 <= i < j < |p| ==> p[i].id != p[j].id)
            && NewestFirst(p)
            && (PageStart(q.page) >= |Filter(tickets, q)| ==> p == [])
  {
    var f := Filter(tickets, q);
    PageOfListing(f, SortNewestFirst(f), q.page);
  }

  /** The page number plays no part in which tickets match. */
  lemma FilterIgnoresPage(tickets: map<Id, Ticket>, q: Query, page: int)
    requires WellFormed(q)
    ensures WellFormed(q.(page := page)) && Filter(tickets, q.(page := page)) == Filter(tickets, q)
  {
    var q' := q.(page := page);
    assert q'.search == q.search && q'.status == q.status && q'.assignee == q.assignee;
    forall t ensures Matches(t, q') == Matches(t, q) {
    }
  }

  /** Every matching ticket is listed on some page: the one its position in the ordering falls on. */
  lemma {:induction false} ViewComplete(tickets: map<Id, Ticket>, q: Query, k: Id)
    requires Keyed(tickets) && WellFormed(q)
    requires k in tickets && Matches(tickets[k], q)
    ensures exists page :: page >= 1 && tickets[k] in View(tickets, q.(page := page))
  {
    var f := Filter(tickets, q);
    var r := SortNewestFirst(f);
    assert k in f;
    var i :| 0 <= i < |r| && r[i] == tickets[k];
    var page := i / PerPage + 1;
    FilterIgnoresPage(tickets, q, page);
    assert View(tickets, q.(page := page)) == Paginate(r, page);
    OnItsPage(r, i);
  }

  /** The row at position `i` of a listing is on page `i / PerPage + 1`. */
  lemma OnItsPage(r: seq<Ticket>, i: nat)
    requires i < |r|
    ensures r[i] in Paginate(r, i / PerPage + 1)
  {
    var lo := PageStart(i / PerPage + 1);
    assert lo <= i < lo + PerPage;
    assert Paginate(r, i / PerPage + 1)[i - lo] == r[i];
  }

  /** Typing a ticket's id into the search box finds it, whatever its texts say. */
  lemma SearchById(t: Ticket, q: Query)
    requires Trim(q.search) == Decimal(t.id)
    ensures MatchesSearch(t, Trim(q.search))
  {
    DecimalRoundTrip(t.id);
  }
}
