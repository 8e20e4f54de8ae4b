/** Listing leave requests through the provider: each page carries a signed cursor, and the next
    call decodes it. A listing finishes exactly when every call comes in time, under a keyring that
    still knows the cursor's key, the database answers, and every cursor that is needed fits. */
module LeaveListing {
  import opened Wrappers
  import C = Cursor
  import P = Pagination

  /** What stays the same through one listing: who asks, for what, and how many rows a page has. */
  datatype Session = Session(p: C.Primitives, filterText: (seq<string>, Option<int>, Option<int>) -> string,
                             customer: string, snapshot: string, q: P.Query, limit: P.Positive)

  /** One call: the table and the keyring it meets, the clock when a cursor is decoded, the
      database clock, the clock when a cursor is signed, and whether the database fails. */
  datatype Visit = Visit(rows: seq<P.Row>, ring: C.Keyring, readAt: nat, now: P.Time, signedAt: nat, failed: bool)

  datatype Page = Page(items: seq<P.Row>, next: Option<string>)
  datatype ListError = Rejected(error: C.CursorError) | Unavailable

  function Filters(s: Session): string {
    C.DigestOf(s.p, s.filterText(s.q.statuses, s.q.startFrom, s.q.startTo))
  }

  function BindingsOf(s: Session): C.Bindings {
    C.Bindings(s.customer, s.q.employee, s.q.entities, s.snapshot, Filters(s), s.limit)
  }

  /** The position that a cursor stands for. */
  function Opened(s: Session, v: Visit, cursor: Option<string>): Result<Option<C.Position>, ListError> {
    if cursor.None? then Ok(None)
    else
      match C.Decode(s.p, v.ring, v.readAt, BindingsOf(s), cursor.value)
      case Ok(at) => Ok(Some(at))
      case Err(e) => Err(Rejected(e))
  }

  function CeilingOf(v: Visit, at: Option<C.Position>): P.Time {
    if at.Some? then at.value.ceiling else v.now
  }

  function Signed(s: Session, v: Visit, at: C.Position): Result<string, C.CursorError> {
    C.Encode(s.p, v.ring, v.signedAt, BindingsOf(s), at)
  }

  /** The page of these rows, with a cursor when more follow; a cursor that cannot be issued makes
      the whole call fail. */
  function WithCursor(s: Session, v: Visit, page: P.Page): Result<Page, ListError> {
    if page.next.None? then Ok(Page(page.items, None))
    else
      match Signed(s, v, page.next.value)
      case Ok(cursor) => Ok(Page(page.items, Some(cursor)))
      case Err(_) => Err(Unavailable)
  }

  function Call(s: Session, v: Visit, cursor: Option<string>): Result<Page, ListError> {
    if s.q.entities == [] then Ok(Page([], None))
    else
      match Opened(s, v, cursor)
      case Err(e) => Err(e)
      case Ok(at) =>
        if v.failed then Err(Unavailable)
        else WithCursor(s, v, P.PageOf(v.rows, s.q, CeilingOf(v, at), at, s.limit))
  }

  /** One call of the provider, as its statements go. */
  method ListMyLeaveRequests(s: Session, v: Visit, cursor: Option<string>) returns (r: Result<Page, ListError>)
    ensures r == Call(s, v, cursor)
  {
    hide P.PageOf, C.Encode, C.Decode, BindingsOf;
    if s.q.entities == [] {
      return Ok(Page([], None));
    }
    var at: Option<C.Position> := None;
    if cursor.Some? {
      match C.Decode(s.p, v.ring, v.readAt, BindingsOf(s), cursor.value) {
        case Ok(position) => at := Some(position);
        case Err(e) => return Err(Rejected(e));
      }
    }
    if v.failed {
      return Err(Unavailable);
    }
    var records, last := ReadPage(v.rows, s.q, CeilingOf(v, at), at, s.limit);
    var next := None;
    if last.Some? {
      match Signed(s, v, last.value) {
        case Ok(issued) => next := Some(issued);
        case Err(_) => return Err(Unavailable);
      }
    }
    r := Ok(Page(records, next));
  }

  /** The query for one row more than the page holds, and the position of the last row shown when
      there was one more. */
  method ReadPage(rows: seq<P.Row>, q: P.Query, ceiling: P.Time, at: Option<C.Position>, limit: P.Positive)
    returns (records: seq<P.Row>, next: Option<C.Position>)
    ensures P.Page(records, next) == P.PageOf(rows, q, ceiling, at, limit)
  {
    P.PageParts(rows, q, ceiling, at, limit);
    hide P.Answer, P.PageOf;
    var all := P.Answer(rows, q, ceiling, at);
    var fetched := all[..P.Shorter(limit + 1, |all|)];
    var more := |fetched| > limit;
    var pageRows := fetched[..P.Shorter(limit, |fetched|)];
    assert pageRows == all[..P.Shorter(limit, |all|)];
    records := [];
    for i := 0 to |pageRows|
      invariant records == pageRows[..i]
    {
      records := records + [pageRows[i]];
    }
    assert records == pageRows;
    next := None;
    if more && records != [] {
      var last := records[|records| - 1];
      next := Some(C.Position(ceiling, last.submitted, last.requestId));
    }
  }

  /** Every page the provider answers with passes the list handler's checks, whatever the cursor
      and the state of the table. */
  lemma PagesPass(s: Session, v: Visit, cursor: Option<string>)
    requires P.Table(v.rows) && Call(s, v, cursor).Ok?
    ensures var page := Call(s, v, cursor).value;
      P.PageAcceptable(page.items, page.next.Some?, s.q.employee, s.q.entities, s.limit)
  {
    if s.q.entities != [] {
      var at := Opened(s, v, cursor).value;
      P.PagesPass(v.rows, s.q, CeilingOf(v, at), at, s.limit);
      hide P.PageOf, P.PageAcceptable, P.Table, C.Encode, Opened;
    }
  }

  // --- following the cursors -----------------------------------------------------------------

  datatype End = Done | Stopped(error: ListError) | CallsRanOut
  datatype Listing = Listing(pages: seq<Page>, end: End)

  /** Call after call, each with the cursor of the page before. */
  function Follow(s: Session, visits: seq<Visit>, cursor: Option<string>): Listing
    decreases |visits|
  {
    if visits == [] then Listing([], CallsRanOut)
    else
      match Call(s, visits[0], cursor)
      case Err(e) => Listing([], Stopped(e))
      case Ok(page) =>
        if page.next.None? then Listing([page], Done)
        else
          var rest := Follow(s, visits[1..], page.next);
          Listing([page] + rest.pages, rest.end)
  }

  function Items(pages: seq<Page>): seq<P.Row> {
    if pages == [] then [] else pages[0].items + Items(pages[1..])
  }

  /** The keyring still knows the key that signed the last cursor, and the cursor is alive. */
  predicate Alive(last: Visit, v: Visit) {
    && C.Find(C.Keys(v.ring), last.ring.active.id) == Some(last.ring.active)
    && last.signedAt <= v.readAt <= last.signedAt + last.ring.ttl
  }

  /** The cursor that is signed at this visit for a position with these two times fits. */
  predicate Fits(s: Session, v: Visit, ceiling: P.Time, submitted: P.Time) {
    |C.Escaped(v.ring.active.id)| + |C.Escaped(Filters(s))|
    + |C.NumberText(v.signedAt)| + |C.NumberText(v.signedAt + v.ring.ttl)| + |C.NumberText(s.limit)|
    + |s.p.iso(ceiling)| + |s.p.iso(submitted)| <= 146
  }

  /** Primitives read back what they wrote and have their sizes. */
  ghost predicate Ideal(s: Session) {
    C.Faithful(s.p) && C.Sized(s.p) && C.Identifiers(s.q.entities)
  }

  /** No later keyring gives the id of this visit's key to another key. */
  predicate NotReused(last: Visit, v: Visit) {
    C.Find(C.Keys(v.ring), last.ring.active.id) in {None, Some(last.ring.active)}
  }

  /** The cursor is the one that `last` issued for `at`; at the start there are none of them. */
  ghost predicate Linked(s: Session, last: Option<Visit>, at: Option<C.Position>, cursor: Option<string>) {
    && (cursor.Some? <==> last.Some?) && (at.Some? <==> last.Some?)
    && (last.Some? ==> Signed(s, last.value, at.value) == Ok(cursor.value))
  }

  lemma FitsIff(s: Session, v: Visit, at: C.Position)
    requires Ideal(s)
    ensures Signed(s, v, at).Ok? <==> Fits(s, v, at.ceiling, at.submitted)
  {
    C.IssuedIff(s.p, v.ring, v.signedAt, BindingsOf(s), at);
    hide C.Encode, C.Escaped, C.NumberText, C.Sized, C.Faithful;
  }

  lemma OpenedIs(s: Session, last: Visit, v: Visit, at: C.Position, cursor: string)
    requires Ideal(s) && NotReused(last, v) && Signed(s, last, at) == Ok(cursor)
    ensures Opened(s, v, Some(cursor)) == if Alive(last, v) then Ok(Some(at)) else Err(Rejected(C.InvalidCursor))
  {
    var b := BindingsOf(s);
    assert C.NoCollision(s.p, last.ring.active.raw, b, b) && C.SameBindings(b, b);
    assert C.OnlySigner(s.p, v.ring, last.ring.active, C.Body(s.p, last.ring, last.signedAt, b, at));
    hide C.Encode, C.Decode, C.Faithful, C.Sized, C.NoCollision, C.OnlySigner, C.Body, BindingsOf;
    C.DecodeIssued(s.p, last.ring, last.signedAt, b, at, v.ring, v.readAt, b);
  }

  function FilterTextOf(s: Session): string {
    s.filterText(s.q.statuses, s.q.startFrom, s.q.startTo)
  }

  /** What two sessions have in common when a cursor of one is good for the other: who asks, which
      entities may be seen, under which authorisation, for what, and how many rows to a page. */
  ghost predicate SameListing(s: Session, u: Session) {
    && u.customer == s.customer && u.q.employee == s.q.employee && u.snapshot == s.snapshot
    && multiset(u.q.entities) == multiset(s.q.entities) && FilterTextOf(u) == FilterTextOf(s) && u.limit == s.limit
  }

  /** The shortened MACs and hashes of what the two sessions bind do not collide. */
  ghost predicate Apart(s: Session, u: Session, key: C.Key) {
    && C.NoCollision(s.p, key.raw, BindingsOf(s), BindingsOf(u))
    && (C.Short(s.p.sha(FilterTextOf(s))) == C.Short(s.p.sha(FilterTextOf(u))) ==> FilterTextOf(s) == FilterTextOf(u))
  }

  /** A cursor of one session is accepted in another exactly while it is alive and when the two ask
      for the same listing; nothing else opens it. */
  lemma OtherSession(s: Session, u: Session, last: Visit, v: Visit, at: C.Position, cursor: string)
    requires Ideal(s) && Ideal(u) && u.p == s.p && Apart(s, u, last.ring.active)
    requires NotReused(last, v) && Signed(s, last, at) == Ok(cursor)
    ensures Opened(u, v, Some(cursor)) ==
      if Alive(last, v) && SameListing(s, u) then Ok(Some(at)) else Err(Rejected(C.InvalidCursor))
  {
    hide *;
    SignedElsewhere(s, u, last, v, at, cursor);
    SameListingIff(s, u, last.ring.active);
    OpenedIsDecoded(u, v, cursor);
  }

  lemma SignedElsewhere(s: Session, u: Session, last: Visit, v: Visit, at: C.Position, cursor: string)
    requires Ideal(s) && Ideal(u) && u.p == s.p && Apart(s, u, last.ring.active)
    requires NotReused(last, v) && Signed(s, last, at) == Ok(cursor)
    ensures C.Decode(s.p, v.ring, v.readAt, BindingsOf(u), cursor) ==
      if Alive(last, v) && C.SameBindings(BindingsOf(s), BindingsOf(u)) then Ok(at) else Err(C.InvalidCursor)
  {
    hide *;
    SessionParts(s, u, last.ring.active);
    SignerParts(s, last, v, at, cursor);
    C.DecodeIssued(s.p, last.ring, last.signedAt, BindingsOf(s), at, v.ring, v.readAt, BindingsOf(u));
  }

  lemma SessionParts(s: Session, u: Session, key: C.Key)
    requires Ideal(s) && Ideal(u) && u.p == s.p && Apart(s, u, key)
    ensures C.Faithful(s.p) && C.NoCollision(s.p, key.raw, BindingsOf(s), BindingsOf(u))
    ensures C.Identifiers(BindingsOf(s).entities) && C.Identifiers(BindingsOf(u).entities)
  {
    hide C.Faithful, C.Sized, C.NoCollision, C.Identifiers, C.DigestOf;
  }

  lemma SignerParts(s: Session, last: Visit, v: Visit, at: C.Position, cursor: string)
    requires NotReused(last, v) && Signed(s, last, at) == Ok(cursor)
    ensures C.OnlySigner(s.p, v.ring, last.ring.active, C.Body(s.p, last.ring, last.signedAt, BindingsOf(s), at))
    ensures C.Encode(s.p, last.ring, last.signedAt, BindingsOf(s), at) == Ok(cursor)
    ensures Alive(last, v) <==> C.Find(C.Keys(v.ring), last.ring.active.id) == Some(last.ring.active)
                                && last.signedAt <= v.readAt <= last.signedAt + last.ring.ttl
  {
    hide C.Encode, C.Body, BindingsOf;
  }

  lemma OpenedIsDecoded(u: Session, v: Visit, cursor: string)
    ensures Opened(u, v, Some(cursor)) ==
      match C.Decode(u.p, v.ring, v.readAt, BindingsOf(u), cursor)
      case Ok(at) => Ok(Some(at))
      case Err(e) => Err(Rejected(e))
  {
    hide C.Decode, BindingsOf;
  }

  lemma SameListingIff(s: Session, u: Session, key: C.Key)
    requires u.p == s.p && Apart(s, u, key)
    ensures C.SameBindings(BindingsOf(s), BindingsOf(u)) <==> SameListing(s, u)
  {
    hide C.NoCollision, C.Short;
    if C.DigestOf(s.p, FilterTextOf(s)) == C.DigestOf(s.p, FilterTextOf(u)) {
      C.EncodeInjective(C.Short(s.p.sha(FilterTextOf(s))), C.Short(s.p.sha(FilterTextOf(u))));
    }
  }

  /** One call in terms of the position that its cursor stands for. */
  lemma CallIs(s: Session, last: Option<Visit>, v: Visit, at: Option<C.Position>, cursor: Option<string>)
    requires Ideal(s) && s.q.entities != [] && Linked(s, last, at, cursor)
    requires last.Some? ==> NotReused(last.value, v)
    ensures var page := P.PageOf(v.rows, s.q, CeilingOf(v, at), at, s.limit);
      if last.Some? && !Alive(last.value, v) then Call(s, v, cursor) == Err(Rejected(C.InvalidCursor))
      else if v.failed then Call(s, v, cursor) == Err(Unavailable)
      else if page.next.None? then Call(s, v, cursor) == Ok(Page(page.items, None))
      else if !Fits(s, v, page.next.value.ceiling, page.next.value.submitted) then Call(s, v, cursor) == Err(Unavailable)
      else
        && Call(s, v, cursor).Ok? && Call(s, v, cursor).value.items == page.items
        && Linked(s, Some(v), page.next, Call(s, v, cursor).value.next)
  {
    hide *;
    if last.Some? {
      LinkedMeans(s, last, at, cursor);
      OpenedIs(s, last.value, v, at.value, cursor.value);
    } else {
      NothingToOpen(s, last, v, at, cursor);
    }
    CallCases(s, v, at, cursor);
    WithCursorIs(s, v, P.PageOf(v.rows, s.q, CeilingOf(v, at), at, s.limit));
  }

  lemma LinkedMeans(s: Session, last: Option<Visit>, at: Option<C.Position>, cursor: Option<string>)
    requires last.Some? && Linked(s, last, at, cursor)
    ensures at.Some? && cursor.Some? && Signed(s, last.value, at.value) == Ok(cursor.value)
    ensures at == Some(at.value) && cursor == Some(cursor.value)
  {
    hide Signed;
  }

  lemma NothingToOpen(s: Session, last: Option<Visit>, v: Visit, at: Option<C.Position>, cursor: Option<string>)
    requires last.None? && Linked(s, last, at, cursor)
    ensures at.None? && Opened(s, v, cursor) == Ok(at)
  {
  }

  lemma CallCases(s: Session, v: Visit, at: Option<C.Position>, cursor: Option<string>)
    requires s.q.entities != []
    ensures Opened(s, v, cursor).Err? ==> Call(s, v, cursor) == Err(Opened(s, v, cursor).error)
    ensures Opened(s, v, cursor) == Ok(at) ==>
      Call(s, v, cursor) == if v.failed then Err(Unavailable)
                            else WithCursor(s, v, P.PageOf(v.rows, s.q, CeilingOf(v, at), at, s.limit))
  {
    hide Opened, WithCursor, P.PageOf;
  }

  lemma WithCursorIs(s: Session, v: Visit, page: P.Page)
    requires Ideal(s)
    ensures if page.next.None? then WithCursor(s, v, page) == Ok(Page(page.items, None))
      else if !Fits(s, v, page.next.value.ceiling, page.next.value.submitted) then WithCursor(s, v, page) == Err(Unavailable)
      else
        && WithCursor(s, v, page).Ok? && WithCursor(s, v, page).value.items == page.items
        && Linked(s, Some(v), page.next, WithCursor(s, v, page).value.next)
  {
    if page.next.Some? {
      FitsIff(s, v, page.next.value);
    }
    hide Signed, Fits, Ideal;
  }

  // --- whole listings ------------------------------------------------------------------------

  function TablesOf(visits: seq<Visit>): (r: seq<seq<P.Row>>)
    ensures |r| == |visits| && forall i | 0 <= i < |r| :: r[i] == visits[i].rows
  {
    seq(|visits|, i requires 0 <= i < |visits| => visits[i].rows)
  }

  /** No keyring gives the id of the previous visit's key to another key. */
  ghost predicate NeverReused(last: Option<Visit>, visits: seq<Visit>) {
    && (last.Some? && visits != [] ==> NotReused(last.value, visits[0]))
    && forall i | 0 < i < |visits| :: NotReused(visits[i - 1], visits[i])
  }

  /** No call of the listing is stopped. */
  predicate Smooth(s: Session, last: Option<Visit>, visits: seq<Visit>, ceiling: P.Time, at: Option<C.Position>)
    decreases |visits|
  {
    visits == [] ||
      var v := visits[0];
      var page := P.PageOf(v.rows, s.q, ceiling, at, s.limit);
      && (last.Some? ==> Alive(last.value, v)) && !v.failed
      && (page.next.Some? ==>
            Fits(s, v, ceiling, page.next.value.submitted) && Smooth(s, Some(v), visits[1..], ceiling, page.next))
  }

  /** The ceiling of a listing is the database clock of its first call. */
  ghost predicate CeilingIs(visits: seq<Visit>, ceiling: P.Time, at: Option<C.Position>) {
    if at.Some? then at.value.ceiling == ceiling else visits != [] ==> visits[0].now == ceiling
  }

  lemma ItemsCons(page: Page, rest: seq<Page>)
    ensures Items([page] + rest) == page.items + Items(rest)
  {
    assert ([page] + rest)[1..] == rest;
  }

  lemma NextCeiling(v: Visit, s: Session, ceiling: P.Time, at: Option<C.Position>)
    ensures var next := P.PageOf(v.rows, s.q, ceiling, at, s.limit).next;
      next.Some? ==> next.value.ceiling == ceiling
  {
    hide P.Answer;
  }

  /** Following the cursors is following the positions, as long as no call is stopped; and what
      comes until then is the beginning of it. */
  lemma {:induction false} FollowIs(s: Session, last: Option<Visit>, visits: seq<Visit>, ceiling: P.Time,
                                    at: Option<C.Position>, cursor: Option<string>)
    requires Ideal(s) && s.q.entities != [] && Linked(s, last, at, cursor) && NeverReused(last, visits)
    requires CeilingIs(visits, ceiling, at)
    ensures Keeps(Follow(s, visits, cursor), P.Delivered(TablesOf(visits), s.q, ceiling, at, s.limit),
                  P.Taken(TablesOf(visits), s.q, ceiling, at, s.limit),
                  P.Finished(TablesOf(visits), s.q, ceiling, at, s.limit), Smooth(s, last, visits, ceiling, at))
    decreases |visits|
  {
    hide *;
    if visits == [] {
      KeepsNothing(s, last, visits, ceiling, at, cursor);
    } else {
      var v := visits[0];
      var page := P.PageOf(v.rows, s.q, ceiling, at, s.limit);
      var got := Call(s, v, cursor);
      Reuse(last, visits);
      CeilingHolds(visits, ceiling, at);
      CallIs(s, last, v, at, cursor);
      NextCeiling(v, s, ceiling, at);
      FollowStep(s, visits, cursor);
      SmoothStep(s, last, visits, ceiling, at);
      DeliveredStep(s, visits, ceiling, at);
      if page.next.Some? && got.Ok? {
        CeilingGoesOn(visits[1..], ceiling, page.next);
        FollowIs(s, Some(v), visits[1..], ceiling, page.next, got.value.next);
        LinkedSome(s, v, page.next, got.value.next);
        KeepsOn(got.value, Follow(s, visits[1..], got.value.next),
                P.Delivered(TablesOf(visits[1..]), s.q, ceiling, page.next, s.limit),
                P.Taken(TablesOf(visits[1..]), s.q, ceiling, page.next, s.limit),
                P.Finished(TablesOf(visits[1..]), s.q, ceiling, page.next, s.limit),
                Smooth(s, Some(v), visits[1..], ceiling, page.next));
      } else if got.Ok? {
        KeepsLast(got.value);
      } else {
        assert !Smooth(s, last, visits, ceiling, at);
        KeepsStopped(got.error, P.Delivered(TablesOf(visits), s.q, ceiling, at, s.limit),
                     P.Taken(TablesOf(visits), s.q, ceiling, at, s.limit),
                     P.Finished(TablesOf(visits), s.q, ceiling, at, s.limit));
      }
    }
  }

  /** How a listing by cursors relates to what the positions deliver. */
  ghost predicate Keeps(r: Listing, delivered: seq<P.Row>, taken: nat, finished: bool, smooth: bool) {
    && Items(r.pages) <= delivered && (r.end.Stopped? <==> !smooth)
    && (smooth ==> Items(r.pages) == delivered && |r.pages| == taken && (r.end == Done <==> finished))
  }

  lemma KeepsNothing(s: Session, last: Option<Visit>, visits: seq<Visit>, ceiling: P.Time, at: Option<C.Position>,
                     cursor: Option<string>)
    requires visits == []
    ensures Keeps(Follow(s, visits, cursor), P.Delivered(TablesOf(visits), s.q, ceiling, at, s.limit),
                  P.Taken(TablesOf(visits), s.q, ceiling, at, s.limit),
                  P.Finished(TablesOf(visits), s.q, ceiling, at, s.limit), Smooth(s, last, visits, ceiling, at))
  {
    hide P.PageOf, Call;
  }

  lemma KeepsOn(got: Page, rest: Listing, later: seq<P.Row>, taken: nat, finished: bool, smooth: bool)
    requires Keeps(rest, later, taken, finished, smooth)
    ensures Keeps(Listing([got] + rest.pages, rest.end), got.items + later, 1 + taken, finished, smooth)
  {
    ItemsCons(got, rest.pages);
    hide Items;
  }

  lemma KeepsLast(got: Page)
    ensures Keeps(Listing([got], Done), got.items, 1, true, true)
  {
    ItemsCons(got, []);
    assert [got] + [] == [got];
  }

  lemma KeepsStopped(error: ListError, delivered: seq<P.Row>, taken: nat, finished: bool)
    ensures Keeps(Listing([], Stopped(error)), delivered, taken, finished, false)
  {
  }

  lemma CeilingGoesOn(rest: seq<Visit>, ceiling: P.Time, next: Option<C.Position>)
    requires next.Some? && next.value.ceiling == ceiling
    ensures CeilingIs(rest, ceiling, next)
  {
  }

  lemma LinkedSome(s: Session, v: Visit, at: Option<C.Position>, cursor: Option<string>)
    requires Linked(s, Some(v), at, cursor)
    ensures cursor.Some?
  {
    hide Signed;
  }

  lemma Reuse(last: Option<Visit>, visits: seq<Visit>)
    requires visits != [] && NeverReused(last, visits)
    ensures last.Some? ==> NotReused(last.value, visits[0])
    ensures NeverReused(Some(visits[0]), visits[1..])
  {
    hide NotReused;
  }

  lemma CeilingHolds(visits: seq<Visit>, ceiling: P.Time, at: Option<C.Position>)
    requires visits != [] && CeilingIs(visits, ceiling, at)
    ensures CeilingOf(visits[0], at) == ceiling
  {
  }

  lemma FollowStep(s: Session, visits: seq<Visit>, cursor: Option<string>)
    requires visits != []
    ensures Follow(s, visits, cursor) ==
      var got := Call(s, visits[0], cursor);
      if got.Err? then Listing([], Stopped(got.error))
      else if got.value.next.None? then Listing([got.value], Done)
      else
        var rest := Follow(s, visits[1..], got.value.next);
        Listing([got.value] + rest.pages, rest.end)
  {
    hide Call;
  }

  lemma SmoothStep(s: Session, last: Option<Visit>, visits: seq<Visit>, ceiling: P.Time, at: Option<C.Position>)
    requires visits != []
    ensures var v := visits[0];
      var page := P.PageOf(v.rows, s.q, ceiling, at, s.limit);
      Smooth(s, last, visits, ceiling, at) <==>
        && (last.Some? ==> Alive(last.value, v)) && !v.failed
        && (page.next.Some? ==>
              Fits(s, v, ceiling, page.next.value.submitted) && Smooth(s, Some(v), visits[1..], ceiling, page.next))
  {
    hide P.PageOf, Alive, Fits;
  }

  lemma DeliveredStep(s: Session, visits: seq<Visit>, ceiling: P.Time, at: Option<C.Position>)
    requires visits != []
    ensures var page := P.PageOf(visits[0].rows, s.q, ceiling, at, s.limit);
      && P.Delivered(TablesOf(visits), s.q, ceiling, at, s.limit)
           == (if page.next.None? then page.items
               else page.items + P.Delivered(TablesOf(visits[1..]), s.q, ceiling, page.next, s.limit))
      && P.Taken(TablesOf(visits), s.q, ceiling, at, s.limit)
           == (if page.next.None? then 1 else 1 + P.Taken(TablesOf(visits[1..]), s.q, ceiling, page.next, s.limit))
      && (P.Finished(TablesOf(visits), s.q, ceiling, at, s.limit) <==>
            page.next.None? || P.Finished(TablesOf(visits[1..]), s.q, ceiling, page.next, s.limit))
  {
    assert TablesOf(visits)[1..] == TablesOf(visits[1..]);
    hide P.PageOf;
  }

  // --- an unchanging table -------------------------------------------------------------------

  ghost predicate SameRows(visits: seq<Visit>, rows: seq<P.Row>) {
    forall i | 0 <= i < |visits| :: visits[i].rows == rows
  }

  /** How many rows `i` pages and one more hold. */
  function Through(i: nat, limit: P.Positive): (r: nat)
    ensures r >= limit
  {
    assert (i + 1) * limit == i * limit + limit;
    (i + 1) * limit
  }

  /** Call `i` of a listing of `all` goes through: it is alive, the database answers, and when more
      rows follow its page, the cursor behind the last row of that page fits. */
  predicate CallOk(s: Session, last: Option<Visit>, visits: seq<Visit>, ceiling: P.Time, all: seq<P.Row>, i: nat)
    requires i < |visits|
  {
    && (if i == 0 then last.Some? ==> Alive(last.value, visits[0]) else Alive(visits[i - 1], visits[i]))
    && !visits[i].failed
    && (Through(i, s.limit) < |all| ==> Fits(s, visits[i], ceiling, all[Through(i, s.limit) - 1].submitted))
  }

  ghost predicate CallsOk(s: Session, last: Option<Visit>, visits: seq<Visit>, ceiling: P.Time, all: seq<P.Row>)
    requires |visits| >= P.PageCount(|all|, s.limit)
  {
    forall i | 0 <= i < P.PageCount(|all|, s.limit) :: CallOk(s, last, visits, ceiling, all, i)
  }

  lemma NextRow(all: seq<P.Row>, limit: P.Positive, i: nat)
    requires |all| > limit
    ensures Through(i + 1, limit) == Through(i, limit) + limit
    ensures Through(i + 1, limit) < |all| ==> all[limit..][Through(i, limit) - 1] == all[Through(i + 1, limit) - 1]
  {
    assert (i + 2) * limit == (i + 1) * limit + limit;
  }

  lemma NextCallOk(s: Session, last: Option<Visit>, visits: seq<Visit>, ceiling: P.Time, all: seq<P.Row>, i: nat)
    requires |all| > s.limit && i + 1 < |visits|
    ensures CallOk(s, last, visits, ceiling, all, i + 1)
       <==> CallOk(s, Some(visits[0]), visits[1..], ceiling, all[s.limit..], i)
  {
    hide Alive, Fits, Through;
    NextRow(all, s.limit, i);
    assert visits[1..][i] == visits[i + 1];
    assert i > 0 ==> visits[1..][i - 1] == visits[i];
  }

  lemma FirstCallOk(s: Session, last: Option<Visit>, visits: seq<Visit>, ceiling: P.Time, all: seq<P.Row>)
    requires visits != []
    ensures CallOk(s, last, visits, ceiling, all, 0) <==>
      && (last.Some? ==> Alive(last.value, visits[0])) && !visits[0].failed
      && (|all| > s.limit ==> Fits(s, visits[0], ceiling, all[s.limit - 1].submitted))
  {
    hide Alive, Fits;
  }

  lemma LaterCallsOk(s: Session, last: Option<Visit>, visits: seq<Visit>, ceiling: P.Time, all: seq<P.Row>)
    requires |all| > s.limit && |visits| >= P.PageCount(|all|, s.limit)
    ensures |visits[1..]| >= P.PageCount(|all[s.limit..]|, s.limit)
    ensures CallsOk(s, last, visits, ceiling, all) <==>
      CallOk(s, last, visits, ceiling, all, 0) && CallsOk(s, Some(visits[0]), visits[1..], ceiling, all[s.limit..])
  {
    var n := P.PageCount(|all|, s.limit);
    P.PageCountStep(|all|, s.limit);
    hide CallOk, P.PageCount;
    forall i | 0 <= i < n - 1
      ensures CallOk(s, last, visits, ceiling, all, i + 1)
         <==> CallOk(s, Some(visits[0]), visits[1..], ceiling, all[s.limit..], i)
    {
      NextCallOk(s, last, visits, ceiling, all, i);
    }
    if CallsOk(s, Some(visits[0]), visits[1..], ceiling, all[s.limit..]) && CallOk(s, last, visits, ceiling, all, 0) {
      forall i | 0 <= i < n
        ensures CallOk(s, last, visits, ceiling, all, i)
      {
        assert i > 0 ==> CallOk(s, Some(visits[0]), visits[1..], ceiling, all[s.limit..], i - 1);
      }
    }
  }

  lemma CallsOkStep(s: Session, last: Option<Visit>, visits: seq<Visit>, ceiling: P.Time, all: seq<P.Row>)
    requires |visits| >= P.PageCount(|all|, s.limit)
    ensures CallsOk(s, last, visits, ceiling, all) <==>
      && (last.Some? ==> Alive(last.value, visits[0])) && !visits[0].failed
      && (|all| > s.limit ==>
            Fits(s, visits[0], ceiling, all[s.limit - 1].submitted)
            && CallsOk(s, Some(visits[0]), visits[1..], ceiling, all[s.limit..]))
  {
    P.PageCountStep(|all|, s.limit);
    hide CallOk, Alive, Fits, P.PageCount;
    FirstCallOk(s, last, visits, ceiling, all);
    if |all| > s.limit {
      LaterCallsOk(s, last, visits, ceiling, all);
    }
  }

  /** Over an unchanging table no call is stopped exactly when each needed call goes through. */
  lemma {:induction false} SmoothFixed(s: Session, last: Option<Visit>, visits: seq<Visit>, ceiling: P.Time,
                                       at: Option<C.Position>, rows: seq<P.Row>)
    requires P.Table(rows) && SameRows(visits, rows)
    requires |visits| >= P.PageCount(|P.Answer(rows, s.q, ceiling, at)|, s.limit)
    ensures Smooth(s, last, visits, ceiling, at) <==> CallsOk(s, last, visits, ceiling, P.Answer(rows, s.q, ceiling, at))
    decreases |visits|
  {
    var all := P.Answer(rows, s.q, ceiling, at);
    var page := P.PageOf(rows, s.q, ceiling, at, s.limit);
    hide *;
    RowsStay(s, visits, rows, |all|);
    P.PageParts(rows, s.q, ceiling, at, s.limit);
    P.PageCountStep(|all|, s.limit);
    CallsOkStep(s, last, visits, ceiling, all);
    SmoothStep(s, last, visits, ceiling, at);
    if |all| > s.limit {
      P.RestOfAnswer(rows, s.q, ceiling, at, s.limit);
      BehindIs(all[s.limit - 1], ceiling);
      SmoothFixed(s, Some(visits[0]), visits[1..], ceiling, page.next, rows);
    }
  }

  lemma RowsStay(s: Session, visits: seq<Visit>, rows: seq<P.Row>, n: nat)
    requires SameRows(visits, rows) && |visits| >= P.PageCount(n, s.limit)
    ensures visits != [] && visits[0].rows == rows && SameRows(visits[1..], rows)
    ensures n > s.limit ==> |visits[1..]| >= P.PageCount(n - s.limit, s.limit)
  {
  }

  lemma BehindIs(r: P.Row, ceiling: P.Time)
    ensures P.Behind(r, ceiling) == Some(C.Position(ceiling, r.submitted, r.requestId))
  {
  }

  /** From the first call on, over an unchanging table and with enough calls: the listing finishes
      exactly when every needed call goes through, and then it has delivered exactly the matching
      rows at or before the ceiling, newest first, each once, in the least number of pages that can
      hold them, and in one page at least. Otherwise some call answers an error, and what came
      before it is the beginning of the same listing. */
  lemma WholeListing(s: Session, visits: seq<Visit>, rows: seq<P.Row>)
    requires Ideal(s) && s.q.entities != [] && P.Table(rows) && visits != [] && SameRows(visits, rows)
    requires NeverReused(None, visits)
    requires |visits| >= P.PageCount(|P.Answer(rows, s.q, visits[0].now, None)|, s.limit)
    ensures var all := P.Answer(rows, s.q, visits[0].now, None);
      var r := Follow(s, visits, None);
      && (r.end == Done <==> CallsOk(s, None, visits, visits[0].now, all))
      && (r.end == Done ==>
            && P.NewestFirst(Items(r.pages))
            && (forall x :: x in Items(r.pages) <==> x in rows && P.Asked(x, s.q) && x.submitted <= visits[0].now)
            && P.Needed(|r.pages|, |Items(r.pages)|, s.limit))
      && (r.end != Done ==> r.end.Stopped? && Items(r.pages) <= all)
  {
    var ceiling := visits[0].now;
    var all := P.Answer(rows, s.q, ceiling, None);
    assert Linked(s, None, None, None) && CeilingIs(visits, ceiling, None);
    assert forall i | 0 <= i < |visits| :: TablesOf(visits)[i] == rows;
    var r := Follow(s, visits, None);
    hide *;
    P.AnswerIs(rows, s.q, ceiling, None);
    FollowIs(s, None, visits, ceiling, None, None);
    P.DeliveredCovers(TablesOf(visits), rows, s.q, ceiling, None, s.limit);
    SmoothFixed(s, None, visits, ceiling, None, rows);
    KeptMeans(r, all, P.PageCount(|all|, s.limit), Smooth(s, None, visits, ceiling, None));
    P.PageCountIsNeeded(|all|, s.limit);
  }

  /** Without an authorised entity a listing is one empty page, whatever the cursor and the database. */
  lemma NothingAuthorised(s: Session, visits: seq<Visit>, cursor: Option<string>)
    requires s.q.entities == [] && visits != []
    ensures Follow(s, visits, cursor) == Listing([Page([], None)], Done)
    ensures forall rows, ceiling, at :: P.Answer(rows, s.q, ceiling, at) == []
  {
    forall rows, ceiling, at
      ensures P.Answer(rows, s.q, ceiling, at) == []
    {
      P.NobodySelected(rows, s.q, ceiling, at);
    }
  }

  lemma KeptMeans(r: Listing, all: seq<P.Row>, taken: nat, smooth: bool)
    requires Keeps(r, all, taken, true, smooth)
    ensures (r.end == Done <==> smooth) && (r.end != Done ==> r.end.Stopped?)
    ensures Items(r.pages) <= all && (smooth ==> Items(r.pages) == all && |r.pages| == taken)
  {
    hide Items;
  }

  // --- which keyrings let a listing finish ---------------------------------------------------

  /** A full-sized call: clocks of ten digits and a page size of two. */
  predicate FullSize(s: Session, v: Visit) {
    1_000_000_000 <= v.signedAt && v.signedAt + v.ring.ttl <= 9_999_999_999 && 10 <= s.limit <= 99
  }

  /** With timestamps of 32 characters too, a cursor fits exactly when the key id, escapes counted,
      has at most 38 characters; identifiers may have 128. */
  lemma FitsByKeyId(s: Session, v: Visit, at: C.Position)
    requires Ideal(s) && FullSize(s, v) && |s.p.iso(at.ceiling)| == |s.p.iso(at.submitted)| == 32
    ensures Fits(s, v, at.ceiling, at.submitted) <==> |C.Escaped(v.ring.active.id)| <= 38
  {
    var filters := s.filterText(s.q.statuses, s.q.startFrom, s.q.startTo);
    FitsIff(s, v, at);
    C.KeyIdBound(s.p, v.ring, v.signedAt, BindingsOf(s), at, filters);
    hide Fits, C.Escaped, C.Encode, C.Sized, C.Faithful, C.DigestOf;
  }

  ghost predicate AllFullSize(s: Session, visits: seq<Visit>, rows: seq<P.Row>) {
    && (forall i | 0 <= i < |visits| :: FullSize(s, visits[i]) && |s.p.iso(visits[i].now)| == 32)
    && (forall r | r in rows :: |s.p.iso(r.submitted)| == 32)
  }

  ghost predicate InTime(visits: seq<Visit>) {
    && (forall i | 0 <= i < |visits| :: !visits[i].failed)
    && (forall i | 0 < i < |visits| :: Alive(visits[i - 1], visits[i]))
  }

  predicate ShortKeyId(v: Visit) {
    |C.Escaped(v.ring.active.id)| <= 38
  }

  lemma CallOkByKeyId(s: Session, visits: seq<Visit>, rows: seq<P.Row>, all: seq<P.Row>, i: nat)
    requires Ideal(s) && AllFullSize(s, visits, rows) && InTime(visits) && i < |visits|
    requires forall r | r in all :: r in rows
    ensures CallOk(s, None, visits, visits[0].now, all, i) <==> (Through(i, s.limit) < |all| ==> ShortKeyId(visits[i]))
  {
    hide Ideal, Fits, Alive, FullSize, C.Escaped, Through;
    if Through(i, s.limit) < |all| {
      var r := all[Through(i, s.limit) - 1];
      assert r in all;
      FitsByKeyId(s, visits[i], C.Position(visits[0].now, r.submitted, r.requestId));
    }
  }

  /** Each key that signs a cursor of a listing of `n` rows has a short id. */
  ghost predicate ShortKeyIds(s: Session, visits: seq<Visit>, n: nat)
    requires |visits| >= P.PageCount(n, s.limit)
  {
    forall i | 0 <= i < P.PageCount(n, s.limit) && Through(i, s.limit) < n :: ShortKeyId(visits[i])
  }

  lemma CallsOkByKeyId(s: Session, visits: seq<Visit>, rows: seq<P.Row>, all: seq<P.Row>)
    requires Ideal(s) && AllFullSize(s, visits, rows) && InTime(visits)
    requires |visits| >= P.PageCount(|all|, s.limit) && forall r | r in all :: r in rows
    ensures visits != []
    ensures CallsOk(s, None, visits, visits[0].now, all) <==> ShortKeyIds(s, visits, |all|)
  {
    P.PageCountIsNeeded(|all|, s.limit);
    hide Ideal, AllFullSize, InTime, CallOk, ShortKeyId, Through, P.PageCount;
    forall i | 0 <= i < P.PageCount(|all|, s.limit)
      ensures CallOk(s, None, visits, visits[0].now, all, i) <==> (Through(i, s.limit) < |all| ==> ShortKeyId(visits[i]))
    {
      CallOkByKeyId(s, visits, rows, all, i);
    }
  }

  /** When calls come in time and are of full size, a listing of more than one page finishes exactly
      when every key that signs one of its cursors has an id of at most 38 characters. */
  lemma KeyIdDecides(s: Session, visits: seq<Visit>, rows: seq<P.Row>)
    requires Ideal(s) && s.q.entities != [] && P.Table(rows) && visits != [] && SameRows(visits, rows)
    requires AllFullSize(s, visits, rows) && InTime(visits)
    requires |visits| >= P.PageCount(|P.Answer(rows, s.q, visits[0].now, None)|, s.limit)
    ensures Follow(s, visits, None).end == Done
       <==> ShortKeyIds(s, visits, |P.Answer(rows, s.q, visits[0].now, None)|)
  {
    var all := P.Answer(rows, s.q, visits[0].now, None);
    P.AnswerAscends(rows, s.q, visits[0].now, None);
    hide *;
    AliveNotReused(visits);
    WholeListing(s, visits, rows);
    CallsOkByKeyId(s, visits, rows, all);
  }

  /** Calls of at most that size. */
  ghost predicate NoLargerThanFull(s: Session, visits: seq<Visit>, rows: seq<P.Row>) {
    && (forall i | 0 <= i < |visits| ::
          visits[i].signedAt + visits[i].ring.ttl <= 9_999_999_999 && |s.p.iso(visits[i].now)| <= 32)
    && (forall r | r in rows :: |s.p.iso(r.submitted)| <= 32) && s.limit <= 99
  }

  lemma ShortKeyIdFits(s: Session, v: Visit, at: C.Position)
    requires Ideal(s) && ShortKeyId(v) && v.signedAt + v.ring.ttl <= 9_999_999_999 && s.limit <= 99
    requires |s.p.iso(at.ceiling)| <= 32 && |s.p.iso(at.submitted)| <= 32
    ensures Fits(s, v, at.ceiling, at.submitted)
  {
    FitsIff(s, v, at);
    C.KeyIdSuffices(s.p, v.ring, v.signedAt, BindingsOf(s), at, s.filterText(s.q.statuses, s.q.startFrom, s.q.startTo));
    hide Fits, C.Escaped, C.Encode, C.Sized, C.Faithful, C.DigestOf;
  }

  /** Short key ids are enough for calls of any smaller size too: whoever keeps every key id to 38
      characters, escapes counted, has every listing finish that is continued in time. */
  lemma ShortKeyIdsFinish(s: Session, visits: seq<Visit>, rows: seq<P.Row>)
    requires Ideal(s) && s.q.entities != [] && P.Table(rows) && visits != [] && SameRows(visits, rows)
    requires NoLargerThanFull(s, visits, rows) && InTime(visits) && forall v | v in visits :: ShortKeyId(v)
    requires |visits| >= P.PageCount(|P.Answer(rows, s.q, visits[0].now, None)|, s.limit)
    ensures Follow(s, visits, None).end == Done
  {
    var all := P.Answer(rows, s.q, visits[0].now, None);
    P.AnswerAscends(rows, s.q, visits[0].now, None);
    hide *;
    AliveNotReused(visits);
    WholeListing(s, visits, rows);
    ShortCallsOk(s, visits, rows, all);
  }

  lemma ShortCallsOk(s: Session, visits: seq<Visit>, rows: seq<P.Row>, all: seq<P.Row>)
    requires Ideal(s) && NoLargerThanFull(s, visits, rows) && InTime(visits)
    requires forall v | v in visits :: ShortKeyId(v)
    requires |visits| >= P.PageCount(|all|, s.limit) && forall r | r in all :: r in rows
    ensures visits != [] && CallsOk(s, None, visits, visits[0].now, all)
  {
    P.PageCountIsNeeded(|all|, s.limit);
    hide P.PageCount, Ideal, InTime, NoLargerThanFull, CallOk, ShortKeyId;
    forall i | 0 <= i < P.PageCount(|all|, s.limit)
      ensures CallOk(s, None, visits, visits[0].now, all, i)
    {
      assert visits[i] in visits;
      ShortCallOk(s, visits, rows, all, i);
    }
  }

  lemma ShortCallOk(s: Session, visits: seq<Visit>, rows: seq<P.Row>, all: seq<P.Row>, i: nat)
    requires Ideal(s) && NoLargerThanFull(s, visits, rows) && InTime(visits)
    requires i < |visits| && ShortKeyId(visits[i]) && forall r | r in all :: r in rows
    ensures CallOk(s, None, visits, visits[0].now, all, i)
  {
    hide Ideal, Fits, Alive, ShortKeyId, Through;
    if Through(i, s.limit) < |all| {
      var r := all[Through(i, s.limit) - 1];
      assert r in all;
      ShortKeyIdFits(s, visits[i], C.Position(visits[0].now, r.submitted, r.requestId));
    }
  }

  lemma AliveNotReused(visits: seq<Visit>)
    requires InTime(visits)
    ensures NeverReused(None, visits)
  {
    forall i | 0 < i < |visits|
      ensures NotReused(visits[i - 1], visits[i])
    {
      assert Alive(visits[i - 1], visits[i]);
    }
  }

  /** A valid key id, of 39 letters. */
  function LongKeyId(): (r: string)
    ensures |r| == 39 && C.Plain(r)
  {
    seq(39, _ => 'k')
  }

  /** With this key id, in 2023 and with the default page size and lifetime, every listing of more
      than one page fails on its first page. */
  lemma LongKeyFails(s: Session, v: Visit)
    requires Ideal(s) && s.q.entities != [] && s.limit == 20 && !v.failed
    requires v.ring.active.id == LongKeyId() && v.ring.ttl == 300 && v.signedAt == 1_700_000_000
    requires var all := P.Answer(v.rows, s.q, v.now, None);
      |all| > 20 && |s.p.iso(v.now)| == 32 && |s.p.iso(all[19].submitted)| == 32
    ensures Call(s, v, None) == Err(Unavailable)
  {
    var all := P.Answer(v.rows, s.q, v.now, None);
    var next := C.Position(v.now, all[19].submitted, all[19].requestId);
    assert |all| > s.limit && s.limit - 1 == 19;
    LongKeyDoesNotFit(s, v, next);
    hide *;
    P.PageParts(v.rows, s.q, v.now, None, s.limit);
    BehindIs(all[19], v.now);
    NoCursor(s, v);
    CallIs(s, None, v, None, None);
  }

  lemma LongKeyDoesNotFit(s: Session, v: Visit, at: C.Position)
    requires Ideal(s) && s.limit == 20 && |s.p.iso(at.ceiling)| == |s.p.iso(at.submitted)| == 32
    requires v.ring.active.id == LongKeyId() && v.ring.ttl == 300 && v.signedAt == 1_700_000_000
    ensures !Fits(s, v, at.ceiling, at.submitted)
  {
    C.EscapedPlain(LongKeyId());
    hide Ideal, C.Escaped, Fits, LongKeyId;
    FitsByKeyId(s, v, at);
  }

  lemma NoCursor(s: Session, v: Visit)
    ensures Linked(s, None, None, None) && CeilingOf(v, None) == v.now
  {
  }

  // --- a changing table ----------------------------------------------------------------------

  /** With rows coming and going between calls, no row that keeps its key comes twice. */
  lemma NeverTwice(s: Session, visits: seq<Visit>, i: nat, j: nat)
    requires Ideal(s) && s.q.entities != [] && NeverReused(None, visits) && visits != []
    requires P.AllTables(TablesOf(visits))
    requires var items := Items(Follow(s, visits, None).pages);
      i < j < |items| && items[i].requestId == items[j].requestId
    ensures var items := Items(Follow(s, visits, None).pages);
      items[i].submitted != items[j].submitted
  {
    var ceiling := visits[0].now;
    assert Linked(s, None, None, None) && CeilingIs(visits, ceiling, None);
    hide *;
    FollowIs(s, None, visits, ceiling, None, None);
    var delivered := P.Delivered(TablesOf(visits), s.q, ceiling, None, s.limit);
    KeptIsPrefix(Follow(s, visits, None), delivered, P.Taken(TablesOf(visits), s.q, ceiling, None, s.limit),
                 P.Finished(TablesOf(visits), s.q, ceiling, None, s.limit), Smooth(s, None, visits, ceiling, None));
    P.NeverTwice(TablesOf(visits), s.q, ceiling, s.limit, i, j);
  }

  /** Every row that is delivered, whatever happens to the table between the calls, is one that the
      listing was asked for, was submitted by its ceiling, and was in the table at some call. */
  lemma DeliveredIsAsked(s: Session, visits: seq<Visit>, r: P.Row)
    requires Ideal(s) && s.q.entities != [] && NeverReused(None, visits) && visits != []
    requires P.AllTables(TablesOf(visits)) && r in Items(Follow(s, visits, None).pages)
    ensures P.Asked(r, s.q) && r.submitted <= visits[0].now
    ensures exists i | 0 <= i < |visits| :: r in visits[i].rows
    ensures P.NewestFirst(Items(Follow(s, visits, None).pages))
  {
    var ceiling := visits[0].now;
    assert Linked(s, None, None, None) && CeilingIs(visits, ceiling, None);
    var delivered := P.Delivered(TablesOf(visits), s.q, ceiling, None, s.limit);
    hide *;
    FollowIs(s, None, visits, ceiling, None, None);
    KeptIsPrefix(Follow(s, visits, None), delivered, P.Taken(TablesOf(visits), s.q, ceiling, None, s.limit),
                 P.Finished(TablesOf(visits), s.q, ceiling, None, s.limit), Smooth(s, None, visits, ceiling, None));
    P.DeliveredAscends(TablesOf(visits), s.q, ceiling, None, s.limit);
    P.DeliveredFromTables(TablesOf(visits), s.q, ceiling, None, s.limit, r);
    P.SelectedIff(r, s.q, ceiling, None);
    P.KeysNewestFirst(Items(Follow(s, visits, None).pages), delivered);
  }

  lemma KeptIsPrefix(r: Listing, delivered: seq<P.Row>, taken: nat, finished: bool, smooth: bool)
    requires Keeps(r, delivered, taken, finished, smooth)
    ensures var items := Items(r.pages);
      |items| <= |delivered| && forall i | 0 <= i < |items| :: items[i] == delivered[i]
    ensures r.end == Done ==> Items(r.pages) == delivered && finished
  {
    hide Items;
  }

  /** A row that keeps its key and matches at every call of a listing that finished, and that was
      submitted by its ceiling, was delivered exactly once, whatever else happened to the table. */
  lemma ExactlyOnce(s: Session, visits: seq<Visit>, id: P.Uuid, submitted: P.Time)
    requires Ideal(s) && s.q.entities != [] && NeverReused(None, visits) && visits != []
    requires P.AllTables(TablesOf(visits)) && P.KeyStays(TablesOf(visits), s.q, id, submitted)
    requires submitted <= visits[0].now && Follow(s, visits, None).end == Done
    ensures var items := Items(Follow(s, visits, None).pages);
      exists k :: P.IsOnly(items, k, id) && items[k].submitted == submitted
  {
    var ceiling := visits[0].now;
    assert Linked(s, None, None, None) && CeilingIs(visits, ceiling, None);
    hide *;
    FollowIs(s, None, visits, ceiling, None, None);
    var delivered := P.Delivered(TablesOf(visits), s.q, ceiling, None, s.limit);
    KeptIsPrefix(Follow(s, visits, None), delivered, P.Taken(TablesOf(visits), s.q, ceiling, None, s.limit),
                 P.Finished(TablesOf(visits), s.q, ceiling, None, s.limit), Smooth(s, None, visits, ceiling, None));
    P.ExactlyOnce(TablesOf(visits), s.q, ceiling, s.limit, id, submitted);
  }
}
