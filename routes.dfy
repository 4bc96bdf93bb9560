/**
 * The server's facility and booking handlers over in-memory tables: reading and
 * updating a facility, creating a booking against a facility's capacity,
 * listing bookings by role, and setting a booking's status.
 *
 * The session's user, the clock and the generated booking id are parameters;
 * so is the outcome of the booking insert, which runs after the capacity write
 * and can fail on its own.
 */
module Routes {
  import opened Wrappers
  import opened Schema

  /** The logged-in user as the session store hands it to a handler. */
  datatype SessionUser = SessionUser(id: string, username: string, role: string)

  datatype Session = Anonymous | LoggedIn(user: SessionUser)

  /** A handler's answer: a status code with a body, or a status code with an error message. */
  datatype Reply<T> = Reply(status: int, body: T) | ErrorReply(status: int, error: string)

  const MillisPerDay: int := 24 * 60 * 60 * 1000

  /** The fields the booking handler reads from the request body. */
  datatype BookingRequest = BookingRequest(
    facilityId: string,
    facilityName: string,
    facilityLocation: string,
    quantity: int,
    duration: int,
    totalCost: real,
    pricePerKgPerDay: real,
    storageType: string)

  /** The body of a facility update; an absent field is left out of the `SET` list. */
  datatype FacilityUpdate = FacilityUpdate(pricePerKgPerDay: Option<real>, availableCapacity: Option<int>)

  predicate IsProvider(session: Session) {
    session.LoggedIn? && session.user.role == "provider"
  }

  /**
   * The row an update writes: each field the body gives is set as given, a
   * missing one keeps its value, and every other column is untouched.
   */
  function Updated(f: FacilityRow, update: FacilityUpdate): (r: FacilityRow)
    ensures r.(pricePerKgPerDay := f.pricePerKgPerDay, availableCapacity := f.availableCapacity) == f
    ensures update.pricePerKgPerDay.Some? ==> r.pricePerKgPerDay == update.pricePerKgPerDay.value
    ensures update.pricePerKgPerDay.None? ==> r.pricePerKgPerDay == f.pricePerKgPerDay
    ensures update.availableCapacity.Some? ==> r.availableCapacity == update.availableCapacity.value
    ensures update.availableCapacity.None? ==> r.availableCapacity == f.availableCapacity
  {
    f.(pricePerKgPerDay := update.pricePerKgPerDay.GetOr(f.pricePerKgPerDay),
       availableCapacity := update.availableCapacity.GetOr(f.availableCapacity))
  }

  /** The capacity invariant of one row. */
  predicate RowInBounds(f: FacilityRow) {
    0 <= f.availableCapacity <= f.totalCapacity
  }

  ghost predicate TableInBounds(facilities: map<string, FacilityRow>) {
    forall id :: id in facilities ==> RowInBounds(facilities[id])
  }

  // ---------------------------------------------------------------- creating a booking

  /** The guard of the booking handler: only a quantity above the available capacity is refused. */
  predicate QuantityAdmitted(f: FacilityRow, quantity: int) {
    !(quantity > f.availableCapacity)
  }

  /** The facility row after `quantity` kg were taken off its available capacity. */
  function Reserved(f: FacilityRow, quantity: int): FacilityRow {
    f.(availableCapacity := f.availableCapacity - quantity)
  }

  /** An admitted non-negative quantity keeps the row in bounds. */
  lemma ReservedKeepsBounds(f: FacilityRow, quantity: int)
    requires RowInBounds(f) && QuantityAdmitted(f, quantity) && quantity >= 0
    ensures RowInBounds(Reserved(f, quantity))
    ensures Reserved(f, quantity).availableCapacity == f.availableCapacity - quantity
  {
  }

  /**
   * The guard never checks the sign of the quantity: a full facility admits
   * a booking of -1 kg, which raises its available capacity above its total.
   */
  lemma NegativeQuantityOverfills(f: FacilityRow)
    requires RowInBounds(f) && f.availableCapacity == f.totalCapacity
    ensures QuantityAdmitted(f, -1)
    ensures !RowInBounds(Reserved(f, -1))
  {
  }

  /** The row the booking handler inserts: an active booking from `now` for `duration` days. */
  function NewBooking(id: string, user: SessionUser, req: BookingRequest, now: int): (b: BookingRow)
    ensures b.id == id && b.userId == user.id && b.facilityId == req.facilityId
    ensures b.status == "active" && b.storageCategory == DefaultStorageCategory
    ensures b.quantity == req.quantity && b.duration == req.duration
    ensures b.startDate == now && b.endDate - b.startDate == req.duration * MillisPerDay
    ensures b.totalCost == req.totalCost && b.pricePerKgPerDay == req.pricePerKgPerDay
    ensures b.facilityName == req.facilityName && b.facilityLocation == req.facilityLocation
    ensures b.storageType == req.storageType
  {
    InsertedBooking(id, BookingInsert(
      user.id, req.facilityId, req.facilityName, req.facilityLocation,
      req.quantity, req.duration, Some(now), now + req.duration * MillisPerDay,
      req.totalCost, req.pricePerKgPerDay, Some("active"), req.storageType, None), now)
  }

  // ---------------------------------------------------------------- listing bookings

  /** The rows of `bs` that `keep` accepts, in their order. */
  function Where(bs: seq<BookingRow>, keep: BookingRow -> bool): (r: seq<BookingRow>)
    ensures forall b :: multiset(r)[b] == if keep(b) then multiset(bs)[b] else 0
    ensures forall b :: b in r <==> b in bs && keep(b)
    ensures |r| <= |bs|
  {
    if bs == [] then []
    else
      assert bs == [bs[0]] + bs[1..];
      (if keep(bs[0]) then [bs[0]] else []) + Where(bs[1..], keep)
  }

  /** Newest first: start dates never increase along the list. */
  ghost predicate SortedByStartDesc(bs: seq<BookingRow>) {
    forall i, j :: 0 <= i < j < |bs| ==> bs[i].startDate >= bs[j].startDate
  }

  lemma SortedCons(x: BookingRow, bs: seq<BookingRow>)
    requires SortedByStartDesc(bs)
    requires forall y :: y in bs ==> x.startDate >= y.startDate
    ensures SortedByStartDesc([x] + bs)
  {
    var s := [x] + bs;
    forall i, j | 0 <= i < j < |s| ensures s[i].startDate >= s[j].startDate {
      if i > 0 {
        assert s[i] == bs[i - 1] && s[j] == bs[j - 1];
      } else {
        assert s[j] in bs;
      }
    }
  }

  /** Inserts `b` into a newest-first list before the first row that is not newer. */
  function InsertByStart(b: BookingRow, bs: seq<BookingRow>): (r: seq<BookingRow>)
    requires SortedByStartDesc(bs)
    ensures SortedByStartDesc(r)
    ensures multiset(r) == multiset(bs) + multiset{b}
  {
    if bs == [] then [b]
    else if b.startDate >= bs[0].startDate then
      SortedCons(b, bs);
      [b] + bs
    else
      assert bs == [bs[0]] + bs[1..];
      var rest := InsertByStart(b, bs[1..]);
      HeadDominates(b, bs, rest);
      [bs[0]] + rest
  }

  /** The head of a sorted list is no older than `b` inserted into its tail, so it can lead. */
  lemma HeadDominates(b: BookingRow, bs: seq<BookingRow>, rest: seq<BookingRow>)
    requires bs != [] && SortedByStartDesc(bs) && b.startDate < bs[0].startDate
    requires SortedByStartDesc(rest) && multiset(rest) == multiset(bs[1..]) + multiset{b}
    ensures SortedByStartDesc([bs[0]] + rest)
  {
    forall y | y in rest ensures bs[0].startDate >= y.startDate {
      assert y in multiset(rest);
      if y != b {
        assert y in multiset(bs[1..]);
        var k :| 0 <= k < |bs[1..]| && bs[1..][k] == y;
        assert bs[k + 1] == y;
      }
    }
    SortedCons(bs[0], rest);
  }

  /** `ORDER BY start_date DESC`: a newest-first permutation of the rows. */
  function SortByStartDesc(bs: seq<BookingRow>): (r: seq<BookingRow>)
    ensures SortedByStartDesc(r)
    ensures multiset(r) == multiset(bs)
  {
    if bs == [] then []
    else
      assert bs == [bs[0]] + bs[1..];
      InsertByStart(bs[0], SortByStartDesc(bs[1..]))
  }

  /** Filtering keeps a newest-first list newest-first. */
  lemma {:induction false} WhereKeepsSorted(bs: seq<BookingRow>, keep: BookingRow -> bool)
    requires SortedByStartDesc(bs)
    ensures SortedByStartDesc(Where(bs, keep))
  {
    if bs != [] {
      assert SortedByStartDesc(bs[1..]) by {
        forall i, j | 0 <= i < j < |bs[1..]| ensures bs[1..][i].startDate >= bs[1..][j].startDate {
          assert bs[1..][i] == bs[i + 1] && bs[1..][j] == bs[j + 1];
        }
      }
      WhereKeepsSorted(bs[1..], keep);
      var rest := Where(bs[1..], keep);
      if keep(bs[0]) {
        forall y | y in rest ensures bs[0].startDate >= y.startDate {
          var k :| 0 <= k < |bs[1..]| && bs[1..][k] == y;
          assert bs[k + 1] == y;
        }
        SortedCons(bs[0], rest);
      }
    }
  }

  /** The ids of the facilities whose owner is `userId`. */
  function OwnedFacilityIds(facilities: map<string, FacilityRow>, userId: string): set<string> {
    set f | f in facilities.Values && f.ownerId == Some(userId) :: f.id
  }

  // ---------------------------------------------------------------- status updates

  /** The table after `UPDATE bookings SET status = s WHERE id = bookingId`. */
  function WithStatus(bs: seq<BookingRow>, bookingId: string, s: string): (r: seq<BookingRow>)
    ensures |r| == |bs|
    ensures forall i :: 0 <= i < |bs| ==>
      r[i] == if bs[i].id == bookingId then bs[i].(status := s) else bs[i]
  {
    if bs == [] then []
    else [if bs[0].id == bookingId then bs[0].(status := s) else bs[0]] + WithStatus(bs[1..], bookingId, s)
  }

  /** The first row with this id, as `UPDATE ... RETURNING` hands back its first row. */
  function FirstWithId(bs: seq<BookingRow>, bookingId: string): (r: Option<BookingRow>)
    ensures r.Some? <==> exists i :: 0 <= i < |bs| && bs[i].id == bookingId
    ensures r.Some? ==> r.value in bs && r.value.id == bookingId
  {
    if bs == [] then None
    else if bs[0].id == bookingId then Some(bs[0])
    else
      var r := FirstWithId(bs[1..], bookingId);
      assert forall i :: 1 <= i < |bs| ==> bs[i] == bs[1..][i - 1];
      assert forall i :: 0 <= i < |bs[1..]| ==> bs[1..][i] == bs[i + 1];
      r
  }

  /**
   * The status update has no transition rules: any status can follow any other,
   * a cancelled booking can be made active again, and any string is stored.
   */
  lemma StatusUpdateUnchecked(b: BookingRow, s: string)
    requires b.status == "cancelled"
    ensures WithStatus([b], b.id, "active")[0].status == "active"
    ensures WithStatus([b], b.id, s)[0] == b.(status := s)
  {
  }

  // ---------------------------------------------------------------- the server

  /** The server's two tables. `facilities` is keyed by the row's id. */
  class Server {
    var facilities: map<string, FacilityRow>
    var bookings: seq<BookingRow>

    ghost predicate Valid()
      reads this
    {
      forall id :: id in facilities ==> facilities[id].id == id
    }

    constructor (facilities: map<string, FacilityRow>, bookings: seq<BookingRow>)
      requires forall id :: id in facilities ==> facilities[id].id == id
      ensures Valid() && this.facilities == facilities && this.bookings == bookings
    {
      this.facilities := facilities;
      this.bookings := bookings;
    }

    /** `GET /api/facilities/:id`: the row, or 404 when there is none. */
    function GetFacility(facilityId: string): (r: Reply<FacilityRow>)
      reads this
      ensures r.Reply? <==> facilityId in facilities
      ensures r.Reply? ==> r.status == 200 && r.body == facilities[facilityId]
      ensures r.ErrorReply? ==> r.status == 404
    {
      if facilityId in facilities then Reply(200, facilities[facilityId])
      else ErrorReply(404, "Facility not found.")
    }

    /**
     * `PUT /api/facilities/:id`: providers only. Writes the given price and
     * available capacity as they are, with no bounds check. A body with neither
     * field makes the update fail (500); an unknown id updates nothing and
     * answers 200 with no row.
     */
    method UpdateFacility(session: Session, facilityId: string, update: FacilityUpdate)
      returns (r: Reply<Option<FacilityRow>>)
      requires Valid()
      modifies this`facilities
      ensures Valid()
      ensures !IsProvider(session) ==> r == ErrorReply(403, "Only providers can update facilities.")
      ensures IsProvider(session) && update.pricePerKgPerDay.None? && update.availableCapacity.None? ==>
        r == ErrorReply(500, "Failed to update facility.")
      ensures IsProvider(session) && (update.pricePerKgPerDay.Some? || update.availableCapacity.Some?) ==>
        if facilityId in old(facilities) then
          var f := old(facilities)[facilityId];
          facilityId in facilities &&
          facilities == old(facilities)[facilityId := facilities[facilityId]] &&
          facilities[facilityId] == Updated(f, update) &&
          r == Reply(200, Some(facilities[facilityId]))
        else facilities == old(facilities) && r == Reply(200, None)
      ensures r.ErrorReply? ==> facilities == old(facilities)
    {
      if !IsProvider(session) {
        return ErrorReply(403, "Only providers can update facilities.");
      }
      if update.pricePerKgPerDay.None? && update.availableCapacity.None? {
        return ErrorReply(500, "Failed to update facility.");
      }
      if facilityId !in facilities {
        return Reply(200, None);
      }
      var f := facilities[facilityId];
      var updated := Updated(f, update);
      facilities := facilities[facilityId := updated];
      r := Reply(200, Some(updated));
    }

    /**
     * `POST /api/bookings`: 401 without a session, 404 for an unknown facility,
     * 400 when the quantity exceeds the available capacity. Otherwise the
     * facility's capacity drops by exactly the quantity, then an active booking
     * is inserted; if that insert fails the handler answers 500 and the capacity
     * stays reduced.
     */
    method CreateBooking(session: Session, req: BookingRequest, now: int, newId: string, insertSucceeds: bool)
      returns (r: Reply<BookingRow>)
      requires Valid()
      modifies this
      ensures Valid()
      ensures session.Anonymous? ==>
        r == ErrorReply(401, "You must be logged in to book.") && unchanged(this)
      ensures session.LoggedIn? && req.facilityId !in old(facilities) ==>
        r == ErrorReply(404, "Facility not found") && unchanged(this)
      ensures session.LoggedIn? && req.facilityId in old(facilities) &&
              !QuantityAdmitted(old(facilities)[req.facilityId], req.quantity) ==>
        r == ErrorReply(400, "Requested quantity exceeds available capacity.") && unchanged(this)
      ensures session.LoggedIn? && req.facilityId in old(facilities) &&
              QuantityAdmitted(old(facilities)[req.facilityId], req.quantity) ==>
        facilities == old(facilities)[req.facilityId := Reserved(old(facilities)[req.facilityId], req.quantity)] &&
        (insertSucceeds ==>
          var b := NewBooking(newId, session.user, req, now);
          bookings == old(bookings) + [b] && r == Reply(201, b)) &&
        (!insertSucceeds ==>
          bookings == old(bookings) && r == ErrorReply(500, "Booking submission failed."))
      ensures old(TableInBounds(facilities)) && req.quantity >= 0 ==> TableInBounds(facilities)
    {
      if session.Anonymous? {
        return ErrorReply(401, "You must be logged in to book.");
      }
      if req.facilityId !in facilities {
        return ErrorReply(404, "Facility not found");
      }
      var facility := facilities[req.facilityId];
      if req.quantity > facility.availableCapacity {
        return ErrorReply(400, "Requested quantity exceeds available capacity.");
      }
      facilities := facilities[req.facilityId := facility.(availableCapacity := facility.availableCapacity - req.quantity)];
      if !insertSucceeds {
        return ErrorReply(500, "Booking submission failed.");
      }
      var booking := NewBooking(newId, session.user, req, now);
      bookings := bookings + [booking];
      r := Reply(201, booking);
    }

    /**
     * `GET /api/bookings`: 401 without a session. A farmer gets exactly their own
     * bookings; any other role gets exactly the bookings of the facilities they
     * own (none when they own none). Either list is newest first.
     */
    function ListBookings(session: Session): (r: Reply<seq<BookingRow>>)
      reads this
      ensures r.ErrorReply? <==> session.Anonymous?
      ensures r.ErrorReply? ==> r.status == 401
      ensures r.Reply? ==> r.status == 200 && SortedByStartDesc(r.body)
      ensures r.Reply? && session.user.role == "farmer" ==>
        forall b :: multiset(r.body)[b] == if b.userId == session.user.id then multiset(bookings)[b] else 0
      ensures r.Reply? && session.user.role != "farmer" ==>
        forall b :: multiset(r.body)[b] ==
          if b.facilityId in OwnedFacilityIds(facilities, session.user.id) then multiset(bookings)[b] else 0
    {
      if session.Anonymous? then ErrorReply(401, "Unauthorized")
      else
        var user := session.user;
        if user.role == "farmer" then
          Reply(200, SortByStartDesc(Where(bookings, (b: BookingRow) => b.userId == user.id)))
        else
          var pids := OwnedFacilityIds(facilities, user.id);
          if pids == {} then Reply(200, [])
          else
            var all := SortByStartDesc(bookings);
            WhereKeepsSorted(all, (b: BookingRow) => b.facilityId in pids);
            Reply(200, Where(all, (b: BookingRow) => b.facilityId in pids))
    }

    /**
     * `PUT /api/bookings/:id/status`: providers only. Stores the given status on
     * the booking as it is; no transition is checked and no capacity moves.
     * An unknown id answers 200 with no row.
     */
    method UpdateBookingStatus(session: Session, bookingId: string, status: string)
      returns (r: Reply<Option<BookingRow>>)
      modifies this`bookings
      ensures !IsProvider(session) ==> r == ErrorReply(403, "Providers only.") && bookings == old(bookings)
      ensures IsProvider(session) ==>
        bookings == WithStatus(old(bookings), bookingId, status) &&
        r == Reply(200, FirstWithId(bookings, bookingId))
    {
      if !IsProvider(session) {
        return ErrorReply(403, "Providers only.");
      }
      bookings := WithStatus(bookings, bookingId, status);
      r := Reply(200, FirstWithId(bookings, bookingId));
    }
  }

  /** Updating a booking's status changes that booking's status field and nothing else in the table. */
  lemma StatusUpdateEffect(bs: seq<BookingRow>, bookingId: string, s: string)
    ensures var r := WithStatus(bs, bookingId, s);
      |r| == |bs| &&
      (forall i :: 0 <= i < |bs| ==> r[i].(status := bs[i].status) == bs[i]) &&
      (forall i :: 0 <= i < |bs| ==> (r[i].status == s || r[i] == bs[i])) &&
      (forall i :: 0 <= i < |bs| && bs[i].id == bookingId ==> r[i].status == s) &&
      (FirstWithId(r, bookingId).Some? ==> FirstWithId(r, bookingId).value.status == s)
  {
  }

  /**
   * `PUT /api/facilities/:id` on one row: any value written, with no bounds
   * check, above the total or below zero, and any price, zero or negative.
   */
  lemma FacilityUpdateUnbounded(f: FacilityRow, price: real)
    requires RowInBounds(f) && price <= 0.0
    ensures !RowInBounds(Updated(f, FacilityUpdate(None, Some(f.totalCapacity + 1))))
    ensures !RowInBounds(Updated(f, FacilityUpdate(None, Some(-1))))
    ensures Updated(f, FacilityUpdate(Some(price), None)).pricePerKgPerDay <= 0.0
  {
  }
}
