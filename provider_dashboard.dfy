/**
 * The provider dashboard: the provider's own facilities and their incoming
 * requests, the revenue and utilisation figures, and the handlers of the
 * add-facility form and the inline price and capacity editors.
 *
 * The owner filter is written for database rows (an owner id that is `null`
 * when unset) but is handed the app context's client facilities, which have
 * no owner property; both readings are modelled. Its handlers call into the
 * app context; since that context is modelled separately, each handler
 * returns the call it makes as a `ContextCall` value.
 */
module ProviderDashboard {
  import opened Wrappers
  import opened Schema
  import Routes
  import Rounding
  import SeedData

  // ---------------------------------------------------------------- filters

  /** A JavaScript value read as an id: `undefined`, `null` or a string. */
  datatype IdValue = Undefined | Null | Id(value: string)

  /** A facility as the dashboard reads it: its id, its `ownerId` property and its capacities. */
  datatype FacilityView = FacilityView(id: string, ownerId: IdValue, totalCapacity: int, availableCapacity: int)

  /** A client facility of the app context has no `ownerId` property, so reading it gives `undefined`. */
  function ClientFacility(f: SeedData.StorageFacility): FacilityView {
    FacilityView(f.id, Undefined, f.totalCapacity, f.availableCapacity)
  }

  /** A database row's owner is `null` when unset. */
  function DatabaseFacility(f: FacilityRow): FacilityView {
    FacilityView(f.id, if f.ownerId.Some? then Id(f.ownerId.value) else Null, f.totalCapacity, f.availableCapacity)
  }

  function ClientView(fs: seq<SeedData.StorageFacility>): (r: seq<FacilityView>)
    ensures |r| == |fs| && forall i :: 0 <= i < |fs| ==> r[i] == ClientFacility(fs[i])
  {
    if fs == [] then [] else [ClientFacility(fs[0])] + ClientView(fs[1..])
  }

  function DatabaseView(fs: seq<FacilityRow>): (r: seq<FacilityView>)
    ensures |r| == |fs| && forall i :: 0 <= i < |fs| ==> r[i] == DatabaseFacility(fs[i])
  {
    if fs == [] then [] else [DatabaseFacility(fs[0])] + DatabaseView(fs[1..])
  }

  /**
   * `f.ownerId === user?.id`, where `user?.id` is `undefined` without a user.
   * Strict equality holds between two `undefined`s, two `null`s, or two equal
   * strings, and nowhere else.
   */
  predicate OwnedBy(f: FacilityView, userId: IdValue) {
    f.ownerId == userId
  }

  /** `myFacilities`: the facilities owned by the user, in their original order. */
  function MyFacilities(fs: seq<FacilityView>, userId: IdValue): (r: seq<FacilityView>)
    ensures forall f :: multiset(r)[f] == if OwnedBy(f, userId) then multiset(fs)[f] else 0
    ensures forall f :: f in r <==> f in fs && OwnedBy(f, userId)
  {
    if fs == [] then []
    else
      assert fs == [fs[0]] + fs[1..];
      (if OwnedBy(fs[0], userId) then [fs[0]] else []) + MyFacilities(fs[1..], userId)
  }

  /** When every facility passes the owner test, the filter keeps the whole list in order. */
  lemma {:induction false} AllOwnedKept(fs: seq<FacilityView>, userId: IdValue)
    requires forall i :: 0 <= i < |fs| ==> OwnedBy(fs[i], userId)
    ensures MyFacilities(fs, userId) == fs
  {
    if fs != [] {
      var tail := fs[1..];
      AllOwnedKept(tail, userId);
      assert OwnedBy(fs[0], userId);
      assert MyFacilities(fs, userId) == [fs[0]] + MyFacilities(tail, userId);
      assert fs == [fs[0]] + tail;
    }
  }

  /** When no facility passes the owner test, the filter keeps nothing. */
  lemma {:induction false} NoneOwnedDropped(fs: seq<FacilityView>, userId: IdValue)
    requires forall i :: 0 <= i < |fs| ==> !OwnedBy(fs[i], userId)
    ensures MyFacilities(fs, userId) == []
  {
    if fs != [] {
      NoneOwnedDropped(fs[1..], userId);
    }
  }

  /**
   * As written, without a user every client facility of the context is "mine":
   * the missing owner and the missing user id are both `undefined`.
   */
  lemma NoUserOwnsEveryClientFacility(fs: seq<SeedData.StorageFacility>)
    ensures MyFacilities(ClientView(fs), Undefined) == ClientView(fs)
  {
    AllOwnedKept(ClientView(fs), Undefined);
  }

  /** A signed-in user owns none of the context's client facilities. */
  lemma SignedInUserOwnsNoClientFacility(fs: seq<SeedData.StorageFacility>, userId: string)
    ensures MyFacilities(ClientView(fs), Id(userId)) == []
  {
    NoneOwnedDropped(ClientView(fs), Id(userId));
  }

  /** On database rows, whose unset owner is `null`, a missing user owns nothing. */
  lemma NoUserOwnsNoDatabaseFacility(fs: seq<FacilityRow>)
    ensures MyFacilities(DatabaseView(fs), Undefined) == []
  {
    NoneOwnedDropped(DatabaseView(fs), Undefined);
  }

  /** On database rows, a signed-in user owns exactly the rows whose owner id is theirs. */
  lemma DatabaseOwnership(f: FacilityRow, userId: string)
    ensures OwnedBy(DatabaseFacility(f), Id(userId)) <==> f.ownerId == Some(userId)
  {
  }

  /** `myFacilityIds`: the ids of my facilities. */
  function MyFacilityIds(mine: seq<FacilityView>): (r: set<string>)
    ensures forall id :: id in r <==> exists i :: 0 <= i < |mine| && mine[i].id == id
  {
    set i | 0 <= i < |mine| :: mine[i].id
  }

  /**
   * `pendingBookings`: bookings with a non-empty facility id among mine and
   * status "pending", in their original order.
   */
  predicate IsPendingFor(b: BookingRow, ids: set<string>) {
    b.facilityId != "" && b.facilityId in ids && b.status == "pending"
  }

  function PendingBookings(bs: seq<BookingRow>, ids: set<string>): (r: seq<BookingRow>)
    ensures forall b :: multiset(r)[b] == if IsPendingFor(b, ids) then multiset(bs)[b] else 0
    ensures forall b :: b in r <==> b in bs && IsPendingFor(b, ids)
  {
    Routes.Where(bs, (b: BookingRow) => IsPendingFor(b, ids))
  }

  /**
   * The statuses of the client's bookings are "active", "completed" and
   * "cancelled", so the pending filter finds nothing among them.
   */
  lemma ClientBookingsNeverPending(bs: seq<BookingRow>, ids: set<string>)
    requires forall b :: b in bs ==> SeedData.ParseStatus(b.status).Some?
    ensures PendingBookings(bs, ids) == []
  {
    var r := PendingBookings(bs, ids);
    forall b ensures multiset(r)[b] == 0 {
      if b in bs {
        assert SeedData.ParseStatus(b.status).Some?;
      }
    }
    assert multiset(r) == multiset{};
  }

  /** The two request buttons: Reject sends "cancelled" and Accept sends "completed". */
  const RejectStatus := "cancelled"
  const AcceptStatus := "completed"

  /**
   * Once the status that Accept or Reject asks for is written to the booking
   * table, as `PUT /api/bookings/:id/status` writes it, the booking leaves the
   * pending list and every other pending booking stays there.
   */
  lemma DecisionLeavesPending(bs: seq<BookingRow>, ids: set<string>, bookingId: string, accept: bool)
    ensures var after := Routes.WithStatus(bs, bookingId, if accept then AcceptStatus else RejectStatus);
      (forall b :: b in PendingBookings(after, ids) ==> b.id != bookingId) &&
      (forall b :: b in PendingBookings(bs, ids) && b.id != bookingId ==> b in PendingBookings(after, ids))
  {
    var s := if accept then AcceptStatus else RejectStatus;
    StatusChangeLeavesPending(bs, ids, bookingId, s);
    StatusChangeKeepsOtherPending(bs, ids, bookingId, s);
  }

  /** After any status other than pending is written to `bookingId`, no pending row carries that id. */
  lemma StatusChangeLeavesPending(bs: seq<BookingRow>, ids: set<string>, bookingId: string, s: string)
    requires s != "pending"
    ensures forall b :: b in PendingBookings(Routes.WithStatus(bs, bookingId, s), ids) ==> b.id != bookingId
  {
    var after := Routes.WithStatus(bs, bookingId, s);
    forall b | b in PendingBookings(after, ids) ensures b.id != bookingId {
      assert b in after && IsPendingFor(b, ids);
      var i :| 0 <= i < |after| && after[i] == b;
    }
  }

  /** A status write to `bookingId` leaves every other pending row on the list. */
  lemma StatusChangeKeepsOtherPending(bs: seq<BookingRow>, ids: set<string>, bookingId: string, s: string)
    ensures forall b :: b in PendingBookings(bs, ids) && b.id != bookingId ==>
      b in PendingBookings(Routes.WithStatus(bs, bookingId, s), ids)
  {
    var after := Routes.WithStatus(bs, bookingId, s);
    forall b | b in PendingBookings(bs, ids) && b.id != bookingId
      ensures b in PendingBookings(after, ids)
    {
      assert b in bs && IsPendingFor(b, ids);
      var i :| 0 <= i < |bs| && bs[i] == b;
      assert after[i] == b;
    }
  }

  // ---------------------------------------------------------------- figures

  /** `totalRevenue`: the total cost of every booking at one of my facilities, whatever its status. */
  function TotalRevenue(bs: seq<BookingRow>, ids: set<string>): real {
    if bs == [] then 0.0
    else (if bs[0].facilityId in ids then bs[0].totalCost else 0.0) + TotalRevenue(bs[1..], ids)
  }

  /** The revenue of a concatenation is the sum of the revenues. */
  lemma {:induction false} RevenueAppend(xs: seq<BookingRow>, ys: seq<BookingRow>, ids: set<string>)
    ensures TotalRevenue(xs + ys, ids) == TotalRevenue(xs, ids) + TotalRevenue(ys, ids)
  {
    if xs != [] {
      RevenueAppend(xs[1..], ys, ids);
      assert (xs + ys)[1..] == xs[1..] + ys;
    } else {
      assert xs + ys == ys;
    }
  }

  /** Changing a booking's status, as Accept and Reject do, leaves the revenue unchanged. */
  lemma {:induction false} RevenueIgnoresStatus(bs: seq<BookingRow>, ids: set<string>, bookingId: string, s: string)
    ensures TotalRevenue(Routes.WithStatus(bs, bookingId, s), ids) == TotalRevenue(bs, ids)
  {
    if bs != [] {
      RevenueIgnoresStatus(bs[1..], ids, bookingId, s);
      assert Routes.WithStatus(bs, bookingId, s)[1..] == Routes.WithStatus(bs[1..], bookingId, s);
    }
  }

  /** Bookings at facilities that are not mine add nothing to the revenue. */
  lemma {:induction false} RevenueOnlyMine(bs: seq<BookingRow>, ids: set<string>)
    requires forall b :: b in bs ==> b.facilityId !in ids
    ensures TotalRevenue(bs, ids) == 0.0
  {
    if bs != [] {
      assert bs[0] in bs;
      RevenueOnlyMine(bs[1..], ids);
    }
  }

  /** A facility card's `utilization`: the rounded share of its capacity in use; `None` for a zero total. */
  function Utilization(f: FacilityView): Option<int> {
    Rounding.RoundedPercent(f.totalCapacity - f.availableCapacity, f.totalCapacity)
  }

  /**
   * Within `0 <= available <= total` and a positive total, the utilisation lies
   * in [0, 100], and booking more capacity never lowers it.
   */
  lemma UtilizationBounds(f: FacilityView, g: FacilityView)
    requires f.totalCapacity > 0 && 0 <= f.availableCapacity <= f.totalCapacity
    requires g == f.(availableCapacity := g.availableCapacity) && g.availableCapacity <= f.availableCapacity
    ensures Utilization(f).Some? && 0 <= Utilization(f).value <= 100
    ensures Utilization(f).value <= Utilization(g).value
  {
    Rounding.RoundedPercentInRange(f.totalCapacity - f.availableCapacity, f.totalCapacity);
    Rounding.RoundedPercentMonotone(f.totalCapacity - f.availableCapacity,
                                    g.totalCapacity - g.availableCapacity, f.totalCapacity);
  }

  // ---------------------------------------------------------------- handlers

  datatype DashboardStorageType = Cold | Frozen | MultiPurpose

  /** The add-facility form: every field is the text typed so far. */
  datatype FacilityForm = FacilityForm(name: string, location: string, storageType: DashboardStorageType,
                                       totalCapacity: string, pricePerKgPerDay: string, contactPhone: string)

  const EmptyForm := FacilityForm("", "", Cold, "", "", "")

  /** The facility handed to `addFacility`; parsed numbers are `None` where parsing gives NaN. */
  datatype FacilityDraft = FacilityDraft(name: string, location: string, storageType: DashboardStorageType,
                                         totalCapacity: Option<int>, availableCapacity: Option<int>,
                                         pricePerKgPerDay: Option<real>, contactPhone: string)

  /** A call the dashboard makes into the app context. */
  datatype ContextCall =
    | AddFacility(draft: FacilityDraft)
    | UpdateFacilityCapacity(facilityId: string, amount: real)
    | SetFacilityAvailability(facilityId: string, value: int)
    | UpdateBookingStatus(bookingId: string, status: string)

  /** The required fields are name, location, total capacity and price. */
  predicate RequiredFieldsFilled(form: FacilityForm) {
    form.name != "" && form.location != "" && form.totalCapacity != "" && form.pricePerKgPerDay != ""
  }

  /** The draft built from a complete form: available capacity starts equal to total capacity. */
  function DraftOf(form: FacilityForm, parsedTotal: Option<int>, parsedPrice: Option<real>): (d: FacilityDraft)
    ensures d.availableCapacity == d.totalCapacity == parsedTotal
    ensures d.name == form.name && d.location == form.location && d.storageType == form.storageType
    ensures d.pricePerKgPerDay == parsedPrice && d.contactPhone == form.contactPhone
  {
    FacilityDraft(form.name, form.location, form.storageType, parsedTotal, parsedTotal, parsedPrice, form.contactPhone)
  }

  /** The request buttons: the call each sends. */
  function DecisionCall(bookingId: string, accept: bool): (c: ContextCall)
    ensures c.UpdateBookingStatus? && c.bookingId == bookingId
    ensures c.status == (if accept then "completed" else "cancelled")
  {
    UpdateBookingStatus(bookingId, if accept then AcceptStatus else RejectStatus)
  }

  class Dashboard {
    var showAddForm: bool
    var submitting: bool
    var form: FacilityForm
    var editingPrice: Option<string>
    var editingCapacity: Option<string>

    constructor ()
      ensures !showAddForm && !submitting && form == EmptyForm
      ensures editingPrice == None && editingCapacity == None
    {
      showAddForm := false;
      submitting := false;
      form := EmptyForm;
      editingPrice := None;
      editingCapacity := None;
    }

    /**
     * `handleAddFacility`: refused, with no call, unless the four required
     * fields are filled. Otherwise it calls `addFacility` with the draft; when
     * that call succeeds the form closes and resets, when it throws the form
     * stays as it was. Submitting is off again afterwards in both cases.
     */
    method HandleAddFacility(parsedTotal: Option<int>, parsedPrice: Option<real>, addSucceeds: bool)
      returns (call: Option<ContextCall>)
      modifies this`showAddForm, this`submitting, this`form
      ensures call.Some? <==> RequiredFieldsFilled(old(form))
      ensures call.Some? ==> call.value == AddFacility(DraftOf(old(form), parsedTotal, parsedPrice))
      ensures submitting == (call.None? && old(submitting))
      ensures if call.Some? && addSucceeds then !showAddForm && form == EmptyForm
              else showAddForm == old(showAddForm) && form == old(form)
    {
      if !RequiredFieldsFilled(form) {
        return None;
      }
      submitting := true;
      call := Some(AddFacility(DraftOf(form, parsedTotal, parsedPrice)));
      if addSucceeds {
        showAddForm := false;
        form := EmptyForm;
      }
      submitting := false;
    }

    /**
     * `savePrice`: a parsed price above 0 is passed on, as written, to
     * `updateFacilityCapacity`; anything else makes no call. The editor closes.
     */
    method SavePrice(facilityId: string, parsedPrice: Option<real>) returns (call: Option<ContextCall>)
      modifies this`editingPrice
      ensures editingPrice == None
      ensures call.Some? <==> parsedPrice.Some? && parsedPrice.value > 0.0
      ensures call.Some? ==> call.value == UpdateFacilityCapacity(facilityId, parsedPrice.value)
    {
      call := None;
      if parsedPrice.Some? && parsedPrice.value > 0.0 {
        call := Some(UpdateFacilityCapacity(facilityId, parsedPrice.value));
      }
      editingPrice := None;
    }

    /**
     * `saveCapacity`: a parsed capacity of 0 or more is passed to
     * `setFacilityAvailability`; anything else makes no call. The editor closes.
     */
    method SaveCapacity(facilityId: string, parsedCapacity: Option<int>) returns (call: Option<ContextCall>)
      modifies this`editingCapacity
      ensures editingCapacity == None
      ensures call.Some? <==> parsedCapacity.Some? && parsedCapacity.value >= 0
      ensures call.Some? ==> call.value == SetFacilityAvailability(facilityId, parsedCapacity.value)
    {
      call := None;
      if parsedCapacity.Some? && parsedCapacity.value >= 0 {
        call := Some(SetFacilityAvailability(facilityId, parsedCapacity.value));
      }
      editingCapacity := None;
    }
  }
}
