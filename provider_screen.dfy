/**
 * The provider screen: a list of booking requests the provider accepts or
 * declines in place, the pending totals, the utilisation of the provider's
 * first facility, its estimated monthly revenue and the availability editor.
 */
module ProviderScreen {
  import opened Wrappers
  import opened SeedData
  import AppContext
  import Rounding

  datatype RequestStatus = Pending | Accepted

  /** A farmer's request for `quantity` kg over `duration` days. */
  datatype Request = Request(id: string, farmer: string, quantity: int, duration: int,
                             status: RequestStatus, date: string)

  /** The requests the screen starts with. */
  const MockRequests: seq<Request> := [
    Request("r1", "Suresh Patil", 500, 7, Pending, "Today"),
    Request("r2", "Meena Devi", 1200, 14, Pending, "Today"),
    Request("r3", "Anil Kumar", 300, 5, Accepted, "Yesterday")
  ]

  ghost predicate DistinctIds(rs: seq<Request>) {
    forall i, j :: 0 <= i < j < |rs| ==> rs[i].id != rs[j].id
  }

  // ---------------------------------------------------------------- accept and decline

  /** The list after accepting `id`: that request's status becomes accepted. */
  function AfterAccept(rs: seq<Request>, id: string): (r: seq<Request>)
    ensures |r| == |rs|
    ensures forall i :: 0 <= i < |rs| ==>
      r[i] == if rs[i].id == id then rs[i].(status := Accepted) else rs[i]
  {
    if rs == [] then []
    else [if rs[0].id == id then rs[0].(status := Accepted) else rs[0]] + AfterAccept(rs[1..], id)
  }

  /** The list after declining `id`: every request with that id is dropped, the rest keep their order. */
  function AfterDecline(rs: seq<Request>, id: string): (r: seq<Request>)
    ensures forall x :: x in r <==> x in rs && x.id != id
    ensures |r| <= |rs|
  {
    if rs == [] then []
    else (if rs[0].id != id then [rs[0]] else []) + AfterDecline(rs[1..], id)
  }

  /** Each request that stays is kept as many times as it occurred; the declined ones are gone. */
  lemma {:induction false} DeclineCounts(rs: seq<Request>, id: string)
    ensures forall x :: multiset(AfterDecline(rs, id))[x] == if x.id != id then multiset(rs)[x] else 0
  {
    if rs != [] {
      DeclineCounts(rs[1..], id);
      assert rs == [rs[0]] + rs[1..];
      assert AfterDecline(rs, id) == (if rs[0].id != id then [rs[0]] else []) + AfterDecline(rs[1..], id);
    }
  }

  /** Declining works piece by piece, so the requests that stay keep their relative order. */
  lemma {:induction false} DeclineAppend(a: seq<Request>, b: seq<Request>, id: string)
    ensures AfterDecline(a + b, id) == AfterDecline(a, id) + AfterDecline(b, id)
  {
    if a == [] {
      assert a + b == b;
    } else {
      var h, t := a[0], a[1..];
      var kept := if h.id != id then [h] else [];
      calc {
        AfterDecline(a + b, id);
        { assert a + b == [h] + (t + b); }
        AfterDecline([h] + (t + b), id);
        { DeclineCons(h, t + b, id); }
        kept + AfterDecline(t + b, id);
        { DeclineAppend(t, b, id); }
        kept + (AfterDecline(t, id) + AfterDecline(b, id));
        (kept + AfterDecline(t, id)) + AfterDecline(b, id);
        { DeclineCons(h, t, id); assert a == [h] + t; }
        AfterDecline(a, id) + AfterDecline(b, id);
      }
    }
  }

  lemma DeclineCons(h: Request, t: seq<Request>, id: string)
    ensures AfterDecline([h] + t, id) == (if h.id != id then [h] else []) + AfterDecline(t, id)
  {
    assert ([h] + t)[0] == h && ([h] + t)[1..] == t;
  }

  /** Declining an id that no request has leaves the list as it is. */
  lemma {:induction false} DeclineAbsent(rs: seq<Request>, id: string)
    requires forall x :: x in rs ==> x.id != id
    ensures AfterDecline(rs, id) == rs
  {
    if rs != [] {
      DeclineAbsent(rs[1..], id);
      assert rs == [rs[0]] + rs[1..];
    }
  }

  // ---------------------------------------------------------------- totals

  /** `totalRequested`: the kilograms asked for by the pending requests. */
  function TotalRequested(rs: seq<Request>): int {
    if rs == [] then 0
    else (if rs[0].status == Pending then rs[0].quantity else 0) + TotalRequested(rs[1..])
  }

  /** The number of pending requests shown on the badge. */
  function PendingCount(rs: seq<Request>): (r: nat)
    ensures r <= |rs|
  {
    if rs == [] then 0
    else (if rs[0].status == Pending then 1 else 0) + PendingCount(rs[1..])
  }

  lemma TotalsOfCons(h: Request, t: seq<Request>)
    ensures TotalRequested([h] + t) == (if h.status == Pending then h.quantity else 0) + TotalRequested(t)
    ensures PendingCount([h] + t) == (if h.status == Pending then 1 else 0) + PendingCount(t)
  {
    assert ([h] + t)[1..] == t;
  }

  /** For the pending totals, accepting a request has the same effect as declining it. */
  lemma {:induction false} AcceptLikeDecline(rs: seq<Request>, id: string)
    ensures TotalRequested(AfterAccept(rs, id)) == TotalRequested(AfterDecline(rs, id))
    ensures PendingCount(AfterAccept(rs, id)) == PendingCount(AfterDecline(rs, id))
  {
    if rs != [] {
      var h := rs[0];
      var ta := AfterAccept(rs[1..], id);
      var td := AfterDecline(rs[1..], id);
      AcceptLikeDecline(rs[1..], id);
      var h' := if h.id == id then h.(status := Accepted) else h;
      assert AfterAccept(rs, id) == [h'] + ta;
      TotalsOfCons(h', ta);
      if h.id == id {
        assert AfterDecline(rs, id) == td;
      } else {
        assert AfterDecline(rs, id) == [h] + td;
        TotalsOfCons(h, td);
      }
    }
  }

  /**
   * With distinct ids, declining (or accepting) request `i` lowers the pending
   * total by its quantity and the pending count by one if it was pending, and
   * changes neither otherwise.
   */
  lemma {:induction false} DeclineOne(rs: seq<Request>, i: int)
    requires DistinctIds(rs) && 0 <= i < |rs|
    ensures TotalRequested(AfterDecline(rs, rs[i].id)) ==
      TotalRequested(rs) - (if rs[i].status == Pending then rs[i].quantity else 0)
    ensures PendingCount(AfterDecline(rs, rs[i].id)) ==
      PendingCount(rs) - (if rs[i].status == Pending then 1 else 0)
  {
    var tail := rs[1..];
    var id := rs[i].id;
    DistinctTail(rs);
    if i == 0 {
      DeclineAbsent(tail, id);
      assert AfterDecline(rs, id) == AfterDecline(tail, id);
    } else {
      assert tail[i - 1] == rs[i];
      DeclineOne(tail, i - 1);
      assert AfterDecline(rs, id) == [rs[0]] + AfterDecline(tail, id);
      TotalsOfCons(rs[0], AfterDecline(tail, id));
    }
    TotalsOfCons(rs[0], tail);
    assert rs == [rs[0]] + tail;
  }

  /** The tail of a list with distinct ids has distinct ids, none equal to the head's. */
  lemma DistinctTail(rs: seq<Request>)
    requires DistinctIds(rs) && rs != []
    ensures DistinctIds(rs[1..])
    ensures forall x :: x in rs[1..] ==> x.id != rs[0].id
  {
    var tail := rs[1..];
    forall a, b | 0 <= a < b < |tail| ensures tail[a].id != tail[b].id {
      assert tail[a] == rs[a + 1] && tail[b] == rs[b + 1];
    }
    forall x | x in tail ensures x.id != rs[0].id {
      var k :| 0 <= k < |tail| && tail[k] == x;
      assert rs[k + 1] == x;
    }
  }

  /** Accepting request `i` of a list with distinct ids removes exactly its quantity from the pending total. */
  lemma AcceptOne(rs: seq<Request>, i: int)
    requires DistinctIds(rs) && 0 <= i < |rs| && rs[i].status == Pending
    ensures TotalRequested(AfterAccept(rs, rs[i].id)) == TotalRequested(rs) - rs[i].quantity
    ensures PendingCount(AfterAccept(rs, rs[i].id)) == PendingCount(rs) - 1
  {
    AcceptLikeDecline(rs, rs[i].id);
    DeclineOne(rs, i);
  }

  // ---------------------------------------------------------------- facility figures

  /**
   * `usedPct`: the rounded share of the first facility's capacity in use,
   * or 0 when there is no facility. `None` when its total is 0.
   */
  function UsedPct(fs: seq<StorageFacility>): Option<int> {
    if fs == [] then Some(0)
    else Rounding.RoundedPercent(fs[0].totalCapacity - fs[0].availableCapacity, fs[0].totalCapacity)
  }

  /** Within the capacity invariant and a positive total, `usedPct` lies in [0, 100]. */
  lemma UsedPctInRange(fs: seq<StorageFacility>)
    requires fs != [] && CapacityInBounds(fs[0]) && fs[0].totalCapacity > 0
    ensures UsedPct(fs).Some? && 0 <= UsedPct(fs).value <= 100
  {
    Rounding.RoundedPercentInRange(fs[0].totalCapacity - fs[0].availableCapacity, fs[0].totalCapacity);
  }

  /** The estimated monthly revenue: price times the booked kilograms times 30 days. */
  function EstimatedMonthlyRevenue(f: StorageFacility): real {
    f.pricePerKgPerDay * (f.totalCapacity - f.availableCapacity) as real * 30.0
  }

  /** The estimate is never negative within the invariant, and zero for an empty facility. */
  lemma EstimatedRevenueBounds(f: StorageFacility)
    requires CapacityInBounds(f) && f.pricePerKgPerDay >= 0.0
    ensures EstimatedMonthlyRevenue(f) >= 0.0
    ensures f.availableCapacity == f.totalCapacity ==> EstimatedMonthlyRevenue(f) == 0.0
  {
    var used := (f.totalCapacity - f.availableCapacity) as real;
    assert f.pricePerKgPerDay * used >= 0.0;
  }

  /** The capacity editor's input: `parseInt(text) || 0`, where `None` is an unparsable text. */
  function CapacityInput(parsed: Option<int>): int {
    parsed.GetOr(0)
  }

  /** The save guard: only `0 < newCap <= totalCapacity` reaches the context. */
  predicate CapacitySaveAllowed(newCap: int, f: StorageFacility) {
    newCap > 0 && newCap <= f.totalCapacity
  }

  // ---------------------------------------------------------------- the screen state

  class ProviderScreenState {
    var requests: seq<Request>
    var editCapacity: bool

    constructor ()
      ensures requests == MockRequests && !editCapacity
    {
      requests := MockRequests;
      editCapacity := false;
    }

    /** Accept: the matching request becomes accepted; length and order are kept. */
    method Accept(id: string)
      modifies this`requests
      ensures requests == AfterAccept(old(requests), id)
    {
      var prev := requests;
      var next: seq<Request> := [];
      var i := 0;
      while i < |prev|
        invariant 0 <= i <= |prev| && |next| == i
        invariant forall k :: 0 <= k < i ==>
          next[k] == if prev[k].id == id then prev[k].(status := Accepted) else prev[k]
      {
        next := next + [if prev[i].id == id then prev[i].(status := Accepted) else prev[i]];
        i := i + 1;
      }
      requests := next;
    }

    /** Decline: every request with this id is removed; the rest keep their order. */
    method Decline(id: string)
      modifies this`requests
      ensures requests == AfterDecline(old(requests), id)
    {
      var prev := requests;
      var kept: seq<Request> := [];
      var i := |prev|;
      while i > 0
        invariant 0 <= i <= |prev|
        invariant kept == AfterDecline(prev[i..], id)
      {
        i := i - 1;
        assert prev[i..] == [prev[i]] + prev[i + 1..];
        if prev[i].id != id {
          kept := [prev[i]] + kept;
        }
      }
      requests := kept;
    }

    /**
     * The availability save button: parses the input (unparsable becomes 0) and
     * sets the first facility's availability only when `0 < newCap <= totalCapacity`;
     * the editor closes either way.
     */
    method SaveCapacity(app: AppContext.AppState, parsed: Option<int>)
      requires |app.facilities| > 0
      modifies this`editCapacity, app`facilities
      ensures !editCapacity
      ensures var f := old(app.facilities)[0];
        app.facilities ==
          if CapacitySaveAllowed(CapacityInput(parsed), f)
          then AppContext.WithAvailability(old(app.facilities), f.id, CapacityInput(parsed))
          else old(app.facilities)
    {
      var facility := app.facilities[0];
      var newCap := CapacityInput(parsed);
      if newCap > 0 && newCap <= facility.totalCapacity {
        app.SetFacilityAvailability(facility.id, newCap);
      }
      editCapacity := false;
    }
  }

  /** A save that passes the guard stores exactly the typed capacity in the first facility. */
  lemma SavedCapacityExact(fs: seq<StorageFacility>, parsed: Option<int>)
    requires fs != [] && CapacitySaveAllowed(CapacityInput(parsed), fs[0])
    ensures AppContext.WithAvailability(fs, fs[0].id, CapacityInput(parsed))[0].availableCapacity
      == CapacityInput(parsed)
    ensures CapacityInBounds(AppContext.WithAvailability(fs, fs[0].id, CapacityInput(parsed))[0])
  {
    AppContext.AvailabilityEffect(fs, fs[0].id, CapacityInput(parsed));
  }

  /** An unparsable input, or 0, never changes the facility list. */
  lemma UnparsableCapacityIgnored(f: StorageFacility)
    ensures !CapacitySaveAllowed(CapacityInput(None), f)
    ensures !CapacitySaveAllowed(CapacityInput(Some(0)), f)
  {
  }
}
