/**
 * The booking card: the status badge looked up by status, and the days
 * remaining until a booking ends, shown for active bookings only.
 */
module BookingCard {
  import opened Wrappers
  import opened SeedData

  /** Milliseconds in a day, `1000 * 60 * 60 * 24`. */
  const MillisPerDay: int := 1000 * 60 * 60 * 24

  /** `Math.ceil(x / d)` for a positive `d`, from Dafny's floor division. */
  function CeilDiv(x: int, d: int): (r: int)
    requires d > 0
    ensures (r - 1) * d < x <= r * d
  {
    var q := (-x) / d;
    assert d * q <= -x < d * (q + 1);
    -q
  }

  /** `daysRemaining = max(0, ceil((end - now) / day))`, with times in milliseconds. */
  function DaysRemaining(endDate: int, now: int): (r: int)
    ensures r >= 0
  {
    var c := CeilDiv(endDate - now, MillisPerDay);
    if c > 0 then c else 0
  }

  /**
   * The days remaining are never negative; 0 once the end has passed; and
   * otherwise the least whole number of days that covers the time left.
   */
  lemma DaysRemainingSpec(endDate: int, now: int)
    ensures DaysRemaining(endDate, now) >= 0
    ensures endDate <= now ==> DaysRemaining(endDate, now) == 0
    ensures endDate > now ==>
      (DaysRemaining(endDate, now) - 1) * MillisPerDay < endDate - now <= DaysRemaining(endDate, now) * MillisPerDay
  {
    var c := CeilDiv(endDate - now, MillisPerDay);
    if endDate <= now {
      assert (c - 1) * MillisPerDay < 0;
    } else {
      assert c * MillisPerDay >= 1;
    }
  }

  /** Exactly `k` days left counts as `k`; any more than that, up to a further day, as `k + 1`. */
  lemma DaysRemainingWholeDays(endDate: int, now: int, k: nat)
    ensures endDate - now == k * MillisPerDay ==> DaysRemaining(endDate, now) == k
    ensures k * MillisPerDay < endDate - now <= (k + 1) * MillisPerDay ==> DaysRemaining(endDate, now) == k + 1
  {
    DaysRemainingSpec(endDate, now);
    var r := DaysRemaining(endDate, now);
    if endDate > now {
      CeilUnique(endDate - now, r, if endDate - now == k * MillisPerDay then k else k + 1);
    }
  }

  /** Two whole numbers that both satisfy the ceiling bounds are equal. */
  lemma CeilUnique(x: int, r: int, s: int)
    requires (r - 1) * MillisPerDay < x <= r * MillisPerDay
    ensures (s - 1) * MillisPerDay < x <= s * MillisPerDay ==> r == s
  {
    if r < s {
      assert r * MillisPerDay <= (s - 1) * MillisPerDay;
    } else if s < r {
      assert s * MillisPerDay <= (r - 1) * MillisPerDay;
    }
  }

  datatype Tone = Success | Info | Danger | Primary

  /** A badge: text colour, background, label and icon name. */
  datatype StatusStyle = StatusStyle(color: Tone, background: string, labelText: string, icon: string)

  /** `STATUS_CONFIG`, one entry per client booking status. */
  function StatusConfig(s: BookingStatus): StatusStyle {
    match s
    case Active => StatusStyle(Success, "successLight", "Active", "clock")
    case Completed => StatusStyle(Info, "infoLight", "Completed", "check-circle")
    case Cancelled => StatusStyle(Danger, "dangerLight", "Cancelled", "x-circle")
  }

  /** The badge lookup by status name: defined exactly for "active", "completed" and "cancelled". */
  function StatusConfigByName(name: string): (r: Option<StatusStyle>)
    ensures r.Some? <==> name in {"active", "completed", "cancelled"}
    ensures forall s: BookingStatus :: name == StatusName(s) ==> r == Some(StatusConfig(s))
  {
    match ParseStatus(name)
    case None => None
    case Some(s) => StatusRoundTrip(s); Some(StatusConfig(s))
  }

  /** Distinct statuses show distinct labels. */
  lemma StatusLabelsDistinct(s: BookingStatus, t: BookingStatus)
    ensures StatusConfig(s).labelText == StatusConfig(t).labelText ==> s == t
  {
  }

  /** The "Remaining" cell: the days left and their colour. */
  datatype RemainingCell = RemainingCell(days: int, color: Tone)

  /**
   * Shown only for an active booking; its colour is danger at 2 days or fewer
   * and primary otherwise.
   */
  function Remaining(b: Booking, now: int): (r: Option<RemainingCell>)
    ensures r.Some? <==> b.status == Active
    ensures r.Some? ==> r.value.days == DaysRemaining(b.endDate, now)
    ensures r.Some? ==> (r.value.color == Danger <==> r.value.days <= 2)
  {
    if b.status == Active then
      var days := DaysRemaining(b.endDate, now);
      Some(RemainingCell(days, if days <= 2 then Danger else Primary))
    else None
  }

  /** An active booking ending within two days of now is shown in the danger colour. */
  lemma EndingSoonIsDanger(b: Booking, now: int)
    requires b.status == Active && b.endDate - now <= 2 * MillisPerDay
    ensures Remaining(b, now).value.color == Danger
  {
    DaysRemainingSpec(b.endDate, now);
    var d := DaysRemaining(b.endDate, now);
    if b.endDate > now {
      assert (d - 1) * MillisPerDay < 2 * MillisPerDay;
    }
  }
}
