/**
 * The app-wide client state: the facility list with its capacity ledger, the
 * booking list and the translation lookup.
 *
 * Each setter of the source replaces the state array with a mapped or prepended
 * copy; here the state is a class whose methods rewrite their `seq` field.
 */
module AppContext {
  import opened Wrappers
  import opened SeedData

  datatype UserRole = Farmer | Provider

  function Max(a: int, b: int): int { if a >= b then a else b }
  function Min(a: int, b: int): int { if a <= b then a else b }

  /** One facility after `quantityBooked` kg were booked: capacity drops, floored at 0. */
  function Booked(f: StorageFacility, quantityBooked: int): StorageFacility {
    f.(availableCapacity := Max(0, f.availableCapacity - quantityBooked))
  }

  /** One facility with its availability set to `v`, clamped into `[0, totalCapacity]`. */
  function Clamped(f: StorageFacility, v: int): StorageFacility {
    f.(availableCapacity := Min(f.totalCapacity, Max(0, v)))
  }

  /**
   * The list after `update` is applied to every facility whose id is `facilityId`
   * (the source's `prev.map(f => f.id === facilityId ? update(f) : f)`).
   */
  function UpdateWhere(fs: seq<StorageFacility>, facilityId: string,
                       update: StorageFacility -> StorageFacility): (r: seq<StorageFacility>)
    ensures |r| == |fs|
    ensures forall i :: 0 <= i < |fs| ==>
      r[i] == if fs[i].id == facilityId then update(fs[i]) else fs[i]
  {
    if fs == [] then []
    else [if fs[0].id == facilityId then update(fs[0]) else fs[0]]
         + UpdateWhere(fs[1..], facilityId, update)
  }

  /** The facility list after `updateFacilityCapacity(facilityId, quantityBooked)`. */
  function WithCapacityBooked(fs: seq<StorageFacility>, facilityId: string, quantityBooked: int): seq<StorageFacility> {
    UpdateWhere(fs, facilityId, f => Booked(f, quantityBooked))
  }

  /** The facility list after `setFacilityAvailability(facilityId, v)`. */
  function WithAvailability(fs: seq<StorageFacility>, facilityId: string, v: int): seq<StorageFacility> {
    UpdateWhere(fs, facilityId, f => Clamped(f, v))
  }

  /** Every facility of the list satisfies `0 <= availableCapacity <= totalCapacity`. */
  ghost predicate LedgerInBounds(fs: seq<StorageFacility>) {
    forall i :: 0 <= i < |fs| ==> CapacityInBounds(fs[i])
  }

  /**
   * Booking sets the matching facilities' capacity to `max(0, available - quantity)`,
   * so it is never negative; with a non-negative quantity it never grows (unless it
   * was negative to begin with, when the floor lifts it to 0). Every
   * other facility, every other field, the length and the order stay as they were.
   */
  lemma CapacityBookedEffect(fs: seq<StorageFacility>, facilityId: string, quantityBooked: int)
    ensures var r := WithCapacityBooked(fs, facilityId, quantityBooked);
      |r| == |fs| &&
      forall i :: 0 <= i < |fs| ==>
        (fs[i].id != facilityId ==> r[i] == fs[i]) &&
        (fs[i].id == facilityId ==>
          r[i] == fs[i].(availableCapacity := r[i].availableCapacity) &&
          r[i].availableCapacity == Max(0, fs[i].availableCapacity - quantityBooked) &&
          r[i].availableCapacity >= 0 &&
          (quantityBooked >= 0 && fs[i].availableCapacity >= 0 ==>
            r[i].availableCapacity <= fs[i].availableCapacity))
  {
  }

  /** A booking of a non-negative quantity keeps the whole ledger in bounds. */
  lemma CapacityBookedKeepsLedger(fs: seq<StorageFacility>, facilityId: string, quantityBooked: int)
    requires LedgerInBounds(fs) && quantityBooked >= 0
    ensures LedgerInBounds(WithCapacityBooked(fs, facilityId, quantityBooked))
  {
    CapacityBookedEffect(fs, facilityId, quantityBooked);
  }

  /** A negative quantity passes straight through and can push a facility above its total. */
  lemma NegativeBookingOverfills()
    ensures var fs := [MockFacilities[0].(availableCapacity := MockFacilities[0].totalCapacity)];
      LedgerInBounds(fs) && !LedgerInBounds(WithCapacityBooked(fs, "1", -1))
  {
    var fs := [MockFacilities[0].(availableCapacity := MockFacilities[0].totalCapacity)];
    assert !CapacityInBounds(WithCapacityBooked(fs, "1", -1)[0]);
  }

  /**
   * Setting availability stores `min(total, max(0, v))` in the matching facilities and
   * leaves everything else alone; a matching facility with `total >= 0` ends in bounds.
   */
  lemma AvailabilityEffect(fs: seq<StorageFacility>, facilityId: string, v: int)
    ensures var r := WithAvailability(fs, facilityId, v);
      |r| == |fs| &&
      forall i :: 0 <= i < |fs| ==>
        (fs[i].id != facilityId ==> r[i] == fs[i]) &&
        (fs[i].id == facilityId ==>
          r[i] == fs[i].(availableCapacity := r[i].availableCapacity) &&
          r[i].availableCapacity == Min(fs[i].totalCapacity, Max(0, v)) &&
          (fs[i].totalCapacity >= 0 ==> CapacityInBounds(r[i])) &&
          (0 <= v <= fs[i].totalCapacity ==> r[i].availableCapacity == v))
  {
  }

  /** Setting availability keeps the ledger in bounds, whatever value is asked for. */
  lemma AvailabilityKeepsLedger(fs: seq<StorageFacility>, facilityId: string, v: int)
    requires LedgerInBounds(fs)
    ensures LedgerInBounds(WithAvailability(fs, facilityId, v))
  {
    AvailabilityEffect(fs, facilityId, v);
  }

  /** Setting the same availability twice is the same as setting it once. */
  lemma {:induction false} AvailabilityIdempotent(fs: seq<StorageFacility>, facilityId: string, v: int)
    ensures WithAvailability(WithAvailability(fs, facilityId, v), facilityId, v) == WithAvailability(fs, facilityId, v)
  {
    var once := WithAvailability(fs, facilityId, v);
    var twice := WithAvailability(once, facilityId, v);
    forall i | 0 <= i < |fs| ensures twice[i] == once[i] {
      if fs[i].id == facilityId {
        assert once[i].totalCapacity == fs[i].totalCapacity;
      }
    }
  }

  /**
   * The client state. `facilities` starts as the seed list and `bookings` empty;
   * loading and saving through device storage is not part of the model.
   */
  class AppState {
    var language: string
    var role: UserRole
    var bookings: seq<Booking>
    var facilities: seq<StorageFacility>

    constructor ()
      ensures language == "en" && role == Farmer
      ensures bookings == [] && facilities == MockFacilities
    {
      language := "en";
      role := Farmer;
      bookings := [];
      facilities := MockFacilities;
    }

    /** `addBooking`: the new booking goes in front; the earlier ones keep their order. */
    method AddBooking(booking: Booking)
      modifies this`bookings
      ensures bookings == [booking] + old(bookings)
      ensures |bookings| == |old(bookings)| + 1 && bookings[1..] == old(bookings)
    {
      bookings := [booking] + bookings;
    }

    /** `updateFacilityCapacity`: books `quantityBooked` kg off every facility with this id. */
    method UpdateFacilityCapacity(facilityId: string, quantityBooked: int)
      modifies this`facilities
      ensures facilities == WithCapacityBooked(old(facilities), facilityId, quantityBooked)
    {
      var prev := facilities;
      var next: seq<StorageFacility> := [];
      var i := 0;
      while i < |prev|
        invariant 0 <= i <= |prev| && |next| == i
        invariant forall k :: 0 <= k < i ==>
          next[k] == if prev[k].id == facilityId then Booked(prev[k], quantityBooked) else prev[k]
      {
        next := next + [if prev[i].id == facilityId then Booked(prev[i], quantityBooked) else prev[i]];
        i := i + 1;
      }
      facilities := next;
    }

    /** `setFacilityAvailability`: sets the clamped availability of every facility with this id. */
    method SetFacilityAvailability(facilityId: string, newAvailableCapacity: int)
      modifies this`facilities
      ensures facilities == WithAvailability(old(facilities), facilityId, newAvailableCapacity)
    {
      var prev := facilities;
      var next: seq<StorageFacility> := [];
      var i := 0;
      while i < |prev|
        invariant 0 <= i <= |prev| && |next| == i
        invariant forall k :: 0 <= k < i ==>
          next[k] == if prev[k].id == facilityId then Clamped(prev[k], newAvailableCapacity) else prev[k]
      {
        next := next + [if prev[i].id == facilityId then Clamped(prev[i], newAvailableCapacity) else prev[i]];
        i := i + 1;
      }
      facilities := next;
    }

    /** The string for `key` in the current language (the function `useTranslation` returns). */
    function T(key: string): string
      reads this
    {
      Translate(language, key)
    }
  }

  /**
   * Translation lookup: the language's entry if it is present and non-empty,
   * else the English entry if present and non-empty, else the key itself.
   */
  function Translate(language: string, key: string): (r: string)
    ensures r == key || r in English.Values ||
      (language in Translations && r in Translations[language].Values)
  {
    var own := if language in Translations && key in Translations[language] then Translations[language][key] else "";
    var english := if key in English then English[key] else "";
    if own != "" then own else if english != "" then english else key
  }

  /** For a supported language, every key of the English table is looked up in that language's table. */
  lemma TranslateSupportedKey(language: string, key: string)
    requires language in {"en", "hi", "te"} && key in English
    ensures language in Translations && key in Translations[language]
    ensures Translate(language, key) == Translations[language][key]
  {
    TranslationKeyCoverage();
  }

  /** A key no table defines comes back unchanged, in any language. */
  lemma TranslateUnknownKey(language: string, key: string)
    requires key !in English
    ensures Translate(language, key) == key
  {
    HindiKeys();
    TeluguKeys();
  }

  /** A language with no table falls back to English for the keys English defines. */
  lemma TranslateUnknownLanguage(language: string, key: string)
    requires language !in Translations && key in English
    ensures Translate(language, key) == English[key]
  {
    TranslationKeyCoverage();
  }
}
