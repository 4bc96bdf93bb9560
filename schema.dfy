/**
 * The shared schema: the per-category price table, the pricing and cost
 * rules built on it, and the rows of the `facilities` and `bookings` tables
 * together with the column defaults the database fills in.
 *
 * Prices and costs are exact reals; the database's double precision is not modelled.
 */
module Schema {
  import opened Wrappers

  // ---------------------------------------------------------------- price table

  /** One row of the category price table: the advisory range and the default price. */
  datatype CategoryConfig = CategoryConfig(min: real, max: real, default: real)

  const FruitsAndVegetables := "Fruits & Vegetables"
  const DairyProducts := "Dairy Products"
  const FrozenGoods := "Frozen Goods"
  const Grains := "Grains"
  const MultiPurposeStorage := "Multi-purpose Storage"

  /** The configured storage categories, in table order. */
  const StorageCategories: seq<string> :=
    [FruitsAndVegetables, DairyProducts, FrozenGoods, Grains, MultiPurposeStorage]

  /** The price used when neither the facility nor the table gives one. */
  const GlobalDefaultPrice: real := 1.0

  /** The range reported for a category the table does not know. */
  const UnknownCategoryMin: real := 0.1
  const UnknownCategoryMax: real := 10.0

  /** Looks a category up in the price table; `None` for a name the table does not contain. */
  function CategoryConfigFor(category: string): (r: Option<CategoryConfig>)
    ensures r.Some? <==> category in StorageCategories
  {
    if category == FruitsAndVegetables then Some(CategoryConfig(0.8, 1.2, 1.0))
    else if category == DairyProducts then Some(CategoryConfig(1.5, 2.5, 2.0))
    else if category == FrozenGoods then Some(CategoryConfig(3.0, 5.0, 4.0))
    else if category == Grains then Some(CategoryConfig(0.8, 1.5, 1.0))
    else if category == MultiPurposeStorage then Some(CategoryConfig(0.8, 1.5, 1.0))
    else None
  }

  /** Every row of the table has `0 < min <= default <= max`. */
  lemma TableRowsWellFormed(category: string)
    requires category in StorageCategories
    ensures var c := CategoryConfigFor(category).value;
      0.0 < c.min <= c.default <= c.max
  {
  }

  // ---------------------------------------------------------------- pricing rules

  /**
   * The default price of a category: the table's default, or the global 1.0
   * when the category is unknown (or its default is falsy, which no row is).
   */
  function DefaultPriceForCategory(category: string): (p: real)
    ensures p > 0.0
    ensures CategoryConfigFor(category).Some? ==> p == CategoryConfigFor(category).value.default
    ensures CategoryConfigFor(category).None? ==> p == GlobalDefaultPrice
  {
    match CategoryConfigFor(category)
    case Some(c) => if c.default != 0.0 then c.default else GlobalDefaultPrice
    case None => GlobalDefaultPrice
  }

  /** The answer of the advisory price check. */
  datatype PriceBounds = PriceBounds(inBounds: bool, min: real, max: real)

  /**
   * Advisory bounds check for a provider-set price. An unknown category is always
   * in bounds with the wide range [0.1, 10]; a known one reports its table range.
   */
  function IsPriceInBounds(category: string, price: real): (r: PriceBounds)
    ensures CategoryConfigFor(category).None? ==>
      r == PriceBounds(true, UnknownCategoryMin, UnknownCategoryMax)
    ensures CategoryConfigFor(category).Some? ==>
      var c := CategoryConfigFor(category).value;
      r.min == c.min && r.max == c.max && (r.inBounds <==> c.min <= price <= c.max)
  {
    match CategoryConfigFor(category)
    case None => PriceBounds(true, UnknownCategoryMin, UnknownCategoryMax)
    case Some(c) => PriceBounds(price >= c.min && price <= c.max, c.min, c.max)
  }

  /** Every category's default price passes its own bounds check. */
  lemma DefaultPriceInBounds(category: string)
    ensures IsPriceInBounds(category, DefaultPriceForCategory(category)).inBounds
  {
    if category in StorageCategories {
      TableRowsWellFormed(category);
    }
  }

  /**
   * The price a booking uses: the facility's own price when it is present and
   * positive, else the category default (itself falling back to 1.0).
   */
  function ResolveFacilityPrice(facilityPrice: Option<real>, category: string): (p: real)
    ensures p > 0.0
    ensures facilityPrice.Some? && facilityPrice.value > 0.0 ==> p == facilityPrice.value
    ensures !(facilityPrice.Some? && facilityPrice.value > 0.0) ==> p == DefaultPriceForCategory(category)
  {
    if facilityPrice.Some? && facilityPrice.value > 0.0 then facilityPrice.value
    else DefaultPriceForCategory(category)
  }

  /** The standard cost formula: quantity (kg) times price per kg per day times days. */
  function TotalCost(quantity: int, pricePerKgPerDay: real, durationDays: int): real {
    quantity as real * pricePerKgPerDay * durationDays as real
  }

  /** The cost is zero as soon as any factor is zero. */
  lemma TotalCostZero(quantity: int, pricePerKgPerDay: real, durationDays: int)
    ensures quantity == 0 || pricePerKgPerDay == 0.0 || durationDays == 0 ==>
      TotalCost(quantity, pricePerKgPerDay, durationDays) == 0.0
  {
  }

  /** With non-negative factors, raising any one factor never lowers the cost. */
  lemma TotalCostMonotone(q1: int, q2: int, p1: real, p2: real, d1: int, d2: int)
    requires 0 <= q1 <= q2 && 0.0 <= p1 <= p2 && 0 <= d1 <= d2
    ensures 0.0 <= TotalCost(q1, p1, d1) <= TotalCost(q2, p2, d2)
  {
    var a1, a2 := q1 as real, q2 as real;
    var b1, b2 := d1 as real, d2 as real;
    RealMulMonotone(a1, a2, p1, p2);
    RealMulMonotone(a1 * p1, a2 * p2, b1, b2);
  }

  lemma RealMulMonotone(x1: real, x2: real, y1: real, y2: real)
    requires 0.0 <= x1 <= x2 && 0.0 <= y1 <= y2
    ensures 0.0 <= x1 * y1 <= x2 * y2
  {
    assert x2 * y2 - x1 * y1 == x2 * (y2 - y1) + y1 * (x2 - x1);
  }

  /** Scenario: 100 kg for 5 days of a "Dairy Products" booking priced by the table costs 1000. */
  lemma DairyScenario()
    ensures ResolveFacilityPrice(None, DairyProducts) == 2.0
    ensures ResolveFacilityPrice(Some(3.5), DairyProducts) == 3.5
    ensures TotalCost(100, ResolveFacilityPrice(None, DairyProducts), 5) == 1000.0
  {
  }

  // ---------------------------------------------------------------- table rows

  /** A row of the `facilities` table; `ownerId` is `None` for the seeded demo rows. */
  datatype FacilityRow = FacilityRow(
    id: string,
    ownerId: Option<string>,
    name: string,
    location: string,
    distance: real,
    storageTypes: seq<string>,
    pricePerKgPerDay: real,
    totalCapacity: int,
    availableCapacity: int,
    rating: real,
    reviewCount: int,
    verified: bool,
    certifications: seq<string>,
    contactPhone: string,
    operatingHours: string,
    minBookingDays: int,
    amenities: seq<string>,
    imageUrl: Option<string>)

  /** A row of the `bookings` table. Dates are milliseconds since the epoch. */
  datatype BookingRow = BookingRow(
    id: string,
    userId: string,
    facilityId: string,
    facilityName: string,
    facilityLocation: string,
    quantity: int,
    duration: int,
    startDate: int,
    endDate: int,
    totalCost: real,
    pricePerKgPerDay: real,
    status: string,
    storageType: string,
    storageCategory: string)

  /** The values an insert into `bookings` supplies; `None` leaves a column to its default. */
  datatype BookingInsert = BookingInsert(
    userId: string,
    facilityId: string,
    facilityName: string,
    facilityLocation: string,
    quantity: int,
    duration: int,
    startDate: Option<int>,
    endDate: int,
    totalCost: real,
    pricePerKgPerDay: real,
    status: Option<string>,
    storageType: string,
    storageCategory: Option<string>)

  const DefaultBookingStatus := "active"
  const DefaultStorageCategory := FruitsAndVegetables
  const DefaultMinBookingDays := 1

  /**
   * The row the database stores for an insert: `id` is the generated key,
   * `now` the time `defaultNow()` reads; status, category and start date
   * take their column defaults when the insert leaves them out.
   */
  function InsertedBooking(id: string, values: BookingInsert, now: int): (b: BookingRow)
    ensures b.id == id && b.userId == values.userId && b.facilityId == values.facilityId
    ensures b.facilityName == values.facilityName && b.facilityLocation == values.facilityLocation
    ensures b.quantity == values.quantity && b.duration == values.duration
    ensures b.endDate == values.endDate && b.totalCost == values.totalCost
    ensures b.pricePerKgPerDay == values.pricePerKgPerDay && b.storageType == values.storageType
    ensures b.status == (if values.status.Some? then values.status.value else "active")
    ensures b.storageCategory == (if values.storageCategory.Some? then values.storageCategory.value else "Fruits & Vegetables")
    ensures b.startDate == (if values.startDate.Some? then values.startDate.value else now)
  {
    BookingRow(
      id, values.userId, values.facilityId, values.facilityName, values.facilityLocation,
      values.quantity, values.duration, values.startDate.GetOr(now), values.endDate,
      values.totalCost, values.pricePerKgPerDay,
      values.status.GetOr(DefaultBookingStatus), values.storageType,
      values.storageCategory.GetOr(DefaultStorageCategory))
  }

  /** The values an insert into `facilities` supplies; `None` leaves a column to its default. */
  datatype FacilityInsert = FacilityInsert(
    ownerId: Option<string>,
    name: string,
    location: string,
    distance: Option<real>,
    storageTypes: seq<string>,
    pricePerKgPerDay: real,
    totalCapacity: int,
    availableCapacity: int,
    contactPhone: string,
    operatingHours: string,
    minBookingDays: Option<int>)

  /**
   * The row the database stores for a facility insert: distance, rating and
   * review count default to 0, `verified` to false, the lists to empty and the
   * minimum booking period to one day.
   */
  function InsertedFacility(id: string, values: FacilityInsert): (f: FacilityRow)
    ensures f.id == id && f.ownerId == values.ownerId
    ensures f.name == values.name && f.location == values.location && f.storageTypes == values.storageTypes
    ensures f.contactPhone == values.contactPhone && f.operatingHours == values.operatingHours
    ensures f.pricePerKgPerDay == values.pricePerKgPerDay
    ensures f.totalCapacity == values.totalCapacity && f.availableCapacity == values.availableCapacity
    ensures f.minBookingDays == (if values.minBookingDays.Some? then values.minBookingDays.value else 1)
    ensures f.distance == (if values.distance.Some? then values.distance.value else 0.0)
    ensures f.rating == 0.0 && f.reviewCount == 0 && !f.verified
    ensures f.certifications == [] && f.amenities == [] && f.imageUrl == None
  {
    FacilityRow(
      id, values.ownerId, values.name, values.location, values.distance.GetOr(0.0),
      values.storageTypes, values.pricePerKgPerDay, values.totalCapacity,
      values.availableCapacity, 0.0, 0, false, [], values.contactPhone,
      values.operatingHours, values.minBookingDays.GetOr(DefaultMinBookingDays), [], None)
  }
}
