/**
 * The client-side data model and the seed data the app starts from: the
 * `StorageFacility` and `Booking` records, the five demo facilities and the
 * English, Hindi and Telugu string tables.
 */
module SeedData {
  import opened Wrappers

  /** The storage kinds a facility can offer. */
  datatype StorageType = Cold | Frozen | Dairy

  /** A storage facility as the app holds it. */
  datatype StorageFacility = StorageFacility(
    id: string,
    name: string,
    location: string,
    distance: real,
    storageTypes: seq<StorageType>,
    pricePerKgPerDay: real,
    totalCapacity: int,
    availableCapacity: int,
    rating: real,
    reviewCount: int,
    verified: bool,
    certifications: seq<string>,
    contactPhone: string,
    operatingHours: string,
    minBookingDays: int,
    amenities: seq<string>)

  /** The client's booking status type admits exactly these three values. */
  datatype BookingStatus = Active | Completed | Cancelled

  /**
   * A booking as the app holds it. The source keeps the dates as ISO strings;
   * here they are the milliseconds since the epoch those strings denote.
   */
  datatype Booking = Booking(
    id: string,
    facilityId: string,
    facilityName: string,
    facilityLocation: string,
    quantity: int,
    duration: int,
    startDate: int,
    endDate: int,
    totalCost: real,
    pricePerKgPerDay: real,
    status: BookingStatus,
    storageType: string)

  /** The wire spelling of a client status. */
  function StatusName(s: BookingStatus): string {
    match s
    case Active => "active"
    case Completed => "completed"
    case Cancelled => "cancelled"
  }

  /** Reads a status string as a client status; only the three spellings are accepted. */
  function ParseStatus(name: string): (r: Option<BookingStatus>)
    ensures r.Some? <==> name in {"active", "completed", "cancelled"}
    ensures r.Some? ==> StatusName(r.value) == name
  {
    if name == "active" then Some(Active)
    else if name == "completed" then Some(Completed)
    else if name == "cancelled" then Some(Cancelled)
    else None
  }

  /** Every client status survives a trip through its wire spelling. */
  lemma StatusRoundTrip(s: BookingStatus)
    ensures ParseStatus(StatusName(s)) == Some(s)
  {
  }

  /** The capacity invariant: `0 <= availableCapacity <= totalCapacity`. */
  predicate CapacityInBounds(f: StorageFacility) {
    0 <= f.availableCapacity <= f.totalCapacity
  }

  /** The demo facilities the app starts with. */
  const MockFacilities: seq<StorageFacility> := [
    StorageFacility(
      id := "1", name := "Sahyadri Cold Storage", location := "Nashik, Maharashtra",
      distance := 3.2, storageTypes := [Cold, Frozen],
      pricePerKgPerDay := 0.85, totalCapacity := 50000, availableCapacity := 32000,
      rating := 4.6, reviewCount := 128, verified := true,
      certifications := ["FSSAI Certified", "ISO 22000", "Govt Verified"],
      contactPhone := "+91 98765 43210", operatingHours := "6:00 AM - 10:00 PM",
      minBookingDays := 1,
      amenities := ["24/7 CCTV", "Loading Dock", "Weighbridge", "Insurance"]),
    StorageFacility(
      id := "2", name := "KrishiSheetala Hub", location := "Pune, Maharashtra",
      distance := 5.8, storageTypes := [Cold, Dairy],
      pricePerKgPerDay := 0.72, totalCapacity := 35000, availableCapacity := 12000,
      rating := 4.3, reviewCount := 89, verified := true,
      certifications := ["FSSAI Certified", "Govt Verified"],
      contactPhone := "+91 98765 12345", operatingHours := "5:00 AM - 11:00 PM",
      minBookingDays := 2,
      amenities := ["24/7 CCTV", "Loading Dock", "Power Backup"]),
    StorageFacility(
      id := "3", name := "AgroFrost Centre", location := "Ahmednagar, Maharashtra",
      distance := 8.5, storageTypes := [Cold],
      pricePerKgPerDay := 0.55, totalCapacity := 20000, availableCapacity := 2500,
      rating := 3.9, reviewCount := 42, verified := false,
      certifications := ["FSSAI Certified"],
      contactPhone := "+91 97654 32109", operatingHours := "7:00 AM - 9:00 PM",
      minBookingDays := 3,
      amenities := ["CCTV", "Loading Dock"]),
    StorageFacility(
      id := "4", name := "Nandi Cold Chain", location := "Solapur, Maharashtra",
      distance := 12.3, storageTypes := [Frozen, Dairy],
      pricePerKgPerDay := 0.95, totalCapacity := 45000, availableCapacity := 28000,
      rating := 4.8, reviewCount := 215, verified := true,
      certifications := ["FSSAI Certified", "ISO 22000", "HACCP", "Govt Verified"],
      contactPhone := "+91 99876 54321", operatingHours := "24 Hours",
      minBookingDays := 1,
      amenities := ["24/7 CCTV", "Loading Dock", "Weighbridge", "Insurance", "Power Backup", "Forklift"]),
    StorageFacility(
      id := "5", name := "Kisan Seva Storage", location := "Satara, Maharashtra",
      distance := 15.0, storageTypes := [Cold],
      pricePerKgPerDay := 0.48, totalCapacity := 15000, availableCapacity := 8500,
      rating := 4.1, reviewCount := 67, verified := true,
      certifications := ["FSSAI Certified", "Govt Verified"],
      contactPhone := "+91 98123 45678", operatingHours := "6:00 AM - 9:00 PM",
      minBookingDays := 2,
      amenities := ["CCTV", "Loading Dock", "Weighbridge"])
  ]

  /** Every seed facility satisfies the capacity invariant. */
  lemma SeedCapacityInBounds()
    ensures forall i :: 0 <= i < |MockFacilities| ==> CapacityInBounds(MockFacilities[i])
  {
  }

  /** The seed list is in strictly ascending distance. */
  lemma SeedAscendingDistance()
    ensures forall i, j :: 0 <= i < j < |MockFacilities| ==>
      MockFacilities[i].distance < MockFacilities[j].distance
  {
  }

  /** The seed ids "1" to "5" are pairwise distinct. */
  lemma SeedIdsDistinct()
    ensures forall i, j :: 0 <= i < j < |MockFacilities| ==> MockFacilities[i].id != MockFacilities[j].id
  {
  }

  /** Every seed facility books for at least one day at a positive price. */
  lemma SeedBookingTerms()
    ensures forall i :: 0 <= i < |MockFacilities| ==>
      MockFacilities[i].minBookingDays >= 1 && MockFacilities[i].pricePerKgPerDay > 0.0
  {
  }

  // ---------------------------------------------------------------- translations

  const English: map<string, string> := map[
    "home" := "Home",
    "bookings" := "Bookings",
    "insights" := "Insights",
    "profile" := "Profile",
    "nearbyStorage" := "Nearby Storage",
    "viewAndBook" := "View & Book",
    "weatherAdvisory" := "Weather Advisory",
    "activeBookings" := "Active Bookings",
    "pastBookings" := "Past Bookings",
    "noBookings" := "No bookings yet",
    "bookNow" := "Book Now",
    "confirmBooking" := "Confirm Booking",
    "quantity" := "Quantity (kg)",
    "duration" := "Duration (days)",
    "totalCost" := "Total Cost",
    "available" := "Available",
    "capacity" := "Capacity",
    "pricePerDay" := "per kg/day",
    "verified" := "Verified",
    "certified" := "Certified",
    "aiRecommendation" := "AI Recommendation",
    "settings" := "Settings",
    "language" := "Language",
    "bookingSummary" := "Booking Summary",
    "totalBookings" := "Total Bookings",
    "activeStorage" := "Active Storage",
    "totalSaved" := "Amount Saved",
    "providerDashboard" := "Provider Dashboard",
    "distance" := "km away"
  ]

  const Hindi: map<string, string> := map[
    "home" := "होम",
    "bookings" := "बुकिंग",
    "insights" := "जानकारी",
    "profile" := "प्रोफाइल",
    "nearbyStorage" := "नजदीकी भंडारण",
    "viewAndBook" := "देखें और बुक करें",
    "weatherAdvisory" := "मौसम सलाह",
    "activeBookings" := "सक्रिय बुकिंग",
    "pastBookings" := "पिछली बुकिंग",
    "noBookings" := "अभी कोई बुकिंग नहीं",
    "bookNow" := "अभी बुक करें",
    "confirmBooking" := "बुकिंग की पुष्टि करें",
    "quantity" := "मात्रा (किग्रा)",
    "duration" := "अवधि (दिन)",
    "totalCost" := "कुल लागत",
    "available" := "उपलब्ध",
    "capacity" := "क्षमता",
    "pricePerDay" := "प्रति किग्रा/दिन",
    "verified" := "सत्यापित",
    "certified" := "प्रमाणित",
    "aiRecommendation" := "AI सिफारिश",
    "settings" := "सेटिंग्स",
    "language" := "भाषा",
    "bookingSummary" := "बुकिंग सारांश",
    "totalBookings" := "कुल बुकिंग",
    "activeStorage" := "सक्रिय भंडारण",
    "totalSaved" := "बचत राशि",
    "providerDashboard" := "प्रदाता डैशबोर्ड",
    "distance" := "किमी दूर"
  ]

  const Telugu: map<string, string> := map[
    "home" := "హోమ్",
    "bookings" := "బుకింగ్‌లు",
    "insights" := "అంతర్దృష్టులు",
    "profile" := "ప్రొఫైల్",
    "nearbyStorage" := "సమీపంలోని నిల్వ",
    "viewAndBook" := "చూడండి & బుక్ చేయండి",
    "weatherAdvisory" := "వాతావరణ సలహా",
    "activeBookings" := "యాక్టివ్ బుకింగ్‌లు",
    "pastBookings" := "గత బుకింగ్‌లు",
    "noBookings" := "ఇంకా బుకింగ్‌లు లేవు",
    "bookNow" := "ఇప్పుడు బుక్ చేయండి",
    "confirmBooking" := "బుకింగ్ నిర్ధారించండి",
    "quantity" := "పరిమాణం (కేజీ)",
    "duration" := "వ్యవధి (రోజులు)",
    "totalCost" := "మొత్తం ఖర్చు",
    "available" := "అందుబాటులో",
    "capacity" := "సామర్థ్యం",
    "pricePerDay" := "ప్రతి కేజీ/రోజు",
    "verified" := "ధృవీకరించబడింది",
    "certified" := "సర్టిఫైడ్",
    "aiRecommendation" := "AI సిఫారసు",
    "settings" := "సెట్టింగ్‌లు",
    "language" := "భాష",
    "bookingSummary" := "బుకింగ్ సారాంశం",
    "totalBookings" := "మొత్తం బుకింగ్‌లు",
    "activeStorage" := "యాక్టివ్ నిల్వ",
    "totalSaved" := "ఆదా చేసిన మొత్తం",
    "providerDashboard" := "ప్రొవైడర్ డాష్‌బోర్డ్",
    "distance" := "కి.మీ దూరంలో"
  ]

  /** The string tables by language code. */
  const Translations: map<string, map<string, string>> :=
    map["en" := English, "hi" := Hindi, "te" := Telugu]

  /** The Hindi and Telugu tables define exactly the keys of the English one, none empty. */
  lemma TranslationKeyCoverage()
    ensures Hindi.Keys == English.Keys && Telugu.Keys == English.Keys
    ensures forall k :: k in English ==> English[k] != "" && Hindi[k] != "" && Telugu[k] != ""
  {
    HindiKeys();
    TeluguKeys();
    NoEmptyEntries();
  }

  lemma HindiKeys()
    ensures Hindi.Keys == English.Keys
  {
  }

  lemma TeluguKeys()
    ensures Telugu.Keys == English.Keys
  {
  }

  lemma NoEmptyEntries()
    ensures forall k :: k in English ==> English[k] != ""
    ensures forall k :: k in Hindi ==> Hindi[k] != ""
    ensures forall k :: k in Telugu ==> Telugu[k] != ""
  {
    EnglishNonEmpty();
    HindiNonEmpty();
    TeluguNonEmpty();
  }

  lemma EnglishNonEmpty()
    ensures forall k :: k in English ==> English[k] != ""
  {
  }

  lemma HindiNonEmpty()
    ensures forall k :: k in Hindi ==> Hindi[k] != ""
  {
  }

  lemma TeluguNonEmpty()
    ensures forall k :: k in Telugu ==> Telugu[k] != ""
  {
  }
}
