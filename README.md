# Kisan Sangraha: storage capacity and bookings, in Dafny

Kisan Sangraha connects farmers with cold-storage providers. A farmer books
kilograms of space in a facility for some days. The server checks the
request against the facility's free capacity, reserves that capacity and
records the booking. A provider watches their facilities' utilisation and
revenue and handles incoming requests. This project models that
bookkeeping and the small rules around it:

- the price table, price resolution and cost formula, and the column defaults of the facility and booking tables (`Schema`);
- the client's capacity ledger and the translation lookup (`AppContext`);
- the booking and facility HTTP handlers over in-memory tables (`Routes`);
- the two provider screens (`ProviderScreen`, `ProviderDashboard`);
- the availability badge (`StorageCard`) and the days-remaining figure (`BookingCard`);
- the rule-based storage advice (`AiRecommendation`);
- the seed data (`SeedData`);
- registration and login (`Auth`).

Each source file is one module. Where the source changes state in place,
the model is a class:

- `AppContext.AppState` holds the client's facility and booking lists;
- `Routes.Server` holds the facility table, keyed by id, and the booking table;
- `ProviderScreen.ProviderScreenState` holds the request list;
- `ProviderDashboard.Dashboard` holds the form and editor state;
- `Auth.UserStore` holds the users, keyed by normalised username.

Their methods loop as the source's `map` and `filter` do. Each method is
proved equal to a recursive specification function, and the lemmas state
the properties of that function.

Some inputs come from outside the model and are passed in as parameters:

- the clock (`now`, in milliseconds) and freshly generated ids;
- whether a database insert succeeds and whether a context call throws;
- the password hash and the password comparison;
- the signed-in session.

`parseInt` and `parseFloat` are not modelled. Their results come in as
`Option` values, where `None` stands for `NaN`.

`Math.round(x / y * 100)` is modelled in integers (`Rounding`): the result
`r` satisfies `r - 1/2 <= 100x/y < r + 1/2`, as JavaScript rounds halves
upwards. Prices and costs are exact `real`s.

The server's handlers are modelled exactly as they behave:

- the server stores a new booking as "active" and reserves its capacity when the booking is created; there is no pending step;
- a booking's status can be set to any string, with no transition table and no capacity release on cancel;
- a booking quantity is never checked to be positive;
- `PUT /api/facilities/:id` writes price and availability with no bounds check;
- `GET /api/facilities` returns the table as stored, with no sorting or filtering.

Two call sites in the provider dashboard do not match the app context. The
model records them as written:

- `components/ProviderDashboard.tsx:16` takes `user`, `addFacility` and `updateBookingStatus` from the context, which `lib/context.tsx:14-25` does not provide. So `user?.id` is `undefined`, and the client facilities the context hands out have no `ownerId`, which reads as `undefined` too. As written, the owner filter therefore keeps every facility (`ProviderDashboard.NoUserOwnsEveryClientFacility`). On database rows, whose unset owner is `null`, the same filter keeps none. Pressing Accept or Reject calls the missing `updateBookingStatus` and throws a `TypeError`, so nothing changes; the pending list built from the context's bookings is empty anyway (`ProviderDashboard.ClientBookingsNeverPending`), so the buttons do not appear. `ProviderDashboard.DecisionLeavesPending` states what the decision would do once its status is written to the booking table;
- `savePrice` passes the new price to `updateFacilityCapacity`, which subtracts it from the available capacity (`Dashboard.SavePrice` returns that call). The capacity ledger is modelled on whole kilograms, so the effect of subtracting a fractional price is not modelled.

In the same vein, the dashboard's pending filter compares the status with
"pending", a status the client `Booking` type (`constants/data.ts:31`) does
not have.

## Model

| member | source | states |
|---|---|---|
| Rounding.RoundedPercent | components/StorageCard.tsx:32 | `None` exactly for a zero whole; otherwise `r` is the nearest integer to 100·part/whole, with halves rounded up |
| Rounding.RoundHalfUpCorrect | app/provider/index.tsx:29 | the integer formula `(200n + d) div 2d` meets the rounding bounds |
| Rounding.RoundedPercentInRange | app/provider/index.tsx:29 | for `0 <= part <= whole` the rounded percentage lies in [0, 100] |
| Rounding.RoundedPercentMonotone | components/ProviderDashboard.tsx:196-198 | a larger part never gives a smaller rounded percentage |
| Schema.CategoryConfigFor | shared/schema.ts:6-12 | the table has an entry exactly for the five categories |
| Schema.TableRowsWellFormed | shared/schema.ts:6-12 | every row has `min <= default <= max` |
| Schema.DefaultPriceForCategory | shared/schema.ts:18-20 | the category's default when listed, 1.0 otherwise; always positive |
| Schema.IsPriceInBounds | shared/schema.ts:22-30 | unknown category: in bounds with range 0.1 to 10; known: in bounds iff `min <= price <= max`, reporting the table's min and max |
| Schema.DefaultPriceInBounds | shared/schema.ts:18-30 | every category's default price passes the bounds check |
| Schema.ResolveFacilityPrice | shared/schema.ts:36-41 | the facility's price when defined and positive, else the category default; always positive |
| Schema.TotalCost | shared/schema.ts:46-48 | the booking cost: quantity times price per kg per day times days; its properties are the two lemmas below |
| Schema.TotalCostZero | shared/schema.ts:46-48 | the cost is zero when any factor is zero |
| Schema.TotalCostMonotone | shared/schema.ts:46-48 | the cost is non-negative and grows with each non-negative factor |
| Schema.DairyScenario | shared/schema.ts:8 | Dairy resolves to 2.0 without a facility price and to 3.5 with one; 100 kg for 5 days costs 1000 |
| Schema.InsertedBooking | shared/schema.ts:78-93 | an inserted booking takes the given values; status defaults to "active", category to "Fruits & Vegetables", start to now |
| Schema.InsertedFacility | shared/schema.ts:57-76 | an inserted facility takes the given id, owner, name, location, storage types, price, capacities, phone and hours; minimum booking days defaults to 1, distance and rating to 0, lists to empty, not verified |
| SeedData.ParseStatus | constants/data.ts:31 | a client booking status exists exactly for "active", "completed" and "cancelled", and names it |
| SeedData.StatusRoundTrip | constants/data.ts:31 | parsing a status's name gives back the status |
| SeedData.SeedCapacityInBounds | constants/data.ts:53-144 | every seed facility has `0 <= available <= total` |
| SeedData.SeedAscendingDistance | constants/data.ts:53-144 | seed facilities are listed by strictly increasing distance |
| SeedData.SeedIdsDistinct | constants/data.ts:53-144 | seed facility ids are distinct |
| SeedData.SeedBookingTerms | constants/data.ts:53-144 | every seed facility has at least one minimum booking day and a positive price |
| SeedData.TranslationKeyCoverage | constants/data.ts:202-296 | Hindi and Telugu define exactly the English keys, and no entry is empty |
| AppContext.UpdateWhere | lib/context.tsx:83-89 | length kept; each element with the id is rewritten, every other element is unchanged |
| AppContext.WithCapacityBooked | lib/context.tsx:82-90 | the facility list after `updateFacilityCapacity`: each facility with the id has `Math.max(0, available - q)` available; its effect and invariant are the lemmas below |
| AppContext.WithAvailability | lib/context.tsx:92-100 | the facility list after `setFacilityAvailability`: each facility with the id has the value clamped to [0, total] |
| AppContext.CapacityBookedEffect | lib/context.tsx:82-90 | the matched facility's availability becomes `max(0, available - q)`; it is never negative, and never rises when `q >= 0`; others, length and order unchanged |
| AppContext.CapacityBookedKeepsLedger | lib/context.tsx:82-90 | with `q >= 0` the ledger invariant `0 <= available <= total` is kept |
| AppContext.NegativeBookingOverfills | lib/context.tsx:86 | a negative quantity pushes a full facility's availability above its total |
| AppContext.AvailabilityEffect | lib/context.tsx:92-100 | the matched facility's availability becomes `min(total, max(0, v))`; others, length and order unchanged |
| AppContext.AvailabilityKeepsLedger | lib/context.tsx:92-100 | setting availability keeps the ledger invariant |
| AppContext.AvailabilityIdempotent | lib/context.tsx:96 | setting the same availability twice equals setting it once |
| AppContext.AppState.constructor | lib/context.tsx:36-39 | starts in English as a farmer, with no bookings and the seed facilities |
| AppContext.AppState.AddBooking | lib/context.tsx:74-80 | the new booking is prepended; earlier bookings follow in order |
| AppContext.AppState.UpdateFacilityCapacity | lib/context.tsx:82-90 | the loop leaves the facility list equal to `WithCapacityBooked` of the old list |
| AppContext.AppState.SetFacilityAvailability | lib/context.tsx:92-100 | the loop leaves the facility list equal to `WithAvailability` of the old list |
| AppContext.Translate | lib/context.tsx:130-133 | the result is the key itself or one of the translation values |
| AppContext.TranslateSupportedKey | lib/context.tsx:131 | for a supported language and a known key, the language's own entry |
| AppContext.TranslateUnknownKey | lib/context.tsx:131 | an unknown key is returned as it is |
| AppContext.TranslateUnknownLanguage | lib/context.tsx:131 | an unsupported language falls back to English |
| Routes.QuantityAdmitted | server/routes.ts:60-62 | the capacity guard: a quantity is refused only when it exceeds the available capacity |
| Routes.Reserved | server/routes.ts:64-67 | the facility row after the reservation: available capacity less the quantity, nothing else changed |
| Routes.ReservedKeepsBounds | server/routes.ts:60-67 | an admitted, non-negative quantity is subtracted exactly and keeps `0 <= available <= total` |
| Routes.NegativeQuantityOverfills | server/routes.ts:60-67 | a quantity of -1 is admitted and leaves a full facility over its total |
| Routes.NewBooking | server/routes.ts:69-86 | the new booking belongs to the caller, is "active", starts now and ends `duration` days later, and carries the request's facility, name, location, storage type and figures |
| Routes.Where | server/routes.ts:111 | keeps exactly the matching bookings, with their multiplicities |
| Routes.InsertByStart | server/routes.ts:100 | inserting into a newest-first list keeps it sorted and adds exactly that booking |
| Routes.SortByStartDesc | server/routes.ts:100 | the result is newest first and a permutation of the input |
| Routes.WhereKeepsSorted | server/routes.ts:110-111 | filtering a newest-first list keeps it newest first |
| Routes.WithStatus | server/routes.ts:127 | only the status of the bookings with that id changes; length and order kept |
| Routes.FirstWithId | server/routes.ts:127-128 | found exactly when some booking has the id, and then it is one of them |
| Routes.StatusUpdateUnchecked | server/routes.ts:126-127 | any status is accepted, even "cancelled" back to "active" |
| Routes.StatusUpdateEffect | server/routes.ts:120-128 | the status update changes only the status of the named booking |
| Routes.FacilityUpdateUnbounded | server/routes.ts:36-40 | the row an update writes can hold an availability above the total or below zero, breaking the invariant, and a zero or negative price |
| Routes.Updated | server/routes.ts:36-40 | the row a facility update writes: each given field is set as given, a missing one kept, every other column untouched |
| Routes.Server.constructor | shared/schema.ts:57-93 | the server starts with the given tables, each facility under its own id |
| Routes.Server.GetFacility | server/routes.ts:19-27 | 200 with the row when the id exists, 404 otherwise |
| Routes.Server.UpdateFacility | server/routes.ts:29-45 | 403 unless a provider; a body with neither field fails with 500; an unknown id answers 200 with no row; otherwise the given fields are written unchecked to that facility, and only to it |
| Routes.Server.CreateBooking | server/routes.ts:48-92 | 401, 404 and 400 change nothing; otherwise the facility loses exactly `quantity`, and a successful insert appends the active booking with 201; bounds are kept for `quantity >= 0` |
| Routes.OwnedFacilityIds | server/routes.ts:103-104 | the ids of the facilities whose owner id is the user's |
| Routes.Server.ListBookings | server/routes.ts:94-118 | 401 without a session; a farmer gets exactly their own bookings, newest first; anyone else gets exactly the bookings of the facilities they own, newest first, or nothing when they own none |
| Routes.Server.UpdateBookingStatus | server/routes.ts:120-132 | 403 unless a provider; otherwise the status is rewritten and the updated booking returned |
| ProviderScreen.AfterAccept | app/provider/index.tsx:151-153 | the matching request becomes accepted; every other request, the length and the order are unchanged |
| ProviderScreen.AfterDecline | app/provider/index.tsx:162 | exactly the requests with other ids remain, and the list never grows |
| ProviderScreen.DeclineAbsent | app/provider/index.tsx:162 | declining an absent id changes nothing |
| ProviderScreen.DeclineCounts | app/provider/index.tsx:162 | every request that stays occurs as often as before; every request with the id is gone |
| ProviderScreen.DeclineAppend | app/provider/index.tsx:162 | declining distributes over concatenation, so the requests that stay keep their relative order |
| ProviderScreen.TotalRequested | app/provider/index.tsx:28 | the sum of the quantities of the pending requests; its behaviour under accept and decline is the lemmas below |
| ProviderScreen.PendingCount | app/provider/index.tsx:131 | the number of pending requests, never more than the number of requests |
| ProviderScreen.AcceptLikeDecline | app/provider/index.tsx:28 | accepting and declining the same id leave the same pending total and count |
| ProviderScreen.DeclineOne | app/provider/index.tsx:28 | with distinct ids, declining a request lowers the pending total by its quantity and the count by one if it was pending |
| ProviderScreen.AcceptOne | app/provider/index.tsx:131 | with distinct ids, accepting a pending request lowers the pending total by its quantity and the pending count by one |
| ProviderScreen.UsedPct | app/provider/index.tsx:29 | the rounded used share of the first facility, 0 without a facility, `None` for a zero total |
| ProviderScreen.UsedPctInRange | app/provider/index.tsx:29 | within the invariant and a positive total, the used percentage lies in [0, 100] |
| ProviderScreen.EstimatedMonthlyRevenue | app/provider/index.tsx:213 | price times booked kilograms times 30 days |
| ProviderScreen.EstimatedRevenueBounds | app/provider/index.tsx:213 | the monthly estimate is non-negative, and zero when nothing is booked |
| ProviderScreen.ProviderScreenState.constructor | app/provider/index.tsx:24-25 | the screen starts with the three sample requests and the editor closed |
| ProviderScreen.ProviderScreenState.Accept | app/provider/index.tsx:151-153 | the loop leaves the request list equal to `AfterAccept` of the old list |
| ProviderScreen.ProviderScreenState.Decline | app/provider/index.tsx:162 | the loop leaves the request list equal to `AfterDecline` of the old list |
| ProviderScreen.ProviderScreenState.SaveCapacity | app/provider/index.tsx:97-104 | the first facility's availability is set only when `0 < newCap <= total`; an unparsable input counts as 0; the editor closes |
| ProviderScreen.CapacityInput | app/provider/index.tsx:99 | `parseInt(text) || 0`: the parsed value, or 0 for `NaN` |
| ProviderScreen.CapacitySaveAllowed | app/provider/index.tsx:100 | the save guard `0 < newCap <= totalCapacity` |
| ProviderScreen.SavedCapacityExact | app/provider/index.tsx:99-102 | a save that passes the guard stores exactly the typed value and keeps the invariant |
| ProviderScreen.UnparsableCapacityIgnored | app/provider/index.tsx:99-100 | an unparsable input or 0 never passes the guard |
| ProviderDashboard.MyFacilities | components/ProviderDashboard.tsx:20 | exactly the facilities that pass the owner test, each as often as in the input |
| ProviderDashboard.OwnedBy | components/ProviderDashboard.tsx:20 | `f.ownerId === user?.id` on `undefined`, `null` or string ids |
| ProviderDashboard.AllOwnedKept | components/ProviderDashboard.tsx:20 | when every facility passes the owner test the filter returns the list unchanged |
| ProviderDashboard.NoneOwnedDropped | components/ProviderDashboard.tsx:20 | when no facility passes it the filter returns nothing |
| ProviderDashboard.NoUserOwnsEveryClientFacility | components/ProviderDashboard.tsx:16-20 | as written, with no user the context's client facilities, which have no owner, are all "mine", in order |
| ProviderDashboard.SignedInUserOwnsNoClientFacility | components/ProviderDashboard.tsx:16-20 | a signed-in user owns none of the client facilities |
| ProviderDashboard.NoUserOwnsNoDatabaseFacility | components/ProviderDashboard.tsx:20 | on database rows, whose unset owner is `null`, a missing user owns nothing |
| ProviderDashboard.DatabaseOwnership | components/ProviderDashboard.tsx:20 | on database rows, a signed-in user owns exactly the rows carrying their id |
| ProviderDashboard.MyFacilityIds | components/ProviderDashboard.tsx:24 | exactly the ids of my facilities |
| ProviderDashboard.PendingBookings | components/ProviderDashboard.tsx:25 | exactly the bookings with a non-empty facility id among mine and status "pending", each as often as in the input |
| ProviderDashboard.DecisionLeavesPending | components/ProviderDashboard.tsx:326-333 | if the status a decision asks for reaches a status write such as `PUT /api/bookings/:id/status`, the booking leaves the pending list and every other pending booking stays |
| ProviderDashboard.ClientBookingsNeverPending | components/ProviderDashboard.tsx:25 | on bookings whose status is one of the client's three statuses, the pending list is empty |
| ProviderDashboard.StatusChangeLeavesPending | components/ProviderDashboard.tsx:326-333 | writing any status other than "pending" takes every row with that id off the pending list |
| ProviderDashboard.StatusChangeKeepsOtherPending | components/ProviderDashboard.tsx:326-333 | a status write to one id keeps every pending row with another id on the pending list |
| ProviderDashboard.TotalRevenue | components/ProviderDashboard.tsx:91-93 | the sum of the total costs of the bookings at my facilities, whatever their status |
| ProviderDashboard.RevenueAppend | components/ProviderDashboard.tsx:91-93 | the revenue of two lists together is the sum of their revenues |
| ProviderDashboard.RevenueIgnoresStatus | components/ProviderDashboard.tsx:91-93 | a status change leaves the revenue unchanged, as it counts bookings whatever their status |
| ProviderDashboard.RevenueOnlyMine | components/ProviderDashboard.tsx:91-93 | bookings at other facilities add nothing |
| ProviderDashboard.Utilization | components/ProviderDashboard.tsx:196-198 | the rounded used share of a facility, `None` for a zero total |
| ProviderDashboard.UtilizationBounds | components/ProviderDashboard.tsx:196-198 | utilisation lies in [0, 100] within the invariant and never falls when more is booked |
| ProviderDashboard.RequiredFieldsFilled | components/ProviderDashboard.tsx:40 | name, location, total capacity and price are all non-empty |
| ProviderDashboard.DraftOf | components/ProviderDashboard.tsx:45-53 | the draft starts with available capacity equal to total capacity and carries the form's fields |
| ProviderDashboard.DecisionCall | components/ProviderDashboard.tsx:324-335 | Reject sends "cancelled" and Accept sends "completed" |
| ProviderDashboard.Dashboard.constructor | components/ProviderDashboard.tsx:28-37 | the form starts empty and closed, no editor open |
| ProviderDashboard.Dashboard.HandleAddFacility | components/ProviderDashboard.tsx:39-62 | no call unless name, location, capacity and price are filled; a successful add closes and resets the form, a failed one keeps it |
| ProviderDashboard.Dashboard.SavePrice | components/ProviderDashboard.tsx:70-78 | a call only for a parsed price above 0, and that call is `updateFacilityCapacity`; the editor closes |
| ProviderDashboard.Dashboard.SaveCapacity | components/ProviderDashboard.tsx:80-88 | a call to `setFacilityAvailability` only for a parsed capacity of 0 or more; the editor closes |
| StorageCard.LevelOf | components/StorageCard.tsx:16-21 | the availability bucket: High above half free, Medium above a fifth, Low otherwise; a zero total is an infinite or `NaN` share |
| StorageCard.AvailabilityColor | components/StorageCard.tsx:9-14 | the badge colour, by the same thresholds |
| StorageCard.AvailabilityLabel | components/StorageCard.tsx:16-21 | the badge label of the bucket |
| StorageCard.LevelThresholds | components/StorageCard.tsx:16-21 | for a positive total: "High" iff more than half is free, "Medium" iff more than a fifth but at most half, "Low" iff at most a fifth |
| StorageCard.ColourMatchesLabel | components/StorageCard.tsx:9-21 | each colour goes with exactly one label |
| StorageCard.LevelMonotone | components/StorageCard.tsx:9-21 | more free capacity never gives a lower bucket |
| StorageCard.PercentFree | components/StorageCard.tsx:32 | the rounded free share shown on the card, `None` for a zero total |
| StorageCard.PercentAgreesWithLevel | components/StorageCard.tsx:32 | the percentage free lies in [0, 100]; "High" shows at least 50 and "Low" at most 20 |
| BookingCard.CeilDiv | components/BookingCard.tsx:19 | the ceiling of a quotient: `(r - 1)d < x <= rd` |
| BookingCard.DaysRemaining | components/BookingCard.tsx:19 | the whole days left until the end, counted up, and never negative |
| BookingCard.DaysRemainingSpec | components/BookingCard.tsx:19 | never negative; 0 once the end has passed; otherwise the fewest whole days covering the time left |
| BookingCard.DaysRemainingWholeDays | components/BookingCard.tsx:19 | exactly k days left gives k; more than k, up to k + 1, gives k + 1 |
| BookingCard.StatusConfig | components/BookingCard.tsx:7-11 | the colour, background, label and icon of each status badge |
| BookingCard.StatusConfigByName | components/BookingCard.tsx:7-11 | a badge exists exactly for "active", "completed" and "cancelled" |
| BookingCard.StatusLabelsDistinct | components/BookingCard.tsx:7-11 | different statuses show different labels |
| BookingCard.Remaining | components/BookingCard.tsx:50-57 | the cell appears only for active bookings; it shows the days remaining, in the danger colour iff at most 2 |
| BookingCard.EndingSoonIsDanger | components/BookingCard.tsx:53 | an active booking ending within two days shows the danger colour |
| AiRecommendation.CropName | components/AiRecommendationCard.tsx:30 | never empty; a non-empty crop name is kept |
| AiRecommendation.RuleBasedRecommendation | components/AiRecommendationCard.tsx:28-42 | the first matching rule: critical heat above 35, high temperature above 30, high humidity above 75, moderate above 24, good otherwise |
| AiRecommendation.RecommendationMatchesConditions | components/AiRecommendationCard.tsx:28-42 | each advice is given exactly under its temperature and humidity condition |
| AiRecommendation.ConditionsPartition | components/AiRecommendationCard.tsx:28-42 | the five conditions cover every reading and exactly one holds |
| AiRecommendation.HeatIgnoresHumidity | components/AiRecommendationCard.tsx:29-31 | above 35°C the advice is critical heat whatever the humidity |
| AiRecommendation.CardFallback | components/AiRecommendationCard.tsx:44 | the advice for the card's props, with the defaults 30, 55 and "produce" for missing ones |
| AiRecommendation.DefaultsGiveModerate | components/AiRecommendationCard.tsx:44 | with no props (30°C, 55%, "produce") the advice is moderate conditions |
| Auth.TrimStart | server/auth.ts:99 | the result is no longer than the input and does not start with white space |
| Auth.TrimStartDrops | server/auth.ts:99 | the result is a suffix of the input and every character dropped before it is white space |
| Auth.TrimEnd | server/auth.ts:99 | the result is no longer than the input, does not end with white space and keeps the first character |
| Auth.TrimEndDrops | server/auth.ts:99 | the result is a prefix of the input and every character dropped after it is white space |
| Auth.Trim | server/auth.ts:99 | the result neither starts nor ends with white space |
| Auth.TrimIsSlice | server/auth.ts:99 | the trimmed string is the contiguous slice of the input that starts right after the leading white space |
| Auth.TrimDropsOnlyWhitespace | server/auth.ts:99 | every character before and after that slice is white space |
| Auth.TrimFixesTrimmed | server/auth.ts:108 | trimming a trimmed string changes nothing |
| Auth.Lower | server/auth.ts:108 | lower-casing keeps the length |
| Auth.LowerPointwise | server/auth.ts:108 | each character of the result is the lower-case form of the input character at the same position |
| Auth.LowerKeepsShape | server/auth.ts:108 | lower-casing keeps a string trimmed and is idempotent |
| Auth.Normalize | server/auth.ts:108 | the normalised username neither starts nor ends with white space |
| Auth.NormalizeHasNoUpperCase | server/auth.ts:108 | the normalised username has no upper-case ASCII letter |
| Auth.NormalizeIdempotent | server/auth.ts:143-145 | normalising twice, as login does, equals normalising once |
| Auth.UsernameAccepted | server/auth.ts:99-101 | the username is a string whose trimmed length is at least 3 |
| Auth.PasswordAccepted | server/auth.ts:102-104 | the password is a string of at least 6 characters |
| Auth.NormalizeRole | server/auth.ts:106-107 | the role is "farmer" or "provider", the given one when valid |
| Auth.PublicView | server/auth.ts:128-132 | the public view carries the id, username and role only |
| Auth.StoreValidAdd | server/auth.ts:111-122 | storing a user under the normalised form of the submitted name keeps every key equal to its user's name and to its own normal form |
| Auth.Registered | server/auth.ts:94-138 | the store and reply of a registration; its outcome is stated by the lemma below |
| Auth.RegisteredOutcome | server/auth.ts:94-138 | each refusal is a 400 that leaves the store unchanged, checked in the order username, password, uniqueness; an acceptance adds exactly one user under a previously free normalised name, with the normalised role, and answers 201 with its public view |
| Auth.RegisteredKeepsStore | server/auth.ts:108-122 | registration keeps the store invariant, so normalised usernames stay unique |
| Auth.UserStore.constructor | shared/schema.ts:50-55 | the store starts empty |
| Auth.UserStore.Register | server/auth.ts:94-138 | the new store and the reply are those of the registration function above, so its outcome lemma applies; the store invariant is kept |
| Auth.Login | server/auth.ts:64-79 | 200 with the public view exactly when the normalised username exists and the password matches; otherwise 401, with the no-account message exactly when the name is unknown and the wrong-password message exactly when it is known |
| Auth.LoginIgnoresSpelling | server/auth.ts:143-145 | spellings with the same normalised form log into the same account |
| Auth.RegisteredUserCanLogIn | server/auth.ts:108-122 | a stored user is found under the spelling it registered with |
| Auth.Me | server/auth.ts:177-183 | 401 "Not authenticated" exactly when there is no user, else 200 with the user's public view |

## Left out

- Rendering, styles, navigation, haptics and alerts: presentation only.
- The advice text, `toFixed` and other number-to-text formatting: the advice is modelled as which message is chosen and the figures it quotes.
- `parseInt` and `parseFloat`: their results are inputs, with `None` for `NaN`.
- Floating point: prices, costs and shares are exact reals and percentages exact integers, so neither IEEE rounding nor `NaN` and infinity are modelled beyond the zero-total cases the functions handle.
- AsyncStorage loading and saving, the database driver and the storage layer: the tables are in-memory maps and sequences.
- `GET /api/facilities` returns the table as stored; there is nothing to prove about it beyond `GetFacility`.
- `setLanguage`, `setRole` and the fixed user profile in the app context: plain assignments.
- `AppContext.AppState.T`: the translation function the context hands out is `Translate` on the current language; it carries no contract of its own.
- Sessions, `req.login`, logout and the session store: the signed-in user is a parameter.
- Password hashing and comparison (scrypt, `timingSafeEqual`): the hash is a parameter and the comparison a predicate.
- Login without a username or password: the login strategy's own handling of missing fields is not part of this model.
- The recommendation fetch, its 8-second timeout and its state updates: network and timers.
- The server's 500 replies for database errors, except the failed booking insert after the capacity reduction.
- Booking quantities: the quantity is an integer taken from the request body; a missing or fractional quantity, which JavaScript carries as `undefined`, `NaN` or a fraction and which the database then refuses with a 500, is not modelled.
- Concurrency: the read-then-write in booking creation is modelled as one sequential step.
- Dates: ISO strings and `Date` are modelled as milliseconds, so calendar formatting is not modelled.
- Object-key lookups that can reach JavaScript prototype properties: only own keys are modelled.
- Auth.LowerChar: only ASCII letters are lower-cased; other Unicode case mappings are not modelled.
- Auth.PasswordAccepted: length counts Unicode scalar values, not UTF-16 code units as JavaScript's `length` does.
- Auth.UsernameAccepted: the trimmed length counts Unicode scalar values, not UTF-16 code units as JavaScript's `length` does, so a name such as "😀a" (three code units) that the server accepts is refused here; a request body field is absent or falsy, a string, or another truthy value, and JavaScript's other value kinds are not distinguished.
- The dashboard's new-facility storage type and contact phone are carried through unchanged and not checked.
