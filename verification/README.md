# routeX ride hailing, modelled in Dafny

routeX is a ride-hailing system. It has a ride service, a user and authentication service, a notification service, an API gateway, a deploy webhook and a React client. This project models the logic of those parts as pure Dafny functions over immutable data.

- **Handlers.** Every HTTP or socket handler becomes a function from the stored state, the request and the current time to the new state and the reply.
- **State.** The ride store and the user store are sequences of records, kept in the order the database returns them. The socket hub is two association lists plus a map from room names to sets of socket ids.
- **Request bodies.** They are JSON values. The JavaScript readings the code relies on are spelled out once, in `Json`: truthiness, nullish tests, template interpolation, `||` defaults and `String(...)`.
- **Outside code as parameters.** bcrypt, SHA-256, HMAC-SHA256, JWT signing and verification, the clock, route distances, the geospatial query, Firebase messaging, reverse geocoding, place search and the deployment itself.

The modules follow the repository's structure:

- **Shared.** `Wrappers`, `Text`, `Seqs`, `Json`, `Router` (ordered express route tables), `Validation` (the express-validator chains) and `Vehicles`.
- **Ride service.** `RideModel`, `Pricing`, `RideRoutes`, `RideController`, `RideQueries` and `SocketHub`.
- **User service and gateway.** `AuthMiddleware`, `UserModel`, `AuthController`, `AuthRoutes`, `UserController` and `UserRoutes`.
- **Notification service.** `PushHandler`, `SmsHandler`, `NotificationController` and `NotificationRoutes`.
- **Deploy webhook.** `Webhook`.
- **Client pages.** `DriverDashboard`, `ActiveRide`, `BookRide`, `Forms` (registration, reset and login), `RideSummary` (what the history and dashboard pages compute from a ride list), `RideHistory` and `RiderDashboard`.

## Model

| member | source | states |
|---|---|---|
| RideModel.ParseStatus | services/ride-service/src/models/Ride.js:14-18 | A status spelling reads to the status it names; a text no status is spelled as reads to none. |
| RideModel.ParseStatusName | services/ride-service/src/models/Ride.js:14-18 | Every status reads back from its own spelling, so the spelling is one-to-one. |
| RideModel.SchemaEnumOmitsArrived | services/ride-service/src/models/Ride.js:16 | The schema's status enum admits every status except `arrived`. |
| RideModel.ParsePaymentMethod | services/ride-service/src/models/Ride.js:84-88 | Exactly `cash`, `card` and `wallet` are payment methods, each reading back to its own spelling. |
| RideModel.NewRide | services/ride-service/src/models/Ride.js:9-128 | A new ride carries the given id, rider, class, pickup, dropoff, distance, duration, fare and payment method. It is `requested`, has no driver, pending payment, no ratings, no cancellation and only `requestedAt` set, and satisfies the schema's enums and score ranges. |
| Vehicles.Parse | services/ride-service/src/models/Ride.js:19-23 | Exactly the four class names are vehicle types, each reading back to its own name. |
| Vehicles.ParseName | services/ride-service/src/models/Ride.js:21 | Every class reads back from its own name. |
| Pricing.Round | services/ride-service/src/services/pricingService.js:31-33 | The rounded amount is within one half of the value, halves rounding up. |
| Pricing.PerKm | services/ride-service/src/services/pricingService.js:3-9 | The rate per kilometre is 10 for economy, 15 for standard, 25 for premium and 20 for xl, and any other name pays the standard 15. |
| Pricing.MinimumFare | services/ride-service/src/services/pricingService.js:10-15 | The minimum fare is 50 for economy, 80 for standard, 150 for premium and 120 for xl, and any other name gets the standard 80. |
| Pricing.SurgeReadsLastWrite | services/ride-service/src/services/pricingService.js:39-45 | The surge read back is the last one set, and 1.0 before any set. |
| Pricing.RawTotal | services/ride-service/src/services/pricingService.js:22-28 | The unrounded total is the larger of the class minimum and (base + distance × rate) × surge: at least each, and equal to one of them. |
| Pricing.CalculateFare | services/ride-service/src/services/pricingService.js:19-37 | The quote has base fare 50, currency INR and the current surge; its distance fare is distance × rate rounded; its total is the unrounded total rounded, so never below the class minimum. |
| Pricing.QuoteDependsOnSurgeOnly | services/ride-service/src/services/pricingService.js:19-37 | Two pricing states with the same surge give the same quote. |
| Pricing.UnknownClassPricedAsStandard | services/ride-service/src/services/pricingService.js:21-27 | A name outside the four classes is quoted exactly as `standard`. |
| Pricing.TotalUsesUnroundedDistanceFare | services/ride-service/src/services/pricingService.js:22-33 | The total uses the unrounded distance fare: at surge 2, an economy ride of 0.25 km quotes a distance fare of 3 and a total of 105, not 106. |
| Pricing.MinimumBindsBelow | services/ride-service/src/services/pricingService.js:22-28 | When the surged fare is at most the class minimum the total is exactly the minimum; when it is at least the minimum the total is the surged fare rounded. |
| Pricing.UnitSurgeTotalIsSumOfParts | services/ride-service/src/services/pricingService.js:22-33 | At surge 1 the quoted parts add up: the total is base fare plus distance fare, or the class minimum when that is larger. |
| Pricing.TotalMonotoneInDistance | services/ride-service/src/services/pricingService.js:19-33 | With a positive surge, a longer ride never has a smaller total. |
| RideRoutes.Handle | services/ride-service/src/routes/ride.js:8-14 | A request runs its endpoint only when the endpoint's validator chain passes; a refused chain reports at least one error. |
| RideRoutes.LiteralPathsShadowRideById | services/ride-service/src/routes/ride.js:40-49 | A one-segment GET reaches the ride-by-id handler exactly when the segment is non-empty and is not `active`, `history` or `driver-stats`. |
| RideRoutes.AcceptAndCancelUnvalidated | services/ride-service/src/routes/ride.js:26-58 | Every body reaches the accept and cancel handlers. |
| RideRoutes.RequestGate | services/ride-service/src/routes/ride.js:17-23 | A ride request passes exactly when the vehicle type is one of the four classes, both addresses are non-empty and both coordinates are objects. |
| RideRoutes.RequestedClassIsKnown | services/ride-service/src/routes/ride.js:18 | A string vehicle type that passes names one of the four classes. |
| RideRoutes.StatusGate | services/ride-service/src/routes/ride.js:29-31 | A string status passes exactly when it is one of the five writable statuses, so `requested` and `accepted` can never be written. |
| RideRoutes.StatusRouteRejectsRequestedAndAccepted | services/ride-service/src/routes/ride.js:30 | A body whose status is `requested` or `accepted` is refused. |
| RideRoutes.RateGate | services/ride-service/src/routes/ride.js:52-55 | A rating passes exactly when it reads as an integer from 1 to 5 and the role, if present, is `rider` or `driver`. |
| RideRoutes.EstimateGate | services/ride-service/src/routes/ride.js:34-37 | An estimate request passes exactly when pickup and dropoff are both objects. |
| RideController.Find | services/ride-service/src/controllers/rideController.js:295 | Once the id has cast, the lookup finds the first ride with the id, and reports none only when no ride has it. |
| RideController.BilledDistance | services/ride-service/src/controllers/rideController.js:88 | The billed distance is at least the routed distance and never below 0.1 km. |
| RideController.RequestRide | services/ride-service/src/controllers/rideController.js:61-159 | A missing rider header or one that is not an ObjectId fails the save with 500 and writes nothing. Otherwise a request with a valid or absent payment method appends one `requested`, unassigned, schema-valid ride for that rider with the requested class, pickup and dropoff, the billed distance, the route's duration and the quoted fare, at least the class minimum. The payment method is the one given, or cash when none is. The ride is broadcast to the available drivers and the rider is notified. A payment method outside the enum fails with 500 and writes nothing. |
| RideController.GeoPoint | services/ride-service/src/controllers/rideController.js:74-78 | A coordinates object yields a stored point exactly when both its longitude and latitude, read by name or else by index, are numbers; the point has two entries. |
| RideController.GeoPointShapesAgree | services/ride-service/src/controllers/rideController.js:74-111 | `{lat, lng}` and the array-like `{0: lng, 1: lat}` give the same stored point, longitude first. |
| RideController.GeoPointPrefersNamedAxes | services/ride-service/src/controllers/rideController.js:74-78 | A named axis wins over an indexed one, and a null named axis falls back to the indexed one. |
| RideController.RequestKeepsIdsUnique | services/ride-service/src/controllers/rideController.js:96-119 | A request with a fresh id keeps ride ids unique. |
| RideController.AcceptRide | services/ride-service/src/controllers/rideController.js:162-211 | A ride id that is not 24 hexadecimal digits, or a driver header that is present but not an ObjectId, fails the cast with a 500. Otherwise the accept succeeds exactly when the ride exists and is still `requested`. It then sets the driver from the header, the `accepted` status and the accept time, changes no other ride and tells the rider. Any other case is a 404 that changes nothing. |
| RideController.MalformedUserHeaderRefused | services/ride-service/src/controllers/rideController.js:63-164 | A request without a rider header, or with one that is not an ObjectId, and an accept whose driver header is not an ObjectId, are answered 500 and write nothing. |
| RideController.SecondAcceptFails | services/ride-service/src/controllers/rideController.js:167-179 | After one driver accepts a ride, every later accept fails and changes nothing: a 404, or a 500 when its driver header does not cast. |
| Text.OrElse | services/ride-service/src/controllers/rideController.js:238 | JavaScript's `\|\|` on a string that may be missing: a missing or empty value gives way to the fallback (`rider` for who cancelled), anything else is kept as given. |
| RideController.ApplyStatus | services/ride-service/src/controllers/rideController.js:222-241 | The new status is set; exactly one timeline stamp changes for arriving, in progress, completed and cancelled; completion marks the payment completed; cancellation records who (`rider` when no truthy value is given) and, when a reason is given, why, keeping the stored reason otherwise; every other field of the ride, and the other stamps, are kept. |
| RideController.StatusCancelKeepsStoredReason | services/ride-service/src/controllers/rideController.js:236-239 | After a cancel without a reason, a status update to `cancelled` without a reason still shows "No reason provided". |
| RideController.UpdateRideStatus | services/ride-service/src/controllers/rideController.js:214-290 | An id that fails the ObjectId cast is a 500; otherwise the update succeeds exactly when the ride exists, replaces only that ride, emits to the ride's room and notifies the rider with `ride_<status>`; an unknown id is a 404; neither failure changes anything. |
| RideController.StatusUpdateOverwritesFinishedRide | services/ride-service/src/controllers/rideController.js:245-249 | For a well-formed id, a completed or cancelled ride still takes any new status. |
| RideController.ArrivedLeavesSchema | services/ride-service/src/controllers/rideController.js:245-249 | For a well-formed id, after `arrived` is written the ride no longer satisfies the schema's status enum. |
| RideController.CancelRide | services/ride-service/src/controllers/rideController.js:396-480 | An id that fails the ObjectId cast is a 500, an unknown ride a 404 and a finished one a 400, all changing nothing; any other ride becomes `cancelled` with the cancel time, `rider` or `driver` by comparison with the rider id, and the reason or "No reason provided"; the ride's room always hears of it. |
| RideController.CancelNotifiesOtherParty | services/ride-service/src/controllers/rideController.js:435-467 | When the rider cancels, the assigned driver is notified, or nobody if there is none; when anyone else cancels, the rider is notified. |
| RideController.CancelIsFinal | services/ride-service/src/controllers/rideController.js:408-411 | A cancelled ride cannot be cancelled again. |
| RideController.RateRide | services/ride-service/src/controllers/rideController.js:351-393 | An id that fails the ObjectId cast is a 500 and an unknown ride a 404, both changing nothing; otherwise a rider's score sets the driver rating and rider feedback, anyone else's sets the rider rating and driver feedback, and the other pair is unchanged. |
| RideController.ArrayRoleRatesRider | services/ride-service/src/controllers/rideController.js:359-363 | An array role `["rider"]` rates the rider, while an absent or empty role rates the driver. |
| RideController.GetRideById | services/ride-service/src/controllers/rideController.js:293-306 | An id that fails the ObjectId cast is a 500 "Failed to get ride"; otherwise the reply is a stored ride with the requested id when one exists, and 404 when none does; nothing changes. |
| RideController.WritesKeepIdsUnique | services/ride-service/src/controllers/rideController.js:167-425 | Accept, status update, cancel and rate keep ride ids unique. |
| RideController.FareEstimate | services/ride-service/src/controllers/rideController.js:483-531 | Each coordinate is read from the body or, failing that, from the query string; if any is missing or falsy in both the reply is 400 "Invalid coordinates"; otherwise there is one quote per class at the billed distance, the requested class is selected exactly when it is one of the four, and the reported distance is the billed one to the nearest hundredth. |
| RideController.Hundredths | services/ride-service/src/controllers/rideController.js:511 | The result is a whole number of hundredths within half a hundredth of the input. |
| RideController.EstimateMatchesRequest | services/ride-service/src/controllers/rideController.js:483-531 | For the same route and surge, the estimate for a class quotes the base, distance and total fare a request for that class stores, and reports its distance to within half a hundredth. |
| RideQueries.NewestFirst | services/ride-service/src/controllers/rideController.js:543 | The sorted list holds the same rides, newest first by creation time. |
| RideQueries.GetActiveRides | services/ride-service/src/controllers/rideController.js:534-550 | A user header that is not an ObjectId answers 500 "Failed to get active rides"; otherwise the list holds exactly the user's rides in the active statuses for the role, newest first, and it is empty for a rider without a header. |
| RideQueries.MalformedHeaderFailsReads | services/ride-service/src/controllers/rideController.js:534-617 | A user header such as `abc` that is not an ObjectId ends the active-rides, history and driver-statistics reads in their 500 replies, for any role, page and day. |
| RideQueries.ArrivedRideNotActive | services/ride-service/src/controllers/rideController.js:539-541 | A ride in status `arrived` is in neither party's active list. |
| RideQueries.DriverActiveIsRiderActiveWithoutRequested | services/ride-service/src/controllers/rideController.js:539-541 | The driver's active statuses are the rider's without `requested`. |
| RideQueries.PageCount | services/ride-service/src/controllers/rideController.js:341 | For a positive limit the page count is the least number of pages that holds the total; a zero limit gives no number. |
| RideQueries.TakeLimit | services/ride-service/src/controllers/rideController.js:329 | The kept rides are a prefix, no longer than the limit's magnitude, and the whole list when the limit is 0. |
| RideQueries.Matching | services/ride-service/src/controllers/rideController.js:316-327 | The list holds exactly the user's rides on the asked side with the asked status, newest first. |
| RideQueries.Window | services/ride-service/src/controllers/rideController.js:326-329 | The window lists the rides from position `skip` on, in order; it holds all that remain when the limit is 0 or large enough, and otherwise as many as the limit's magnitude. |
| RideQueries.GetUserRides | services/ride-service/src/controllers/rideController.js:309-348 | A user header that is not an ObjectId or a negative skip fails with 500 "Failed to get rides"; otherwise the reply holds the window of matching rides, the total of all matching rides and the page count. |
| RideQueries.PagesPartitionHistory | services/ride-service/src/controllers/rideController.js:326-331 | With positive page and limit, a header that casts gets a page, and page `p` holds exactly the rides at positions `(p-1)·limit` to `p·limit` of the full newest-first list. |
| RideQueries.AcceptanceRateAsWritten | services/ride-service/src/controllers/rideController.js:590-591 | With some ride not cancelled, the rate is 100 · kept / all rounded to the nearest integer, halves up; with every ride cancelled it is 100. |
| RideQueries.AcceptanceRateAsWrittenNotMonotone | services/ride-service/src/controllers/rideController.js:591 | One kept ride in 300 reports 0 %, while 300 cancelled rides out of 300 report 100 %. |
| RideQueries.PercentRounded | services/ride-service/src/controllers/rideController.js:591 | The result is 100 · part / whole rounded to the nearest integer, halves up, so it lies between 0 and 100 and is 0 for no part and 100 for the whole. |
| RideQueries.AcceptanceRate | services/ride-service/src/controllers/rideController.js:590-591 | With some rides, the corrected rate is 100 · kept / all rounded to the nearest integer, halves up; with no rides it is 100. |
| RideQueries.AcceptanceRateMonotone | services/ride-service/src/controllers/rideController.js:590-591 | With a fixed number of rides, the corrected rate never falls as fewer rides are cancelled. |
| RideQueries.Scores | services/ride-service/src/controllers/rideController.js:594-596 | No picked score is 0, and there are never more scores than rides. |
| RideQueries.ScoresPickTruthy | services/ride-service/src/controllers/rideController.js:594-596 | The picked scores are exactly the truthy reads of the rides that have one, in ride order. |
| RideQueries.AvgRatingAsWritten | services/ride-service/src/controllers/rideController.js:594-599 | The average as written is always 5.0. |
| RideQueries.EmptyScores | services/ride-service/src/controllers/rideController.js:595-596 | Reading the top-level `driverRating` picks no score from any ride. |
| RideQueries.AvgRating | services/ride-service/src/controllers/rideController.js:594-599 | The corrected average is the mean of the riders' truthy scores (the average times their count is their sum), 5.0 when there is none, and lies between 1 and 5. |
| RideQueries.AvgRatingIgnoresScores | services/ride-service/src/controllers/rideController.js:594-599 | For a ride scored 1, the average as written says 5.0 and the corrected one says 1.0. |
| RideQueries.GetDriverStatsAsWritten | services/ride-service/src/controllers/rideController.js:553-617 | A user header that is not an ObjectId answers 500 "Failed to get driver stats". Otherwise today's and this week's counts and earnings cover the driver's rides completed since each midnight; the total counts the driver's completed rides; the rating is always 5.0; the rate is the rounded share of rides not cancelled, or 100 when every ride was cancelled. |
| RideQueries.GetDriverStats | services/ride-service/src/controllers/rideController.js:553-617 | The corrected statistics: the same 500 for a header that does not cast, the same counts and earnings as the handler as written, the rating is the corrected average, and the rate is the rounded share of rides not cancelled whenever the driver has any ride. |
| RideQueries.StatsVersionsAgreeOnCounts | services/ride-service/src/controllers/rideController.js:586-599 | The handler as written and the corrected one fail on the same headers and otherwise differ only in the rating and the rate; the rates agree once one of the driver's rides was not cancelled. |
| RideQueries.TodayWithinWeek | services/ride-service/src/controllers/rideController.js:558-583 | For a header that casts, with the week's midnight no later than today's and fares not negative, today's rides and earnings never exceed the week's, and the week's rides never exceed the completed total. |
| RideQueries.EarningsNonNegative | services/ride-service/src/controllers/rideController.js:569-583 | With non-negative fares, earnings are never negative. |
| SocketHub.Lookup | services/ride-service/src/socket/socketHandler.js:3-4 | A key maps to no socket exactly when no entry has it; otherwise the socket is that of an entry with the key. |
| SocketHub.Put | services/ride-service/src/socket/socketHandler.js:12-20 | After a set, the key maps to the new socket and every other key maps as before. |
| SocketHub.PutPlacement | services/ride-service/src/socket/socketHandler.js:12-20 | A new key is appended after every existing entry, and an existing key keeps its place. |
| SocketHub.PutKeepsKeysUnique | services/ride-service/src/socket/socketHandler.js:12-20 | A set never makes a key occur twice. |
| SocketHub.Remove | services/ride-service/src/socket/socketHandler.js:27 | After a delete, the key maps to nothing, every other key maps as before, and keys stay unique. |
| SocketHub.RemoveFirstSocket | services/ride-service/src/socket/socketHandler.js:66-78 | The disconnect loop removes at most one entry, removes none when no entry holds the socket, and adds no key. |
| SocketHub.RemoveFirstSocketPicksFirst | services/ride-service/src/socket/socketHandler.js:66-71 | The entry removed is exactly the first one bound to the socket. |
| SocketHub.JoinRoom | services/ride-service/src/socket/socketHandler.js:11 | Joining puts the socket in the room, creating the room when needed, and leaves every other room as it was. |
| SocketHub.LeaveRoom | services/ride-service/src/socket/socketHandler.js:39 | Leaving takes only that socket out of the room, and a room left empty disappears; every other room is as it was. |
| SocketHub.JoinRider | services/ride-service/src/socket/socketHandler.js:10-14 | The socket becomes the rider's socket and joins only the room `rider-<id>`; the driver map is unchanged. |
| SocketHub.JoinDriver | services/ride-service/src/socket/socketHandler.js:17-22 | The socket becomes the driver's socket and joins only `available-drivers` and `driver-<id>`; the rider map is unchanged. |
| SocketHub.DriverOffline | services/ride-service/src/socket/socketHandler.js:25-29 | The driver's entry goes and the socket leaves only `available-drivers`. |
| SocketHub.JoinRide | services/ride-service/src/socket/socketHandler.js:32-35 | Only the room `ride-<id>` gains the socket. |
| SocketHub.LeaveRide | services/ride-service/src/socket/socketHandler.js:38-41 | Only the room `ride-<id>` loses the socket. |
| SocketHub.JoinThenLeaveRide | services/ride-service/src/socket/socketHandler.js:32-41 | Joining a ride room and then leaving it restores every room, when the socket was not in it before. |
| SocketHub.LocationUpdate | services/ride-service/src/socket/socketHandler.js:44-59 | A location is relayed once, to `ride-<rideId>`, exactly when the ride id is truthy, and never otherwise. |
| SocketHub.Disconnect | services/ride-service/src/socket/socketHandler.js:62-79 | At most one rider entry and one driver entry go, and the socket leaves every room. |
| SocketHub.RoomFamiliesDisjoint | services/ride-service/src/socket/socketHandler.js:83-95 | Rider, driver, ride and broadcast rooms never collide, and each room names one id. |
| SocketHub.OfflineDriverKeepsPersonalRoom | services/ride-service/src/socket/socketHandler.js:17-29 | A driver who goes offline still gets personal events but no longer gets new-request broadcasts. |
| AuthMiddleware.ParseBearer | services/api-gateway/src/middleware/auth.js:5-17 | A header counts as absent exactly when it is missing or empty. |
| AuthMiddleware.BearerIff | services/api-gateway/src/middleware/auth.js:11-17 | A header yields token `t` exactly when it is `Bearer`, one space, then `t` with no space in it. |
| AuthMiddleware.FormatIsCaseSensitive | services/api-gateway/src/middleware/auth.js:13-15 | A lower-case `bearer`, a doubled space and a bare token are all format errors. |
| AuthMiddleware.ServiceAuthenticate | services/user-service/src/routes/auth.js:18-44 | The user service admits a request exactly when the header is well formed and the token verifies, and then forwards the claims and the claimed user id; every refusal is a 401. |
| AuthMiddleware.GatewayAuthenticate | services/api-gateway/src/middleware/auth.js:3-40 | The gateway forwards exactly when the header is well formed and the token verifies; it then sets the three `x-user-*` headers from the claims and keeps every other header; only an unexpected exception is a 500. |
| AuthMiddleware.ClientIdentityHeadersOverwritten | services/api-gateway/src/middleware/auth.js:29-32 | Two requests with the same Authorization header forward the same identity, whatever identity headers the clients sent. |
| AuthMiddleware.MiddlewaresAgree | services/api-gateway/src/middleware/auth.js:7-26 | The gateway and the user service accept the same headers, and their 401 refusals carry the same message. |
| AuthMiddleware.BearerTokenAuthenticates | services/user-service/src/routes/auth.js:26-36 | A well-formed header with a token the verifier accepts authenticates as the claims' user at both layers. |
| UserModel.ParseRole | services/user-service/src/models/User.js:33-37 | Exactly `rider`, `driver` and `admin` are roles, each reading back to its own name. |
| UserModel.ParseRoleName | services/user-service/src/models/User.js:35 | Every role reads back from its own name. |
| UserModel.LastIndexOf | services/user-service/src/models/User.js:11 | The position found is that of the last occurrence of the character, and none is found only when it is absent. |
| UserModel.EmailPatternIsTrimmed | services/user-service/src/models/User.js:9-11 | An address that matches the pattern has no surrounding white space, so trimming leaves it alone. |
| UserModel.EmailPatternAt | services/user-service/src/models/User.js:11 | An address matches exactly when its local part is a word run and its domain ends in a dot and two or three word characters. |
| UserModel.DomainPartExamples | services/user-service/src/models/User.js:11 | `ex.com` is a domain; `ex.c` and `ex` are not. |
| UserModel.WordRunExamples | services/user-service/src/models/User.js:11 | `rider.one` is a local part; `rider..one` and `.rider` are not. |
| UserModel.NormalizeEmail | services/user-service/src/models/User.js:9-10 | The stored address has no upper-case ASCII letter and no white space at either end; without a dotted capital I it is no longer than the input. |
| UserModel.NormalizeEmailIdempotent | services/user-service/src/models/User.js:9-10 | A stored address normalizes to itself, so looking it up again finds the same account. |
| Text.ToLower | services/user-service/src/models/User.js:9 | The lower-cased text has no ASCII capital and is never shorter than the input; text without white space stays without it. |
| Text.ToLowerIdempotent | services/user-service/src/models/User.js:9 | Lower-casing an already lower-cased text changes nothing. |
| Text.ToLowerUnicodeExamples | services/user-service/src/models/User.js:9 | Lower-casing is not ASCII-only: the Kelvin sign becomes `k`, and the dotted capital I becomes two characters, so the text grows. |
| Text.ToLowerLengthPreserved | services/user-service/src/models/User.js:9 | Without a dotted capital I, lower-casing keeps the length. |
| Text.Trim | services/user-service/src/models/User.js:18-21 | The trimmed text neither starts nor ends with ECMAScript white space or a line terminator, is no longer than the input, and is the input itself when neither end is white space. |
| Text.UnicodeSpacesTrimmed | services/user-service/src/models/User.js:18-21 | An ideographic space is white space to `trim`, so a value made only of it trims to empty. |
| UserModel.NewUser | services/user-service/src/models/User.js:4-114 | A new user has the normalized email, the password as given, no picture, is unverified and active, and has the default driver info, no saved addresses, rider rating 5, no rides and no reset token. |
| UserModel.Save | services/user-service/src/models/User.js:120-130 | A save stores exactly the schema-valid documents; it hashes the password only when the password was modified, and changes no other field. |
| UserModel.ResaveKeepsHash | services/user-service/src/models/User.js:121 | Saving a stored user again without touching the password does not hash it again. |
| UserModel.ToJson | services/user-service/src/models/User.js:138-142 | The JSON has no password key, and every other key is as in the plain object. |
| UserModel.ToJsonIgnoresPassword | services/user-service/src/models/User.js:138-142 | The JSON a client sees does not depend on the stored password. |
| UserModel.ToObjectShowsPassword | services/user-service/src/models/User.js:139 | The plain object does show the password; only the two reset fields can be absent from it. |
| UserModel.ToJsonShowsIdentity | services/user-service/src/models/User.js:138-142 | Two users with the same JSON have the same id, email, role and active flag. |
| AuthController.FindByEmail | services/user-service/src/controllers/authController.js:61 | The lookup finds the first account whose email is the normalized query, and reports none only when no account has it. |
| AuthController.TokenClaims | services/user-service/src/controllers/authController.js:6-16 | The signed claims are exactly the user's id, email and role name. |
| AuthController.Register | services/user-service/src/controllers/authController.js:19-53 | A taken email is a 400 that changes nothing; otherwise an account is appended exactly when the role is absent or known and the new document passes the schema, with the normalized email, the hashed password, the requested role, active and unverified, and a token for its claims; a failure changes nothing. |
| AuthController.RegisterKeepsEmailsUnique | services/user-service/src/controllers/authController.js:24-27 | Registration never creates a second account for an email. |
| AuthController.Login | services/user-service/src/controllers/authController.js:56-89 | Login issues a token exactly when the email belongs to an active account whose stored hash matches the password; the reply is that user with a token for their claims; every refusal is a 401, and nothing changes. |
| AuthController.LoginDoesNotRevealEmail | services/user-service/src/controllers/authController.js:62-75 | An unknown email and a wrong password on an active account get the same reply. |
| AuthController.DeactivatedRefusedWhateverThePassword | services/user-service/src/controllers/authController.js:67-69 | A deactivated account is refused with "Account is deactivated" before its password is checked. |
| AuthController.LoginTokenAuthenticates | services/user-service/src/controllers/authController.js:78-84 | A token from login, sent back as a Bearer header, makes the gateway forward that user's id and role. |
| AuthController.ForgotPassword | services/user-service/src/controllers/authController.js:131-187 | An unknown email gets the neutral message and changes nothing; a known one stores the token's hash with a ten-minute expiry on that account only and mails a link carrying the raw token. |
| AuthController.ForgotDoesNotRevealEmail | services/user-service/src/controllers/authController.js:137-182 | Known and unknown emails get the same reply. |
| AuthController.FindByResetToken | services/user-service/src/controllers/authController.js:205-208 | The lookup finds the first account holding the hash with an expiry still in the future, and none only when no account does. |
| AuthController.ResetPassword | services/user-service/src/controllers/authController.js:190-227 | A missing token or password is a 400, and so is a token with no live hash; both change nothing. A success hashes the new password into that account only and clears its token and expiry. |
| AuthController.ResetTokenSingleUse | services/user-service/src/controllers/authController.js:215-218 | A reset token works once: a replay, at any later time, is refused. |
| AuthController.ForgotThenReset | services/user-service/src/controllers/authController.js:145-218 | For a valid, active account, a token issued by forgot-password and used within its ten minutes resets the password to any new one of six characters or more, and that password then logs in. |
| AuthRoutes.Handle | services/user-service/src/routes/auth.js:73-79 | A request runs its endpoint only when the path routes to it and its guard passes; `/me` and `/refresh-token` then carry the caller's verified claims, and the others a passing validator chain. |
| AuthRoutes.OnlyMeAndRefreshAuthenticate | services/user-service/src/routes/auth.js:76-77 | Exactly `/me` and `/refresh-token` need a token. |
| AuthRoutes.RegisterRoleGate | services/user-service/src/routes/auth.js:53 | A registration with a string role passes only for `rider` or `driver`, so `admin` cannot be registered. |
| AuthRoutes.RegisterGate | services/user-service/src/routes/auth.js:47-54 | A passing registration has an accepted email and a password of six characters or more; with no role, it passes exactly when those hold and the names and phone are non-empty. |
| AuthRoutes.ResetGate | services/user-service/src/routes/auth.js:68-71 | A reset passes exactly when the token is non-empty and the password has six characters or more. |
| AuthRoutes.ForgotGate | services/user-service/src/routes/auth.js:63-65 | A forgot-password request passes exactly when the email check accepts the address. |
| Validation.Errors | services/ride-service/src/routes/ride.js:8-14 | The collected errors are empty exactly when no rule of the chain fails; every rule runs, with no short-circuit. |
| Validation.Rejected | services/user-service/src/routes/user.js:25-28 | The number of errors one check adds for a field value is zero exactly when the value passes; string checks judge every element of an array value separately. |
| Validation.RuleErrors | services/user-service/src/routes/user.js:25-28 | A rule adds no error exactly when it does not fail, and every error it adds carries its own path and message. |
| Validation.ErrorsFromFailingRules | services/ride-service/src/routes/ride.js:8-14 | Every collected error is the path and message of a rule of the chain that fails. |
| Validation.ArrayValueErrorPerElement | services/user-service/src/routes/user.js:26 | A two-element array that fails a numeric rule gives two errors, one per element; an empty array gives none. |
| Validation.Validate | services/user-service/src/routes/auth.js:9-15 | The controller runs exactly when no rule fails; otherwise the reply is a 400 with at least one error. |
| UserController.FindById | services/user-service/src/controllers/userController.js:57 | Once the id has cast, the lookup finds the first user with the id, and nothing for an undefined id or an id no user has. |
| UserController.CallerId | services/user-service/src/controllers/userController.js:20 | A non-empty `x-user-id` header names the caller; otherwise the route's `:id` does. |
| UserController.CastText | services/user-service/src/controllers/userController.js:31-35 | A string is stored as given, and an object or array cannot be cast to text. |
| UserController.CastBoolean | services/user-service/src/controllers/userController.js:228-231 | A boolean is stored as given and null stays null. |
| UserController.ProfileUpdates | services/user-service/src/controllers/userController.js:21-29 | The update holds exactly the body's keys that are among first name, last name, phone and picture, with the body's values. |
| UserController.CastRequired | services/user-service/src/models/User.js:18-32 | A required trimmed text field accepts a string exactly when its trimmed text is non-empty, and never stores an empty value. |
| UserController.CastOptional | services/user-service/src/models/User.js:38-41 | The picture field refuses exactly objects and arrays. |
| UserController.CastProfile | services/user-service/src/controllers/userController.js:31-35 | The patch touches exactly the paths present in the update, and the update is refused exactly when one of its values fails its cast or validator. |
| UserController.Patch | services/user-service/src/controllers/userController.js:33 | The patch changes nothing beyond the four profile fields, and an empty patch changes nothing. |
| UserController.UpdateProfile | services/user-service/src/controllers/userController.js:18-49 | A caller id that fails the ObjectId cast, or an update that fails validation, is a 500 and an unknown user a 404, all changing nothing; otherwise only that user changes, by the patch. |
| UserController.BlankNameRefused | services/user-service/src/controllers/userController.js:31-35 | A first name that is blank after trimming is refused, whatever the stored user. |
| UserController.IdeographicSpaceNameRefused | services/user-service/src/controllers/userController.js:31-35 | A first name of one ideographic space is refused with 500, like any other blank name. |
| UserController.ProfileIgnoresOtherKeys | services/user-service/src/controllers/userController.js:25-29 | Keys outside the whitelist make no difference to the update. |
| UserController.ProfileKeepsProtectedFields | services/user-service/src/controllers/userController.js:21-35 | A profile update keeps the id, email, role, password, active flag and driver info. |
| UserController.OrKeep | services/user-service/src/controllers/userController.js:68-71 | A falsy value keeps the prior text, and a truthy string replaces it. |
| UserController.MergeDriverInfo | services/user-service/src/controllers/userController.js:66-73 | The merge changes only the four vehicle fields and availability; each falsy field keeps its prior value; an absent availability keeps the prior one and a boolean is stored as given. |
| UserController.UpdateDriverInfo | services/user-service/src/controllers/userController.js:52-85 | A caller id that fails the ObjectId cast is a 500, an unknown user a 404 and a non-driver a 400, all changing nothing; a success changes only that driver, by the merge. |
| UserController.FloatOf | services/user-service/src/controllers/userController.js:103 | A JSON number reads as itself. |
| UserController.ParseFloatExamples | services/user-service/src/controllers/userController.js:103 | `12` reads as 12, `-0.5` as -0.5, and `abc` reads as no number. |
| UserController.UpdateDriverLocation | services/user-service/src/controllers/userController.js:88-122 | A missing or falsy coordinate is a 400, then a caller id that fails the ObjectId cast is a 500; with two readable coordinates and a well-formed id, the update succeeds exactly when the user exists and then stores `[longitude, latitude]` on that user only; every failure changes nothing. |
| UserController.ZeroCoordinateRefused | services/user-service/src/controllers/userController.js:93-95 | A longitude of exactly 0 is refused. |
| UserController.UpdateAvailability | services/user-service/src/controllers/userController.js:210-241 | A missing flag is a 400, then a caller id that fails the ObjectId cast a 500, an unknown user a 404 and a non-driver a 400; a success stores the cast flag on that driver only, and its wording follows the raw value's truthiness. |
| UserController.AvailabilityWording | services/user-service/src/controllers/userController.js:229-235 | With a boolean the wording matches the stored flag; the string "false" is stored as false but answered "You are now online". |
| UserController.LeadingDigits | services/user-service/src/controllers/userController.js:142 | The count covers exactly the run of digits at the start of the text. |
| UserController.NearbyList | services/user-service/src/controllers/userController.js:133-145 | The list holds exactly the projections of available drivers that pass the distance test, and no more entries than there are users. |
| UserController.GetNearbyDrivers | services/user-service/src/controllers/userController.js:125-155 | A missing or empty coordinate is a 400; otherwise the count equals the list, and the list holds exactly the available drivers within the radius (5000 by default). |
| UserController.ZeroQueryAccepted | services/user-service/src/controllers/userController.js:129 | Query coordinates of "0" are accepted. |
| UserController.NearbyListsDeactivatedDrivers | services/user-service/src/controllers/userController.js:133-136 | A deactivated driver still marked available and in range is listed. |
| UserController.AddSavedAddress | services/user-service/src/controllers/userController.js:158-185 | A caller id that fails the ObjectId cast is a 500 and an unknown user a 404; otherwise the address is appended to that user's list only, and the reply is the new list. |
| UserController.DeleteUser | services/user-service/src/controllers/userController.js:188-207 | Deletion keeps every record: an id that fails the ObjectId cast is a 500 and an unknown user a 404, and otherwise only that user is marked inactive. |
| UserController.GetUserById | services/user-service/src/controllers/userController.js:4-15 | An id that is not 24 hexadecimal digits is exactly the 500 "Failed to get user"; a well-formed id gives the stored user with that id, or a 404 exactly when none exists. |
| UserController.UnknownUserIs404 | services/user-service/src/controllers/userController.js:37-222 | For an unknown caller, every handler answers 404 once its own input checks pass when the id casts, and 500 when it does not. |
| UserRoutes.QueryObject | services/user-service/src/routes/user.js:34-37 | The query validators see every query key, each as a string. |
| UserRoutes.Handle | services/user-service/src/routes/user.js:16-48 | A request runs its endpoint only when the path routes to it and the endpoint's chain passes on the body, or on the query for the nearby search; an unroutable path is Express's 404. |
| UserRoutes.ProfileRoutesReachUpdateProfile | services/user-service/src/routes/user.js:20-21 | Both profile paths reach the profile handler, and a non-empty header id wins over the path id. |
| UserRoutes.SingleSegmentGetIsLookup | services/user-service/src/routes/user.js:17 | Every one-segment GET is a lookup by id. |
| UserRoutes.NumericParses | services/user-service/src/routes/user.js:26-36 | A string the numeric validator accepts always reads as a number. |
| UserRoutes.NearbyAfterValidation | services/user-service/src/routes/user.js:34-38 | After the query validators pass, the search answers with a list unless the radius has no digit before its dot. |
| UserRoutes.FractionalRadiusFails | services/user-service/src/routes/user.js:37 | A radius of `.5` passes the numeric check, yet the search answers 500. |
| UserRoutes.EmptyArrayCoordinate | services/user-service/src/routes/user.js:25-28 | An empty array passes the longitude check, yet the location update answers 500. |
| PushHandler.OrDefault | services/notification-service/src/handlers/pushHandler.js:58-59 | A truthy title or body is kept, and anything falsy gives the default text. |
| PushHandler.PayloadData | services/notification-service/src/handlers/pushHandler.js:61-64 | A falsy payload gives no data; an object payload keeps exactly its keys, each value as its string form. |
| PushHandler.StringifyEach | services/notification-service/src/handlers/pushHandler.js:62 | Each element becomes its string form, in order. |
| PushHandler.Characters | services/notification-service/src/handlers/pushHandler.js:61 | A string's entries are its single characters, in order. |
| PushHandler.IndexEntriesAt | services/notification-service/src/handlers/pushHandler.js:61-64 | Each index, written in decimal, maps to the element at that index, and there are no further entries. |
| PushHandler.KeysDiffer | services/notification-service/src/handlers/pushHandler.js:61 | Distinct indices give distinct keys, so no element's entry hides another's. |
| PushHandler.Message | services/notification-service/src/handlers/pushHandler.js:55-87 | The message goes to the job's token with the converted payload; the notification and the APNs alert carry the same title and body, defaulted when falsy. |
| PushHandler.SendPush | services/notification-service/src/handlers/pushHandler.js:32-104 | Without Firebase the mock reports success with id `mock-push-<now>` unless logging the token throws. With Firebase the result is Firebase's id on acceptance and its error message on refusal, and never a mock. |
| PushHandler.Lookup | services/notification-service/src/handlers/pushHandler.js:108-129 | Exactly the five template names have entries. The requested-ride body names the drop-off address, or says destination without one; the accepted-ride body names the driver, or says Your driver; the other three are fixed texts. |
| PushHandler.TemplateFor | services/notification-service/src/handlers/pushHandler.js:131 | A known template name gives its own entry; any other name gives the welcome template. |
| PushHandler.TemplateJob | services/notification-service/src/handlers/pushHandler.js:133-138 | The push carries the template's title and body, the same token, and the data as its payload. |
| PushHandler.SendTemplatePush | services/notification-service/src/handlers/pushHandler.js:107-139 | The template push is a `sendPush` whose message carries the template's own title and body, never the defaults, with the data as payload. With Firebase, it is sent exactly when Firebase accepts that message; without it, the mock answers. |
| PushHandler.TemplatesOverrideDefaults | services/notification-service/src/handlers/pushHandler.js:58-129 | Template titles and bodies are never empty, so the defaults never replace them. |
| PushHandler.UnknownTemplateIsWelcome | services/notification-service/src/handlers/pushHandler.js:131 | An unknown template name, or none at all, sends the welcome push. |
| PushHandler.OnlyRideTemplatesReadData | services/notification-service/src/handlers/pushHandler.js:108-129 | Only the requested-ride and accepted-ride templates depend on the data. |
| PushHandler.AcceptedBodyNamesDriver | services/notification-service/src/handlers/pushHandler.js:113-116 | The accepted-ride body names the driver when the data has a non-empty name, and says "Your driver" otherwise. |
| PushHandler.PayloadKeepsKeys | services/notification-service/src/handlers/pushHandler.js:61-64 | An object payload keeps each key with its value's string form; a number or boolean payload adds no entries. |
| SmsHandler.SendSms | services/notification-service/src/handlers/smsHandler.js:4-52 | Sending always succeeds; it is a mock with id `mock-<now>` exactly in development, and `sms-<now>` otherwise. |
| SmsHandler.Render | services/notification-service/src/handlers/smsHandler.js:55-73 | Exactly the six template names render a message. |
| SmsHandler.SendTemplateSms | services/notification-service/src/handlers/smsHandler.js:75-82 | An unknown name throws "SMS template '<name>' not found"; the SMS goes out exactly when the name is known and the data is not nullish, and it carries the rendered message to the given recipient. |
| SmsHandler.CancelledReasonRecoverable | services/notification-service/src/handlers/smsHandler.js:68-69 | The cancellation text after the fixed prefix is exactly the reason, or "N/A" when the reason is falsy. |
| SmsHandler.AcceptedEmbedsDriver | services/notification-service/src/handlers/smsHandler.js:59-60 | The accepted-ride text holds the driver's name, the vehicle model and the ETA, each at the position the fixed text before it leaves. |
| SmsHandler.RequestedEmbedsPickup | services/notification-service/src/handlers/smsHandler.js:56-57 | The requested-ride text carries the pickup exactly between its fixed opening and its closing sentence. |
| SmsHandler.UnknownTemplateSendsNothing | services/notification-service/src/handlers/smsHandler.js:76-78 | A name outside the table, such as `rideArriving`, sends nothing. |
| NotificationController.AddPushJob | services/notification-service/src/queues/notificationQueue.js:68-74 | Without a queue the push goes out at once, with a queue the job is enqueued; an unreachable queue rejects. Either way what is eventually delivered is the direct `sendPush` of the job. |
| NotificationController.TypeConfigAsWritten | services/notification-service/src/controllers/notificationController.js:35-38 | A type passes the unknown-type check when it is one of the table's five types or a member every object inherits. |
| NotificationController.TypeConfigOf | services/notification-service/src/controllers/notificationController.js:17-38 | A type is known exactly when it is one of the five table entries, and it yields that entry's push template. |
| NotificationController.TypeTableIsInjective | services/notification-service/src/controllers/notificationController.js:17-33 | Distinct notification types map to distinct push templates, and every mapped template exists in the push handler. |
| NotificationController.InheritedTypeAcceptedAsWritten | services/notification-service/src/controllers/notificationController.js:35-37 | `toString` passes the lookup as written, but the table's own entries do not contain it. |
| NotificationController.SendNotificationAsWritten | services/notification-service/src/controllers/notificationController.js:8-57 | When a push is dispatched the data held a truthy device token, and the push delivered is the raw job with no title or body: the template is not part of it. |
| NotificationController.TemplateDroppedAsWritten | services/notification-service/src/controllers/notificationController.js:41-47 | A `ride_accepted` notification is dispatched, but its push carries the default title and body instead of the driver-accepted texts. |
| NotificationController.InheritedTypeQueuesAsWritten | services/notification-service/src/controllers/notificationController.js:35-52 | A `toString` notification with an empty data object is answered as queued instead of with 400. |
| NotificationController.SendNotification | services/notification-service/src/controllers/notificationController.js:8-57 | 400 with "Unknown notification type" exactly for types outside the table; nullish data is a 500. A push is dispatched exactly when the data holds a truthy device token, and it delivers the type's template. |
| NotificationController.TemplateDelivered | services/notification-service/src/controllers/notificationController.js:44 | With the template in the job, a ride-accepted push has the driver-accepted title and names the driver in its body. |
| NotificationController.RideStatusTypes | services/notification-service/src/controllers/notificationController.js:17-37 | Of the `ride_<status>` types, exactly those for `arriving`, `arrived` and `in_progress` are refused with 400. |
| NotificationController.NoTokenNoPush | services/notification-service/src/controllers/notificationController.js:41-52 | A known type whose data has no device token sends nothing and still answers that the push was queued. |
| NotificationController.SendPushRequest | services/notification-service/src/controllers/notificationController.js:60-79 | A truthy template sends the template push directly and bypasses the queue. Otherwise the raw title and body are queued, and the only failure is an unreachable queue, answered with 500. |
| NotificationController.GetStats | services/notification-service/src/controllers/notificationController.js:82-110 | `SKIP_REDIS=true` reports direct mode without counts. Otherwise the mode is queued, with the four counts only when the queue exists; a queue that cannot be read is a 500. |
| NotificationRoutes.Handle | services/notification-service/src/routes/notification.js:8-27 | An unrouted request is dispatched nowhere. A routed one reaches its controller only when its validator chain passes, and is refused with a non-empty error list otherwise. |
| NotificationRoutes.SendGate | services/notification-service/src/routes/notification.js:17-20 | `/send` reaches the controller exactly when `type` and `userId` are non-empty. |
| NotificationRoutes.PushNeedsToken | services/notification-service/src/routes/notification.js:22-24 | A `/push` body without a device token is refused before the controller. |
| NotificationRoutes.EmptyArrayToken | services/notification-service/src/routes/notification.js:22-24 | An empty array passes the device-token check. The push then fails, yet the reply says it was queued. |
| Webhook.Secret | webhook-receiver.js:12 | The secret is never empty: it comes from the environment when that is set and non-empty, and is `webhook-secret` otherwise. |
| Webhook.VerifySignature | webhook-receiver.js:23-35 | A request verifies exactly when it carries the signature header and the header equals `sha256=` followed by the body's HMAC under the secret. |
| Webhook.SignThenVerify | webhook-receiver.js:23-35 | A header signed for the body verifies. A header signed for another body verifies only when the two bodies' digests coincide. |
| Webhook.Handle | webhook-receiver.js:73-116 | Other methods and URLs are 404 and a bad signature is 401. The deployment runs exactly for a verified push to main with a repository and a non-null pusher. Its outcome is 200 or 500. |
| Webhook.OtherBranchSkipped | webhook-receiver.js:98-110 | A verified push to any branch other than main is acknowledged with 200 `OK` and deploys nothing. |
| Webhook.QueryStringIsNotFound | webhook-receiver.js:74-78 | The URL is compared whole, so `/webhook` with a query string is 404. |
| Webhook.HeaderParses | webhook-receiver.js:1-4 | The opening lines parse exactly when no line but the first starts with `#`, and the first only as a `#!` hashbang. |
| Webhook.HeaderAsWrittenRejected | webhook-receiver.js:3-4 | The receiver's opening lines as written do not parse: the third line is a `#` comment after the hashbang. |
| Webhook.HashAfterFirstLineRejects | webhook-receiver.js:3 | Any `#` line after the first rejects the whole script. |
| Webhook.SlashCommentHeaderParses | webhook-receiver.js:1-4 | A hashbang followed only by blank lines and `//` comments parses. |
| Webhook.HeaderCorrectedParses | webhook-receiver.js:1-4 | The opening lines with the two comments written as `//` comments parse. |
| DriverDashboard.GetDriverStatus | frontend/src/pages/DriverDashboard.jsx:66-73 | The badge reads Offline exactly when the driver is offline. Online, it reads On Trip for an in-progress ride, Busy for any other ride, and Available without a ride. |
| DriverDashboard.NextAction | frontend/src/pages/DriverDashboard.jsx:562-588 | A button shows exactly for `accepted`, `arrived` and `in_progress`. The status it sends is always one the status route accepts, and never `arriving`. |
| DriverDashboard.ButtonsWalkTheTrip | frontend/src/pages/DriverDashboard.jsx:562-588 | Following the buttons from `accepted` goes through `arrived` and `in_progress` to `completed`, and then no button shows. |
| DriverDashboard.OnRideRequest | frontend/src/pages/DriverDashboard.jsx:101-104 | A new request replaces any earlier one and restarts the countdown at 30; the current ride and the online flag are kept. |
| DriverDashboard.Tick | frontend/src/pages/DriverDashboard.jsx:76-93 | A stopped countdown changes nothing. At one or below the request is dropped, the count reads 0 and the interval stops. Above one, only the count goes down by one. |
| DriverDashboard.RequestExpires | frontend/src/pages/DriverDashboard.jsx:76-93 | An unanswered request is still shown after k < 30 ticks, with 30 - k on the counter, and is gone after 30 ticks. |
| DriverDashboard.AcceptRide | frontend/src/pages/DriverDashboard.jsx:247-263 | Without a request nothing happens. Otherwise the countdown stops. Success makes the server's ride current and drops the request; a refusal changes nothing else. |
| DriverDashboard.FailedAcceptFreezesCountdown | frontend/src/pages/DriverDashboard.jsx:247-263 | After a refused accept no number of ticks changes the page: the request stays on screen. |
| DriverDashboard.RejectRide | frontend/src/pages/DriverDashboard.jsx:265-269 | Declining drops the request and stops the countdown, and leaves the ride and the online flag alone. |
| DriverDashboard.UpdateRideStatus | frontend/src/pages/DriverDashboard.jsx:271-292 | Without a ride nothing happens. A successful `completed` clears the ride, any other successful status takes the server's ride, and a failure keeps the ride. |
| DriverDashboard.ToggleDisabled | frontend/src/pages/DriverDashboard.jsx:925 | The online toggle is enabled exactly when no call is running and there is no current ride. |
| DriverDashboard.NoOfflineMidTrip | frontend/src/pages/DriverDashboard.jsx:925 | After any status update other than `completed` the toggle stays disabled, whatever the server answers. |
| DriverDashboard.OpenNavigation | frontend/src/pages/DriverDashboard.jsx:294-300 | No target opens nothing, and a `{lat, lng}` target navigates to that point. |
| DriverDashboard.GeoJsonOrderRoundTrip | frontend/src/pages/DriverDashboard.jsx:294-300 | A GeoJSON point stored as `[lng, lat]` navigates to the same place as `{lat, lng}`. |
| DriverDashboard.OnPosition | frontend/src/pages/DriverDashboard.jsx:143-147 | A location message carries the driver and the position, and the current ride's id exactly when there is a current ride. |
| ActiveRide.GetStatusInfo | frontend/src/pages/ActiveRide.jsx:102-113 | A ride status gets a coloured banner with its own text, never the gray default; any other text is shown as it is, in gray, without animation. Exactly the requested, arriving and arrived banners pulse. |
| ActiveRide.StatusInfoCoversModel | frontend/src/pages/ActiveRide.jsx:102-113 | Each of the seven ride statuses has its own banner, never the gray default. A text that is no status falls back to gray. |
| ActiveRide.CancelButtonAgreesWithServer | frontend/src/pages/ActiveRide.jsx:309 | Whenever the cancel button shows for the ride the server sent, the ride service accepts the cancellation. |
| ActiveRide.Initial | frontend/src/pages/ActiveRide.jsx:12-16 | The page starts with no ride, the rating dialog closed and five stars preselected. |
| ActiveRide.OnRideAccepted | frontend/src/pages/ActiveRide.jsx:26-31 | An accepted event for this ride replaces the whole ride. An event for another ride changes nothing. |
| ActiveRide.WithStatus | frontend/src/pages/ActiveRide.jsx:43 | Every key other than `status` keeps its value from the previous ride, and `status` takes the event's value. |
| ActiveRide.OnStatusUpdate | frontend/src/pages/ActiveRide.jsx:41-53 | An event for another ride changes nothing. For this ride only the status changes, and a `completed` event opens the rating dialog. |
| ActiveRide.OtherRideIgnored | frontend/src/pages/ActiveRide.jsx:26-53 | Status and accepted events naming another ride leave the page as it was. |
| ActiveRide.FetchRide | frontend/src/pages/ActiveRide.jsx:60-76 | The page shows the ride exactly when the reply holds a non-null ride, and sends the rider home otherwise. The rating dialog opens for a completed ride the rider has not rated. |
| ActiveRide.RatingBody | frontend/src/pages/ActiveRide.jsx:93 | The posted body carries the chosen score, a role the ride service reads as the rider's, and no feedback. |
| ActiveRide.PageRatingRatesDriver | frontend/src/pages/ActiveRide.jsx:93 | The server reads the page's rating as the rider rating the driver, and an untouched dialog gives five stars. |
| ActiveRide.PostedRatingRatesDriver | frontend/src/pages/ActiveRide.jsx:90-93 | Posting the page's rating for a ride the server holds rates the driver with the chosen score and stores an empty rider feedback. |
| BookRide.Initial | frontend/src/pages/BookRide.jsx:11-17 | The page starts with both endpoints blank and without coordinates, no search results and no active input. |
| BookRide.SetEndpoint | frontend/src/pages/BookRide.jsx:117-122 | Setting one endpoint leaves the other endpoint, the results and the active input as they were. |
| BookRide.HintSide | frontend/src/pages/BookRide.jsx:221 | The hint names the pickup exactly while the pickup has no coordinates. |
| BookRide.MapClick | frontend/src/pages/BookRide.jsx:189-205 | A tap sets the pickup while it has no coordinates, and moves the drop-off after that. Either way the endpoint gets the tapped point and its reverse-geocoded address. |
| BookRide.ClickSetsHintedSide | frontend/src/pages/BookRide.jsx:189-221 | A tap sets exactly the endpoint the hint named before the tap. |
| BookRide.TapsNeverMovePickup | frontend/src/pages/BookRide.jsx:189-205 | Once the pickup has coordinates no number of taps changes it, and the last tap decides the drop-off. |
| BookRide.FirstTwoTaps | frontend/src/pages/BookRide.jsx:189-205 | On a fresh page the first tap sets the pickup and the second the drop-off. |
| BookRide.Type | frontend/src/pages/BookRide.jsx:101-115 | Typing changes only the address of its endpoint: the coordinates stay, the other endpoint stays, and that input becomes active. |
| BookRide.Clear | frontend/src/pages/BookRide.jsx:249-273 | The clear button blanks its endpoint, address and coordinates, and leaves the other endpoint, the suggestion list and the active input alone. |
| BookRide.Search | frontend/src/pages/BookRide.jsx:74-99 | A request is made exactly for a query of at least three UTF-16 units. A short query or a failed search leaves no results, and otherwise the results are the search's answer. |
| BookRide.SelectLocation | frontend/src/pages/BookRide.jsx:117-125 | Picking a result makes it the endpoint, leaves the other endpoint alone, and clears the results and the active input. |
| BookRide.GetFareEstimate | frontend/src/pages/BookRide.jsx:127-131 | The estimate is asked for exactly when both endpoints have coordinates, and with those coordinates. Otherwise the "Please select valid locations" toast shows. |
| BookRide.EstimateNeedsPickedLocations | frontend/src/pages/BookRide.jsx:101-131 | Typing never changes whether an estimate is possible, and clearing either end refuses it. Picking located results for both ends allows it with their coordinates. |
| Forms.FirstFailure | frontend/src/pages/Register.jsx:30-43 | No guard fails exactly when all hold. Otherwise the message is that of the earliest failing guard, and every guard before it holds. |
| Forms.JsLength | frontend/src/pages/Register.jsx:40 | A string's JavaScript length is never less than its number of characters. |
| Forms.PlainLengthsAgree | frontend/src/pages/Register.jsx:40 | On text without astral characters or emoji variation selectors, three lengths agree: JavaScript's, the character count and the server validator's. |
| Forms.SubmitRegister | frontend/src/pages/Register.jsx:25-47 | The form is sent exactly when all five fields are filled, the passwords match and the password has six UTF-16 units; the body leaves out the confirmation. A blank field shows "fill in all fields", and a mismatch shows its toast exactly when the fields are filled. |
| Forms.RegisterFormPassesServer | frontend/src/pages/Register.jsx:47 | A sent registration passes the user service's register validators when its password is plain text, its email is accepted and its role is the default. |
| Forms.EmojiPasswordRefusedByServer | frontend/src/pages/Register.jsx:40 | A three-emoji password is six units long, so the page sends it. The server counts three characters and refuses it. |
| Forms.SubmitReset | frontend/src/pages/ResetPassword.jsx:17-45 | The reset is sent exactly when the token is present, both fields are filled, they match and the password has six units; the body holds the token and password. Each earlier failure shows its own toast. |
| Forms.ResetFormPassesServer | frontend/src/pages/ResetPassword.jsx:42-45 | A sent reset with a plain-text password passes the server's reset validators. |
| Forms.SubmitLogin | frontend/src/pages/Login.jsx:18-28 | Login is called exactly when both fields are filled, with those two values; otherwise the "fill in all fields" toast shows. |
| Forms.ErrorToast | frontend/src/pages/Login.jsx:32 | A truthy server error is shown as its string form, and anything else shows the fallback. |
| Forms.ForgotPassword | frontend/src/pages/Login.jsx:38-57 | An empty email only shows a toast. Otherwise the email is posted. Success closes and empties the modal, and a failure keeps it open and shows the server's error or the fallback. |
| Forms.LoginToastShowsServerText | frontend/src/pages/Login.jsx:32 | A text error from the server is shown as it is, and an empty or missing one shows "Login failed". |
| RideSummary.View | services/ride-service/src/controllers/rideController.js:335-344 | A ride's JSON carries its id and the spelling of its status. |
| RideSummary.Views | services/ride-service/src/controllers/rideController.js:335-344 | The ride list's JSON has one entry per ride, in the same order. |
| RideSummary.StatusColor | frontend/src/pages/RideHistory.jsx:30-39 | Completed, cancelled, in-progress and accepted rides have their own colours, and every other text is gray. |
| RideSummary.ColouredStatuses | frontend/src/pages/RiderDashboard.jsx:41-50 | A card has a colour other than gray exactly for completed, cancelled, in-progress and accepted rides. Requested, arriving and arrived rides look like an unknown status. |
| RideSummary.FareOf | frontend/src/pages/RideHistory.jsx:187 | A ride without a fare total counts as zero. |
| RideSummary.ViewAgrees | frontend/src/pages/RideHistory.jsx:187-193 | A ride's JSON reads as completed exactly when the ride is completed, and its fare reads as the ride's total. |
| RideSummary.FilterViews | frontend/src/pages/RideHistory.jsx:193 | Keeping the completed entries of the JSON list gives the JSON of the completed rides. |
| RideSummary.SumViews | frontend/src/pages/RideHistory.jsx:187 | The fares read from the JSON sum to the rides' fare totals. |
| RideSummary.SummaryMatchesServer | frontend/src/pages/RideHistory.jsx:187-193 | On the list the server sends, "Completed" is the number of completed rides and "Total Spent" is the sum of their fare totals. |
| RideSummary.SummaryAdds | frontend/src/pages/RideHistory.jsx:187-193 | Both figures add up over a split of the list, so a list cut into pages sums page by page. |
| RideHistory.FilterQuery | frontend/src/pages/RideHistory.jsx:18 | The query string is empty exactly for the `all` filter. |
| RideHistory.FilterQueryRoundTrip | frontend/src/pages/RideHistory.jsx:18-20 | The server reads no status for `all`, and reads the filter itself for any other. |
| RideHistory.FilteredHistoryHasStatus | frontend/src/pages/RideHistory.jsx:18-22 | Every ride the `completed` or `cancelled` filter lists has that status, and it is the user's ride as a rider. |
| RideHistory.RidesOf | frontend/src/pages/RideHistory.jsx:22 | The list is the reply's `rides` array when there is one, and empty when `rides` is falsy. |
| RideHistory.SummaryCoversFirstPage | frontend/src/pages/RideHistory.jsx:15-22 | An ObjectId user id gets a page, and it holds at most the ten newest matching rides; its figures count only those. |
| RideHistory.GroupIndex | frontend/src/pages/RideHistory.jsx:60 | The index found is a group for that day, and no index is found only when no group has that day. |
| RideHistory.SameDaysSameIndex | frontend/src/pages/RideHistory.jsx:58-65 | Finding a day's group depends only on the groups' days, in order. |
| RideHistory.AddRideLookup | frontend/src/pages/RideHistory.jsx:60-63 | Adding a ride appends it to its own day's group and leaves every other day's group as it was. |
| RideHistory.AddRideDays | frontend/src/pages/RideHistory.jsx:60-63 | Adding a ride adds its day to the set of days, and never creates a second group for a day. |
| RideHistory.GroupsAreDays | frontend/src/pages/RideHistory.jsx:58-65 | Each day's group holds exactly that day's rides, in list order. |
| RideHistory.OneGroupPerDay | frontend/src/pages/RideHistory.jsx:58-65 | There is one group for each day that occurs and for no other, and no two groups share a day. |
| RideHistory.GroupSizesAppend | frontend/src/pages/RideHistory.jsx:58-65 | The ride count of two lists of groups together is the sum of their ride counts. |
| RideHistory.GroupSizesUpdate | frontend/src/pages/RideHistory.jsx:63 | Replacing one group changes the ride count by the difference in that group's size. |
| RideHistory.GroupsCountEveryRide | frontend/src/pages/RideHistory.jsx:58-65 | The groups together hold as many rides as the list: none is lost or counted twice. |
| RiderDashboard.RecentRidesAreNewest | frontend/src/pages/RiderDashboard.jsx:19-28 | For an ObjectId user id the recent rides are the user's three newest rides as a rider, and "Total Spent" sums the fare totals of the completed ones; for any other id the list is empty. |
| RiderDashboard.ActiveReply | services/ride-service/src/controllers/rideController.js:534-549 | The active-rides reply, the list or the error, is an object with no `ride` key. |
| RiderDashboard.ActiveRideAsWritten | frontend/src/pages/RiderDashboard.jsx:30-39 | The banner gets a ride exactly when the reply's `ride` key is truthy. |
| RiderDashboard.ActiveBannerNeverShownAsWritten | frontend/src/pages/RiderDashboard.jsx:33-35 | Against the server's reply the banner never gets a ride. |
| RiderDashboard.RequestedRideHiddenAsWritten | frontend/src/pages/RiderDashboard.jsx:33-35 | A rider whose single ride is waiting for a driver has that ride active on the server, and still sees no banner. |
| RiderDashboard.ActiveRide | frontend/src/pages/RiderDashboard.jsx:30-39 | Read from `rides`, the banner gets a ride exactly when the array is non-empty, and the ride is its first entry. |
| RiderDashboard.ActiveBannerFollowsServer | frontend/src/pages/RiderDashboard.jsx:30-39 | Read this way, the banner shows exactly when the rider has an active ride, and never when the user id fails the cast. It links to the newest one, which is the rider's own and has an active status. |

## Left out

- Persistence: timestamps such as `updatedAt`, and the database's own error texts. A failed Mongoose validation on register is answered with the fixed text "User validation failed" where the source forwards `error.message`.
- Persistence: the unique-email index is not modelled as a concurrent check. Two registrations racing for one email are out of scope, because the model has no concurrency.
- Persistence: the acceptance race in `acceptRide` is one atomic guarded step, which is how the conditional update behaves. No other concurrency is modelled.
- Numbers: JSON numbers are integers. Fractional values only reach type checks, and floating-point rounding of averages and fares is not modelled beyond the `real` arithmetic the contracts state.
- Configuration: environment overrides are fixed to their defaults. These are the pricing variables, the JWT secret and expiry, `NOTIFICATION_SERVICE_URL` and the `FRONTEND_URL` default.
- External services: route distance and duration (OSRM with the haversine fallback) are the `RouteInfo` parameter. The `$near` geospatial query is the parameter `near`, a test of whether one driver is within the radius of the point; the model filters the stored drivers with it.
- External services: the Bull queue is reduced to absent, reachable or unreachable. Its retry and back-off settings and its Redis connection are not modelled.
- External services: Firebase initialisation, the FCM message constants and the SMS provider are outside the model; the FCM send is a parameter.
- Notification lookups: a template name inherited from `Object.prototype` in the push, SMS and status tables is treated as unknown. Only the notification-type table models such names, as a finding.
- SmsHandler.Render: the rupee sign is the character ₹. The source file carries it mis-encoded on line 66 of smsHandler.js, and the model does not reproduce those bytes.
- Webhook: `deploy()` is the boolean parameter `deploy`, and logging is left out. `Handle` describes the receiver once its opening lines parse (see Findings); the rest of the file is not checked for syntax.
- Client runtime: timers, React effects and re-renders are left out. The countdown is a sequence of explicit ticks, and a stale closure over `currentRide` in the driver page's status listener is not modelled.
- Client runtime: `isEmail` is an uninterpreted predicate, and the TypeError texts a browser shows are not modelled.
- Client runtime: reverse geocoding and the place search are parameters. A toast shows the string form of an error value.
- ActiveRide.WithStatus: a ride that is not an object spreads as `{}`. A string or array would really spread its index keys.
- RideSummary.FareOf: a truthy `totalFare` that is not a number counts as 0. In the source it would be added as it is.
- RideHistory.GroupByDay: `toLocaleDateString` is the parameter `dayOf`. List elements that are not objects are not modelled.
- RideHistory: the page asks only as a rider. `RideSummary.View` carries only the fields the pages read.
- Client pages: `Profile.jsx`, `Map.jsx`, `socket.js`, `api.js` and `AuthContext.jsx` are not part of this model. Neither is the email handler, since no core operation sends email through it.
- Service setup: the services' `app.js` files and the gateway's `routes/index.js` are not part of this model; they only wire the routers modelled here.
- RideRoutes: `/driver-stats` is registered twice. The model keeps only the first registration, because express never reaches the second.
- AuthController: `getProfile` and `refreshToken` only read back the stored user or sign a new token from it. They are not modelled, because they write nothing.
- UserController: in the model the `driverInfo` spread keeps no keys beyond the named ones, and saved addresses are stored without Mongoose casting their fields.
- UserModel.ToObject: the plain object has no `__v`, the version key Mongoose adds to every stored document; no handler reads it.
- PushHandler.Characters: a string payload is split by Unicode character. JavaScript splits by UTF-16 code unit, so a character outside the Basic Multilingual Plane gives two entries holding lone surrogates, which a Dafny string cannot hold.
- ObjectId.IsObjectId: only 24 hexadecimal digits cast to an ObjectId. Older BSON drivers also accept any 12-character string, which the model treats as malformed.
- RideController.Hundredths: `toFixed(2)` works on the binary double, so a value exactly halfway between two hundredths may round the other way.
- RideController.FareEstimate: numbers in the body are integers in the model; only their truthiness matters to the handler.
- Text.ToLower: the lower-case table covers ASCII, Latin-1 and basic Cyrillic capitals, the Kelvin and Angstrom signs and the dotted capital I. Other capitals, such as Latin Extended, Greek with its context-dependent final sigma, Armenian and Georgian, are kept as they are, whereas `toLowerCase` maps them.
- UserModel.NormalizeEmail: does not promise that the address never grows. `toLowerCase` turns the dotted capital I into two characters, so the length bound holds only for addresses without it. The case table is that of `Text.ToLower`.
- AuthController.FindByEmail: the query is normalized through `Text.ToLower`, so its case table limits what counts as the same email.
- AuthController.Register: the stored email is normalized through `Text.ToLower` and shares its case table.
- AuthController.Login: the email is looked up through `Text.ToLower` and shares its case table.
- AuthController.ForgotPassword: the email is looked up through `Text.ToLower` and shares its case table.
- UserController.NearbyList: the drivers come in stored order, not nearest first. `$near` sorts by distance, and the model has no distance to sort by, so its contract states membership only.
- UserController.GetNearbyDrivers: the reply lists the drivers in stored order, not nearest first, for the reason given for `NearbyList`.
- Pricing.PerKm: a vehicle class name inherited from `Object.prototype`, such as `constructor`, reads an inherited value in the source and prices the ride as NaN; the model treats it as unknown and uses the standard rate. The handlers only price validated class names.
- Pricing.MinimumFare: an inherited class name such as `constructor` gives NaN in the source; the model uses the standard minimum, as for any unknown name.
- Pricing.UnknownClassPricedAsStandard: holds for names that are not inherited from `Object.prototype`; for those the source gives NaN, not the standard quote.
- RideController.FareEstimate: a `vehicleType` of `__proto__` selects `{}` in the source, and a value that is not a string, such as `["economy"]`, is turned into a key and selects that class. The model takes the class as an optional string and selects nothing for any name that is not a class.
- ActiveRide.GetStatusInfo: a status such as `constructor` reads the inherited `Object` function in the source instead of the gray default; the model gives the gray default to every name outside the table.
- RideController.ApplyStatus: the reason is an optional string. A JSON null or a value that is not a string as the reason is not modelled.
- RideController.RequestRide: the places arrive built. A missing or non-numeric coordinate axis, which the source would store as it comes, is not modelled; `RideController.GeoPoint` states how the axes are read.
- RideController.AcceptRide: without a driver header the update sets `driverId` to undefined, a key Mongoose drops, so the ride is accepted with no driver. Older Mongoose versions would write null, which is the same here.

## Findings

| source | as written | input that shows it | evidently intended | confidence | as-written member | corrected member |
|---|---|---|---|---|---|---|
| services/ride-service/src/controllers/rideController.js:594-599 | The average rating reads `r.driverRating`, a top-level field no ride has, so the list of scores is always empty. | One completed ride whose `rating.driverRating` is 1: the driver's rating is reported as 5.0. | Average `r.rating.driverRating` over the rated completed rides. | not executed | RideQueries.AvgRatingAsWritten | RideQueries.AvgRating |
| services/ride-service/src/controllers/rideController.js:591 | The rate falls back to 100 when no ride is un-cancelled, instead of when there are no rides. | 300 rides, all cancelled: the rate is 100. With one of them not cancelled it is 0. | Test `allRides.length > 0`, so the rate only grows as fewer rides are cancelled. | not executed | RideQueries.AcceptanceRateAsWritten | RideQueries.AcceptanceRate |
| frontend/src/pages/RiderDashboard.jsx:30-39 | The page reads `data.ride` from `/rides/active`, but the server answers `{ rides }` (rideController.js line 545). | A rider with one requested ride: the server lists it, and no banner appears. | Read the first entry of `data.rides`. | not executed | RiderDashboard.ActiveRideAsWritten | RiderDashboard.ActiveRide |
| services/notification-service/src/controllers/notificationController.js:41-47 | The queued job carries `template`, but `sendPush` reads only the token, title, body and data. | `type: ride_accepted` with a device token: the push has the generic title "Uber Clone". | Deliver the push through the type's template. | not executed | NotificationController.SendNotificationAsWritten | NotificationController.SendNotification |
| services/notification-service/src/controllers/notificationController.js:35-38 | `notificationMap[type]` also finds members every object inherits, so they pass the unknown-type check. | `type: toString` with data `{}`: the reply is 200 "queued" instead of 400. | Accept only the table's own five types. | not executed | NotificationController.TypeConfigAsWritten | NotificationController.TypeConfigOf |
| webhook-receiver.js:3-4 | Two comment lines start with `#` after the `#!` line. JavaScript allows `#` only as a hashbang on the first line, so the file is a syntax error. | `node webhook-receiver.js`: the script is rejected before any line runs and no server listens on port 9000. | Write the two comments as `//` comments; the handler then answers as `Webhook.Handle` states. | not executed | Webhook.HeaderAsWrittenRejected | Webhook.HeaderCorrectedParses |
