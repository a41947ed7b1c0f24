# ZotRide, modelled in Dafny

ZotRide is a ride-sharing service for a university community. Users sign in
with a Google account on the `@uci.edu` domain. Drivers register a licence
and vehicle, which a system administrator approves. A ride is either a driver
post (a ride with a driver that riders join) or a rider request (a ride
without a driver, created by its first rider, that a driver accepts).
Organizations (clubs) post rides of their own and give their members owner,
admin and driver roles. Riders of a completed ride review its driver.

This project models the core of that system and proves properties of it.

- **The Flask backend.** The database tables are values of the datatypes in
  `models.dfy`, kept as maps in the class `Store.Database`. Its invariant
  `Consistent` gathers the unique, NOT NULL, width and CHECK constraints.
  It also requires every profile, rider row, membership and review to name an
  existing user, every rider row an existing ride and every membership an
  existing organization. A ride's driver and organization and a review's ride
  and driver are not required to exist. Every mutating route is a method
  on the database: it answers with the route's HTTP status, and either leaves
  the database as it was or commits exactly the change its `ensures` spells
  out. Every route keeps `Consistent`. The listing routes are functions, or
  methods where the route builds its list in a loop. The authentication
  helpers (`auth.dfy`) cover the administrator list, the Google-token checks,
  the JWT claims and the three route decorators.
- **The React client.** The ride lists of the JoinRides page, the destination
  search and the driver page are modelled as functions and methods on
  sequences of rides; the in-place sort by pickup time works on an array. The
  page switch of `App.tsx` and the three forms (hosting a ride, hosting a club
  ride, joining an organization by code) are classes whose fields are the
  component's state. The session storage of `api.ts` is a class `Browser`
  holding the cookie jar that `document.cookie` exposes.

The modules follow the source files:

| module | source |
|---|---|
| Common | string and option helpers shared by all modules |
| Models | `backend/app/models/*.py` |
| Store | the database the handlers share |
| Auth | `backend/app/auth_utils.py` |
| AuthRoutes, UserRoutes, DriverRoutes, RideRoutes, RideSearch, OrganizationRoutes, ReviewRoutes | `backend/app/routes/*.py` |
| ClientRides | ride records and the list operations the ride pages share |
| JoinRides, DestinationSearch, DriverPage | the ride pages of `frontend/src/components` |
| RideForms, HostRideForm, OrganizationFunctions, JoinOrganization | the forms of `frontend/src/components` |
| AppShell | `frontend/src/App.tsx` |
| Cookies | `frontend/ZotRide/src/services/api.ts` |

Two conventions hold throughout:

- **Identifiers.** User ids and driver-profile ids are separate types on the
  backend. The places where the source compares one with the other are kept
  as written: `delete_ride` compares the caller's user id with the ride's
  driver-profile id, and the client's own-ride test compares the current user
  id with a ride's `driver_id`. Each table draws its keys from its own
  sequence starting at 1 (`Store.Sequences`), as the database does, so a user
  id can equal an unrelated profile's id and such a comparison can succeed.
- **Seat counts.** `Ride.is_full` and `Ride.available_seats` are not defined
  in any file of this model. They are taken to be
  `available_seats = max_riders - riders` and `is_full <=> available_seats <= 0`
  (`Models.AvailableSeats`, `Models.IsFull`). The client's
  `max_riders - available_seats` agrees with this
  (`ClientRides.RiderCountMatchesServer`).

## Model

| member | source | states |
|---|---|---|
| Models.NewUser | backend/app/models/user.py:34-39 | the new user holds the email given, and the administrator flag is false unless given |
| Models.NewDriverData | backend/app/models/driver_data.py:29-34 | the new profile belongs to the user given, has no approval time, and is approved only as given |
| Models.SetAsApproved | backend/app/models/driver_data.py:25-27 | the flag becomes the decision and the decision time is stamped, for an approval and a revocation alike; nothing else changes |
| Models.NewOrganization | backend/app/models/organization.py:29-31 | the new organization has the given name and no access code |
| Models.NewMembership | backend/app/models/user_organization_data.py:22-27 | the membership links the user and the organization given |
| Models.NewOrganizationNeverFits | backend/app/models/organization.py:19-31 | an organization built by its constructor violates the NOT NULL access_code column, so it can never be stored |
| Models.FullIffCountReachesMax | backend/app/routes/ride_routes.py:407-409 | a ride is full exactly when its riders reach max_riders, and a ride that is not full has a seat for one more rider |
| Models.UserToDict | backend/app/models/user.py:41-52 | is_driver exactly when the user has an approved profile; driver_id exactly when there is a profile, and then its id; the authored-review count |
| Models.PendingDriverHasIdButIsNotDriver | backend/app/models/user.py:48-49 | a user with an unapproved profile is reported with a driver_id but with is_driver false |
| Models.OrganizationToDict | backend/app/models/organization.py:33-40 | an empty or missing description is reported as null and any other as it is; the ride list is exactly the rides that name the organization |
| Store.RecordOf | backend/app/models/user_ride_data.py:12-18 | the rider row of a (user, ride) pair is found exactly when one exists, and it is that pair's row |
| Store.ProfileOf | backend/app/models/driver_data.py:20 | a user's profile is found exactly when the user has one, and it belongs to that user |
| Store.MembershipOf | backend/app/models/user_organization_data.py:11-17 | the membership of a (user, organization) pair is found exactly when one exists, and it is that pair's row |
| Store.UserByEmail | backend/app/models/user.py:14 | a user is found by email exactly when the email is taken, and has that email |
| Store.InsertRideKeepsConsistent | backend/app/routes/ride_routes.py:81-82 | a new ride under the next key keeps every table constraint |
| Store.InsertRiderKeepsConsistent | backend/app/models/user_ride_data.py:12-19 | a rider row for an existing ride and user, not on that ride yet and fitting its column, keeps every constraint |
| Store.ReplaceRideKeepsConsistent | backend/app/routes/ride_routes.py:261 | rewriting a ride row keeps every constraint |
| Store.RemoveRiderKeepsConsistent | backend/app/routes/ride_routes.py:570-571 | deleting a rider row keeps every constraint |
| Store.WithoutRide | backend/app/routes/ride_routes.py:288-306 | the ride is gone together with exactly its rider rows and its reviews |
| Store.WithoutRideKeepsConsistent | backend/app/routes/ride_routes.py:288-306 | the cascade leaves no row pointing at the deleted ride, so every constraint holds |
| Store.InsertOrganizationKeepsConsistent | backend/app/models/organization.py:15-19 | a fitting organization with a free name and code keeps every constraint, and no membership refers to its key yet |
| Store.ReplaceOrganizationKeepsConsistent | backend/app/models/organization.py:15-19 | rewriting an organization with the same code and a name no other has keeps every constraint |
| Store.WithoutOrganization | backend/app/models/organization.py:14-17 | the organization and exactly its memberships are gone, the other organizations are unchanged, and every ride stays but none names it |
| Store.Unlinked | backend/app/models/organization.py:17 | a ride of the deleted organization loses its link and nothing else; any other ride is unchanged |
| Store.WithoutOrganizationKeepsConsistent | backend/app/models/organization.py:14-17 | deleting an organization keeps every constraint |
| Store.InsertMembershipKeepsConsistent | backend/app/models/user_organization_data.py:11-17 | a membership of an existing user in an existing organization, not a member yet, keeps every constraint |
| Store.RemoveMembershipKeepsConsistent | backend/app/models/user_organization_data.py:11-17 | deleting a membership keeps every constraint |
| Store.ReplaceMembershipKeepsConsistent | backend/app/models/user_organization_data.py:11-20 | changing a membership's flags keeps every constraint |
| Store.InsertUserKeepsConsistent | backend/app/models/user.py:14 | a user with an unused email keeps every constraint |
| Store.ReplaceUserKeepsConsistent | backend/app/models/user.py:14 | rewriting a user with the same email keeps every constraint |
| Store.InsertDriverKeepsConsistent | backend/app/models/driver_data.py:14-20 | a first, fitting profile of an existing user with a free image and plate keeps every constraint |
| Store.ReplaceDriverKeepsConsistent | backend/app/models/driver_data.py:14-20 | rewriting a profile that stays with its user, fits, and takes no other profile's image or plate keeps every constraint |
| Store.RemoveDriverKeepsConsistent | backend/app/models/driver_data.py:23 | deleting a profile keeps every constraint |
| Store.InsertReviewKeepsConsistent | backend/app/models/review.py:12-26 | a fitting review by an existing user who has not reviewed that ride keeps every constraint |
| Store.ReplaceReviewKeepsConsistent | backend/app/models/review.py:12-26 | rewriting a review with the same ride and author keeps every constraint |
| Store.RemoveReviewKeepsConsistent | backend/app/models/review.py:12 | deleting a review keeps every constraint |
| Auth.LowerIn | backend/app/auth_utils.py:237 | true exactly when the lower-cased address equals some lower-cased list entry |
| Auth.ListedAdminsAreAdmins | backend/app/auth_utils.py:227-237 | each listed administrator address, in any case, passes check_is_admin |
| Auth.ListedIsIn | backend/app/auth_utils.py:237 | an address on the list passes the case-insensitive membership test |
| Auth.LowerInIgnoresCase | backend/app/auth_utils.py:237 | two addresses equal up to case get the same answer, and lower-casing first changes nothing |
| Auth.VerifyGoogleToken | backend/app/auth_utils.py:28-52 | accepted exactly when the signature passed, the issuer is Google's and the email ends in "@uci.edu" with that case; the user holds the token's email, its name or "", and its `sub` as the Google id or "" |
| Auth.UpperCaseDomainRefused | backend/app/auth_utils.py:41-43 | "ab@UCI.EDU" is refused while "ab@uci.edu" is accepted |
| Auth.GenerateJwtClaims | backend/app/auth_utils.py:66-71 | the claims carry the user id and email, are issued now and expire 604800 seconds (seven days) later |
| Auth.TokenOf | backend/app/auth_utils.py:126-131 | the header has no token field exactly when splitting on ' ' gives fewer than two fields; a token never holds a space |
| Auth.NoSpaceIsBadFormat | backend/app/auth_utils.py:129-131 | a header without a space is an invalid format |
| Auth.BearerRoundTrip | backend/app/auth_utils.py:128-129 | "<scheme> <token>" gives the token back, whatever the space-free first word is |
| Auth.TokenRequired | backend/app/auth_utils.py:121-154 | every refusal is 401; a header without a second field gets the format error; the route runs exactly when a non-empty token decodes to the id of an existing user, and then with that user |
| Auth.AdminRequired | backend/app/auth_utils.py:173-182 | 401 without a current user, 403 for a user who is not a system administrator; it passes exactly for an administrator |
| Auth.OptionalAuth | backend/app/auth_utils.py:202-222 | the route always runs, with an existing user or none |
| Auth.OptionalAuthAgreesWithTokenRequired | backend/app/auth_utils.py:202-222 | optional_auth identifies a user exactly when token_required lets that user through |
| AuthRoutes.GoogleAuth | backend/app/routes/auth_routes.py:46-118 | no token 400, a refused Google token 401, a known email 200 with a token for that user and no change; then missing fields or a gender outside 0..2 400; an email, name or contact over 100 characters 400 with no change; otherwise a new user whose admin flag is check_is_admin's, 201 with a token for the new id |
| AuthRoutes.RefreshToken | backend/app/routes/auth_routes.py:164-201 | no token 400; the payload is the verified one, or else the unverified decode; the refresh succeeds (200, with claims issued now) exactly when that payload names an existing user, and the claims name that user with their email and are the ones generate_jwt_token issues now, expiring seven days later; otherwise 401 |
| AuthRoutes.ExpiredTokenStillRefreshes | backend/app/routes/auth_routes.py:171-186 | a token that fails verification but decodes without the signature to an existing user is refreshed |
| AuthRoutes.CurrentUser | backend/app/routes/auth_routes.py:204-218 | 200 with a user exactly when token_required lets the request through, 401 otherwise; the user exists |
| AuthRoutes.IssuedTokenIdentifies | backend/app/routes/auth_routes.py:204-218 | a request carrying "<scheme> <token>" for an existing user is answered with that user |
| UserRoutes.NewUserRow | backend/app/routes/user_routes.py:45-51 | the new user holds the sent email, name, gender and contact, and is an administrator only when the body says true |
| UserRoutes.CreateUser | backend/app/routes/user_routes.py:31-56 | missing fields 400, a taken email 409, a field over its String(100) width 400 with no change; otherwise one new user |
| UserRoutes.EditedUser | backend/app/routes/user_routes.py:144-149 | name, gender and preferred contact change when present; email and the administrator flag never do |
| UserRoutes.UpdateUser | backend/app/routes/user_routes.py:137-153 | 404 for an unknown user; an edited name or contact over 100 characters 400 with no change; otherwise the edited user and nothing else |
| UserRoutes.CollectUserOrgs | backend/app/routes/user_routes.py:206-215 | one entry per membership of the user, each carrying its organization's name and the three role flags, and every such entry listed |
| UserRoutes.GetUserOrganizations | backend/app/routes/user_routes.py:202-217 | 404 for an unknown user; otherwise exactly one entry per membership of the user |
| UserRoutes.CollectUserRides | backend/app/routes/user_routes.py:241-246 | one entry per rider row of the user, the ride's fields with the row's comment and joining time, and every such entry listed |
| UserRoutes.GetUserRides | backend/app/routes/user_routes.py:237-248 | 404 for an unknown user; otherwise exactly one entry per rider row of the user |
| UserRoutes.GetUserDriverData | backend/app/routes/user_routes.py:268-275 | 404 for an unknown user or one without a profile; otherwise the one profile the user owns |
| DriverRoutes.NewProfile | backend/app/routes/driver_routes.py:51-57 | the new profile holds the sent user, licence image, vehicle data and plate, is approved only when the body says true, and has no approval time |
| DriverRoutes.CreateDriverData | backend/app/routes/driver_routes.py:33-66 | missing fields 400, an unknown user 404, a second profile for the user 409, a taken image or plate, or an image over 500, vehicle data over 255 or a plate over 10 characters, 400; otherwise one new profile |
| DriverRoutes.EditedProfile | backend/app/routes/driver_routes.py:159-164 | only licence image, vehicle data and plate change, each when its key is present; approval and owner stay |
| DriverRoutes.UpdateDriver | backend/app/routes/driver_routes.py:152-172 | 404 for an unknown profile; a clash with another profile's image or plate, or an edited image, vehicle data or plate wider than its column (500, 255, 10), 400; otherwise the edited profile |
| DriverRoutes.DeleteDriver | backend/app/routes/driver_routes.py:190-207 | 404; 400 while any ride names the profile as its driver; otherwise exactly the profile goes |
| DriverRoutes.ApproveDriver | backend/app/routes/driver_routes.py:232-260 | missing fields 400, an unknown admin 404, a non-administrator 403, an unknown profile 404; otherwise approval set and stamped with the time |
| DriverRoutes.ApprovedParam | backend/app/routes/driver_routes.py:83 | absent means no filter, and only a spelling of "true" in any case filters for approved profiles |
| DriverRoutes.GetAllDrivers | backend/app/routes/driver_routes.py:83-98 | without the parameter every profile is listed; with it only profiles whose approval matches |
| DriverRoutes.GetPendingDrivers | backend/app/routes/driver_routes.py:311-329 | a missing or zero admin id 400, an unknown admin 404, a non-administrator 403; otherwise exactly the unapproved profiles |
| DriverRoutes.PendingIsUnapprovedListing | backend/app/routes/driver_routes.py:83-90 | for an administrator the pending list equals GET /drivers?approved=false, and the approved and unapproved listings split the table |
| DriverRoutes.GetDriverRides | backend/app/routes/driver_routes.py:280-290 | 404 exactly for an unknown profile; otherwise the rides it hosts, all of them without a status, and with one exactly the hosted rides of that status |
| RideRoutes.NewRide | backend/app/routes/ride_routes.py:69-79 | the inserted ride is active, keeps the driver and organization sent, and has max_riders 4 unless the body gives one |
| RideRoutes.CreateRide | backend/app/routes/ride_routes.py:44-98 | the guard order: missing keys 400, unknown driver 404, unapproved driver 403, unknown organization 404, unparsable pickup_time 400; otherwise the ride is inserted and, with no truthy driver_id, the caller becomes its first rider; the store stays consistent |
| RideRoutes.GetRides | backend/app/routes/ride_routes.py:121-151 | every listed ride passes the status and has_driver filters; with a truthy organization_id only that organization's rides, otherwise only rides of no organization |
| RideRoutes.GetRidesUnfilteredIsPublicRides | backend/app/routes/ride_routes.py:138-142 | with no filter the listing is exactly the rides of no organization |
| RideRoutes.RequestsAndPostsPartitionActiveRides | backend/app/routes/ride_routes.py:700-744 | rider requests (no driver) and driver posts (a driver) are disjoint and together make up the active rides |
| RideRoutes.UpdatedRide | backend/app/routes/ride_routes.py:235-259 | an active ride takes each key that is present and keeps every other field; organization_id never changes |
| RideRoutes.UpdateRide | backend/app/routes/ride_routes.py:219-263 | unknown ride 404; a completed ride refuses the frozen keys with 403 and takes only driver_comment; an active ride answers 400 for a malformed pickup_time, 404 or 403 for a truthy driver_id without an approved profile, otherwise takes every key |
| RideRoutes.DeleteRide | backend/app/routes/ride_routes.py:292-306 | unknown ride 404; unless the caller is the driver of a ride without riders or its only rider, 403; otherwise the ride goes with its rider rows and reviews |
| RideRoutes.CompleteRide | backend/app/routes/ride_routes.py:336-359 | 404, 400 without a driver, 404 without its profile, 403 for anyone but that profile's user, 403 when already completed; otherwise only the status becomes completed |
| RideRoutes.JoinRideRider | backend/app/routes/ride_routes.py:399-438 | 404, 400 unless active, 400 when full, 403 for the ride's own driver, 400 when already joined; otherwise one rider row for the caller is added |
| RideRoutes.JoinRideDriver | backend/app/routes/ride_routes.py:478-521 | 404, 400 unless active, 400 when it has a driver, 400 without a profile, 403 unless approved, 403 for one of its riders; otherwise the caller's profile becomes the driver and driver_comment is written when sent |
| RideRoutes.LeaveRide | backend/app/routes/ride_routes.py:553-571 | 404 for an unknown ride or a caller who has not joined; otherwise exactly the caller's rider row is removed |
| RideRoutes.GetRideRiders | backend/app/routes/ride_routes.py:602-617 | 404 for an unknown ride; otherwise one entry per rider row of the ride and each of those rows listed |
| RideSearch.NextDayIsOneMore | backend/app/routes/ride_routes.py:659 | the civil-day count grows by one from a day to the next, whatever the month |
| RideSearch.DayWindow | backend/app/routes/ride_routes.py:657-665 | the window exists exactly for a valid date, starts at the given instant and ends at the start of the next day |
| RideSearch.AsWrittenAgreesBeforeMonthEnd | backend/app/routes/ride_routes.py:659 | before the last day of a month the day+1 window equals the intended one |
| RideSearch.AsWrittenFailsOnMonthEnd | backend/app/routes/ride_routes.py:659 | on the last day of every month the day+1 constructor fails while the intended window exists |
| RideSearch.JanuaryThirtyFirstFails | backend/app/routes/ride_routes.py:658-659 | a search for 2025-01-31 fails as written and has a window as intended |
| RideSearch.SearchRidesAsWritten | backend/app/routes/ride_routes.py:643-676 | the search fails (400) exactly when a date is given on which the day+1 constructor fails |
| RideSearch.SearchRides | backend/app/routes/ride_routes.py:643-676 | the search fails only on an invalid date; otherwise a ride is listed exactly when it has the status (active by default), contains each non-empty address fragment ignoring case, has at least min_seats free seats when min_seats is neither absent nor 0, and has its pickup time in the day window when a date is given |
| RideSearch.ZeroMinSeatsIsNoFilter | backend/app/routes/ride_routes.py:670-671 | a min_seats of 0 lists the same rides as no min_seats |
| RideSearch.AsWrittenAgreesWhenItAnswers | backend/app/routes/ride_routes.py:657-673 | whenever the code as written answers, it answers what the corrected search does |
| OrganizationRoutes.OwnerIsManager | backend/app/routes/organization_routes.py:170-226 | an owner passes the owner-or-admin test, and whoever passes it is a member |
| OrganizationRoutes.OwnerMembership | backend/app/routes/organization_routes.py:57-64 | the creator's membership is owner and admin, not a driver, of the new organization |
| OrganizationRoutes.CreateOrganizationAsWritten | backend/app/routes/organization_routes.py:28-73 | missing fields 400, a taken name 409, an unknown owner 404, and every request that passes these checks 400 with nothing stored, because the row lacks its NOT NULL access_code |
| OrganizationRoutes.CreateOrganization | backend/app/routes/organization_routes.py:28-73 | the same checks in the same order; a row too wide or a code in use 400; otherwise the organization and its owner membership are added in one commit and the store stays consistent |
| OrganizationRoutes.CreatedOrganizationHasOnlyItsOwner | backend/app/routes/organization_routes.py:49-67 | after a creation the new organization's only membership is its owner's, and no other owner row appears |
| OrganizationRoutes.UpdateOrganization | backend/app/routes/organization_routes.py:151-185 | 404, 400 without requesting_user_id, 403 for a non-manager; a clashing name or too-wide row 400; otherwise name and description as sent; owner rows never change |
| OrganizationRoutes.DeleteOrganization | backend/app/routes/organization_routes.py:207-235 | 404, 400 without a truthy requesting_user_id, 403 unless the owner; otherwise the organization, its memberships and its rides' link to it are removed |
| OrganizationRoutes.DeletionKeepsOtherOwners | backend/app/routes/organization_routes.py:228-229 | deleting one organization keeps every other organization's owner rows |
| OrganizationRoutes.AddOrganizationMember | backend/app/routes/organization_routes.py:299-356 | 404, 400 for missing fields, 403 for a non-manager, 404 for an unknown user, 409 for a member; otherwise one non-owner membership with is_admin and is_driver defaulting to false; owner rows never change |
| OrganizationRoutes.RemoveOrganizationMember | backend/app/routes/organization_routes.py:379-424 | 404, 400, 403 for a non-manager, 404 for a non-member, 400 for the owner; otherwise exactly that membership goes; owner rows never change |
| OrganizationRoutes.UpdateMemberRole | backend/app/routes/organization_routes.py:453-508 | 404, 400, 403 for a non-manager, 404 for a non-member, 403 when a non-owner sends is_admin, 400 for the owner's row; otherwise is_admin and is_driver as sent; owner rows never change |
| OrganizationRoutes.CollectDrivers | backend/app/routes/organization_routes.py:529-538 | one entry per driver-flagged member with an approved profile, each of them listed and nothing else |
| OrganizationRoutes.GetOrganizationDrivers | backend/app/routes/organization_routes.py:525-540 | 404 for an unknown organization; otherwise exactly the entries of its driver-flagged members with approved profiles |
| OrganizationRoutes.GetOrganizationRides | backend/app/routes/organization_routes.py:562-573 | 404 exactly for an unknown organization; otherwise the organization's rides: all of them without a status, and with a non-empty one exactly those of that status |
| OrganizationRoutes.OrganizationRidesMatchView | backend/app/routes/organization_routes.py:562-573 | without a status the listing is the ride list of the organization's to_dict |
| ReviewRoutes.CreateReview | backend/app/routes/review_routes.py:40-106 | missing fields 400, stars outside 0.5..5 400, unknown driver 404, unknown ride 404, a ride of another driver 400, a ride not completed 403, a caller who was not its rider 403, a second review 409, a row too wide 400; otherwise one review authored by the caller |
| ReviewRoutes.EditedReview | backend/app/routes/review_routes.py:232-239 | stars and comment are replaced when present; driver, author and ride never change |
| ReviewRoutes.UpdateReview | backend/app/routes/review_routes.py:222-247 | 404, 403 for anyone but the author, 400 for stars out of range before any field is written; otherwise the edited review |
| ReviewRoutes.DeleteReview | backend/app/routes/review_routes.py:273-288 | 404, 403 for anyone but the author; otherwise exactly that review goes |
| ReviewRoutes.GetReviews | backend/app/routes/review_routes.py:131-156 | every listed review passes each supplied filter: driver, author, ride and min_stars inclusive |
| ReviewRoutes.GetReviewsNarrows | backend/app/routes/review_routes.py:139-148 | without filters the whole table is listed, and adding the driver or min_stars filter only drops reviews |
| ReviewRoutes.GetDriverReviewsAsWritten | backend/app/routes/review_routes.py:314-343 | 404 for an unknown driver; a 200 could only carry what the intended handler lists |
| ReviewRoutes.AsWrittenRefusesEveryDriver | backend/app/routes/review_routes.py:336-343 | as written every existing driver answers 400, where the intended handler lists the reviews |
| ReviewRoutes.GetDriverReviews | backend/app/routes/review_routes.py:316-339 | the intended handler: 404 exactly for an unknown driver; total counts all the driver's reviews; the list is exactly those of at least min_stars |
| ReviewRoutes.TotalCoversListing | backend/app/routes/review_routes.py:324-339 | the reported total is never below the number of reviews listed |
| ClientRides.FutureRides | frontend/src/components/JoinRides.tsx:53-56 | keeps exactly the rides whose pickup lies after `now`, each with its multiplicity, and drops all the others |
| ClientRides.SortByPickup | frontend/src/components/JoinRides.tsx:58-62 | after the in-place sort the array is ordered by pickup time, earliest first, and is a permutation of what it held |
| ClientRides.InsertLast | frontend/src/components/JoinRides.tsx:58-62 | moving one element down into a sorted prefix extends the sorted prefix by one and keeps the array's multiset |
| ClientRides.Swap | frontend/src/components/JoinRides.tsx:58-62 | exchanges two cells, leaves every other cell unchanged and keeps the multiset |
| ClientRides.SortedCopy | frontend/src/components/DestinationSearchModal.tsx:69-73 | the sorted list is ordered by pickup time and is a permutation of the input list |
| ClientRides.OwnRideHasOneOwner | frontend/src/components/JoinRides.tsx:161-169 | nobody owns a ride while signed out (no id, or id 0); two users who both own a ride are the same user; a driverless ride with one rider is owned by that rider and nobody else |
| ClientRides.FormatCost | frontend/src/components/JoinRides.tsx:94-105 | the label is either the option itself or one of "Free", "Split Gas", "Gas + Fee" |
| ClientRides.FormatCostIdempotent | frontend/src/components/JoinRides.tsx:94-105 | formatting a formatted label changes nothing |
| ClientRides.LabelsAreFixed | frontend/src/components/JoinRides.tsx:94-105 | each of the three labels formats to itself |
| ClientRides.FormatCostIgnoresCase | frontend/src/components/JoinRides.tsx:94-95 | two spellings of a known option that agree after lower-casing get the same label |
| ClientRides.RiderCount | frontend/src/components/JoinRides.tsx:179-183 | the shown count plus the server's available seats is the ride's capacity; with no seat count it is 0 |
| ClientRides.RiderCountMatchesServer | frontend/src/components/JoinRides.tsx:179-183 | when the server's available seats are capacity minus riders on board, the card shows exactly the number of riders |
| DestinationSearch.DestinationMatches | frontend/src/components/DestinationSearchModal.tsx:62-67 | keeps exactly the rides whose lower-cased destination contains the lower-cased query, each with its multiplicity |
| DestinationSearch.SearchRides | frontend/src/components/DestinationSearchModal.tsx:41-75 | the listed rides are sorted by pickup time and are, with multiplicity, exactly the fetched rides still to come whose destination matches the query |
| DestinationSearch.SearchResultPassesJoinFilter | frontend/src/components/DestinationSearchModal.tsx:62-67 | a ride the destination search finds also passes the JoinRides search box with the same query |
| DestinationSearch.SearchWithinJoinList | frontend/src/components/DestinationSearchModal.tsx:56-67 | the search results are a sub-multiset of the future rides the JoinRides page lists from the same data |
| JoinRides.FetchAllRides | frontend/src/components/JoinRides.tsx:38-64 | the stored list is sorted by pickup time and is, with multiplicity, exactly the fetched driver posts and rider requests still to come |
| JoinRides.FilteredRides | frontend/src/components/JoinRides.tsx:118-127 | keeps exactly the rides matching the query by pickup, destination or driver name, in multiplicity; a blank query keeps the whole list |
| JoinRides.MatchIgnoresCase | frontend/src/components/JoinRides.tsx:119-126 | lower-casing the query first does not change which rides match |
| JoinRides.MatchIffOccurs | frontend/src/components/JoinRides.tsx:121-126 | a non-blank query matches exactly when its lower-cased text occurs at some position of one of the three lower-cased fields |
| JoinRides.FilterKeepsSorted | frontend/src/components/JoinRides.tsx:118-127 | filtering a list sorted by pickup time leaves it sorted |
| JoinRides.FilterSorted | frontend/src/components/JoinRides.tsx:118-127 | any filter keeps a list sorted by pickup time sorted |
| DestinationSearch.QueryEffect | frontend/src/components/DestinationSearchModal.tsx:26-30 | a search replaces the list exactly when the modal is open and the query is not empty; otherwise the list is kept |
| DriverPage.RequestsShown | frontend/src/components/DriverPage.tsx:24-48 | every request shown is still to come, and a ride is shown exactly when it is an enriched request the user does not ride in whose pickup lies after `now` |
| DriverPage.RequestsExcludeOwnSeats | frontend/src/components/DriverPage.tsx:33-47 | with enrichment leaving the list as it is, a request is offered exactly when the user is not among its riders and it is still to come |
| DriverPage.CurrentRides | frontend/src/components/DriverPage.tsx:61-87 | a user without a driver profile id sees no current rides; otherwise exactly the driver's fetched active rides still to come |
| DriverPage.FilteredRides | frontend/src/components/DriverPage.tsx:122-131 | keeps exactly the requests matching the query by pickup, destination or a rider's name; a blank query keeps the whole list |
| DriverPage.RiderNameMatches | frontend/src/components/DriverPage.tsx:129 | a query found in any rider's lower-cased name keeps the request |
| DriverPage.FormatPriceOption | frontend/src/components/DriverPage.tsx:112-120 | the label is the option itself or one of "Free", "Gas Money", "Gas + Fee" |
| DriverPage.PriceLabelsAgree | frontend/src/components/DriverPage.tsx:113-120 | the driver page and the ride pages show "free" and "gas with fee" with the same label |
| DriverPage.GasLabelsDiffer | frontend/src/components/DriverPage.tsx:116 | the driver page shows "gas" as "Gas Money" where the ride pages show "Split Gas" |
| DriverPage.CapitalsLabelledOnlyOnRidePages | frontend/src/components/DriverPage.tsx:119 | the driver page's lookup is case-sensitive: "FREE" keeps its spelling there but is labelled "Free" on the ride pages |
| DriverPage.CardCountAgreesWithRidePages | frontend/src/components/DriverPage.tsx:171 | with the server's rider list and seat count, the driver page's rider count equals the ride pages' count |
| DriverPage.CommentsList | frontend/src/components/DriverPage.tsx:246-250 | no comment shown is empty or the placeholder "No comment"; a ride without a rider list shows none |
| DriverPage.CommentsListIsShownComments | frontend/src/components/DriverPage.tsx:247-249 | mapping to comment-or-placeholder and then dropping placeholders equals taking, rider by rider, each present comment that is neither empty nor the placeholder |
| DriverPage.CommentsListSpec | frontend/src/components/DriverPage.tsx:246-250 | the card's comment list keeps the riders' order and drops exactly the missing, empty and placeholder comments |
| RideForms.DigitPrefix | frontend/src/components/HostRideForm.tsx:92 | the longest prefix of the text made of decimal digits: every character of it is a digit and the next character is not |
| RideForms.ParseInt | frontend/src/components/HostRideForm.tsx:92-93 | parseInt gives a number exactly when, after leading whitespace, the text starts with a digit or with one sign followed by a digit; otherwise NaN |
| RideForms.ShowNat | frontend/src/components/HostRideForm.tsx:22 | a natural number renders as a non-empty string of digits |
| RideForms.ShowNatValue | frontend/src/components/HostRideForm.tsx:92 | the digits of a rendered number have that number as their value |
| RideForms.ParseShown | frontend/src/components/HostRideForm.tsx:92 | parseInt reads back a rendered number whatever non-digit text follows it |
| RideForms.MaxRidersOkShown | frontend/src/components/HostRideForm.tsx:91-96 | a typed count passes the rider check exactly when it is from 1 to 10, and the form's initial "4" passes |
| RideForms.PickupTime | frontend/src/components/HostRideForm.tsx:99 | the pickup time adds exactly the separator 'T' and the seconds ":00" to the date and the time |
| RideForms.PickupTimeSplits | frontend/src/components/HostRideForm.tsx:99 | the date and the time (with seconds) are read back by splitting the pickup time at 'T' |
| RideForms.SentComment | frontend/src/components/HostRideForm.tsx:111 | a blank comment is left out of the request; any other is sent trimmed and non-empty |
| RideForms.SentCommentTrimmed | frontend/src/components/HostRideForm.tsx:111 | trimming a sent comment again changes nothing |
| RideForms.TrimIdempotent | frontend/src/components/HostRideForm.tsx:111 | trimming twice is trimming once |
| RideForms.Validate | frontend/src/components/HostRideForm.tsx:73-112 | an accepted form always carries a rider count from 1 to 10 |
| RideForms.ValidateAccepts | frontend/src/components/HostRideForm.tsx:73-112 | a request is built exactly when every check passes, and it carries the fields as typed, the combined pickup time, the parsed rider count, the user as driver, the organization and the trimmed comment |
| RideForms.ValidateOrder | frontend/src/components/HostRideForm.tsx:73-96 | each error message is shown exactly when its check is the first one to fail, in the order pickup, destination, time and date, login, rider count |
| RideForms.ClubChainIsHostChain | frontend/src/components/OrganizationFunctions.tsx:44-83 | the club form accepts and rejects exactly as the driver form does, and its request is the driver form's with the organization filled in |
| RideForms.SubmitError | frontend/src/components/HostRideForm.tsx:128-139 | a failed post shows the server's message, or the generic one when the server sent none, with "Driver not found" shown as "You are not a driver!"; the message is never empty |
| RideForms.DriverNotFoundNeverShown | frontend/src/components/HostRideForm.tsx:132-137 | the server's "Driver not found" never reaches the user |
| HostRideForm.Form.constructor | frontend/src/components/HostRideForm.tsx:17-31 | the form starts with the default fields (rider count "4", price "free"), an empty comment and counter, no messages, not in an active ride |
| HostRideForm.Form.ActiveRideChecked | frontend/src/components/HostRideForm.tsx:33-43 | the mount check sets the active-ride flag to the server's answer, and a failed check leaves it and everything else as it was |
| HostRideForm.Form.SetPickupAddress | frontend/src/components/HostRideForm.tsx:45-48 | only the pickup address changes |
| HostRideForm.Form.SetDestinationAddress | frontend/src/components/HostRideForm.tsx:50-53 | only the destination address changes |
| HostRideForm.Form.Edit | frontend/src/components/HostRideForm.tsx:20-25 | a date, time, rider-count or price edit changes that field only and keeps the price one of the select's options |
| HostRideForm.Form.SetComment | frontend/src/components/HostRideForm.tsx:55-58 | the comment holds at most 500 characters of what was typed and the counter equals its length |
| HostRideForm.Form.DismissError | frontend/src/components/HostRideForm.tsx:246 | closing the dialog clears the error and nothing else |
| HostRideForm.Form.Submit | frontend/src/components/HostRideForm.tsx:60-143 | a user in an active ride gets that error and nothing is sent; a failed check shows its error and nothing is sent; otherwise the validated request is sent, and success resets the form to its defaults while failure keeps the fields and shows the mapped error |
| HostRideForm.Form.Respond | frontend/src/components/HostRideForm.tsx:73-143 | a rejection is shown without sending; an accepted request is sent and the outcome handled as in Submit |
| HostRideForm.Form.Post | frontend/src/components/HostRideForm.tsx:101-142 | success shows the success text and resets the form; failure shows the mapped error and keeps the fields; nothing is left loading |
| HostRideForm.Form.ClearForm | frontend/src/components/HostRideForm.tsx:117-127 | the fields return to their defaults and the counter to 0, and nothing else changes |
| OrganizationFunctions.ClubRideForm.constructor | frontend/src/components/OrganizationFunctions.tsx:14-31 | the club form starts with the default fields, no messages and no callback made |
| OrganizationFunctions.ClubRideForm.Edit | frontend/src/components/OrganizationFunctions.tsx:127-192 | an address, date, time, rider-count or price edit changes that field only |
| OrganizationFunctions.ClubRideForm.SetComment | frontend/src/components/OrganizationFunctions.tsx:33-36 | the comment holds at most 500 characters of what was typed and the counter equals its length |
| OrganizationFunctions.ClubRideForm.DismissError | frontend/src/components/OrganizationFunctions.tsx:239 | closing the dialog clears the error and nothing else |
| OrganizationFunctions.ClubRideForm.Submit | frontend/src/components/OrganizationFunctions.tsx:38-117 | a failed check shows its error and sends nothing; otherwise the request carries the organization's id, and success shows the text, calls onRideCreated once if given and resets the form, while failure keeps the fields and shows the mapped error |
| OrganizationFunctions.ClubRideForm.Respond | frontend/src/components/OrganizationFunctions.tsx:43-117 | a rejection is shown without sending; an accepted request is sent and the outcome handled as in Submit |
| OrganizationFunctions.ClubRideForm.Post | frontend/src/components/OrganizationFunctions.tsx:71-116 | success shows the text, makes the callback once if there is one and resets the form; failure shows the mapped error and keeps the fields |
| JoinOrganization.TypedAccessCode | frontend/src/components/JoinOrganization.tsx:98-103 | the box holds the first six typed characters (fewer if fewer were typed), each upper-cased |
| JoinOrganization.TypedAccessCodeStable | frontend/src/components/JoinOrganization.tsx:102-103 | typing back what the box shows leaves it unchanged |
| JoinOrganization.TypedAccessCodeUpper | frontend/src/components/JoinOrganization.tsx:102 | the box never holds a lower-case letter |
| JoinOrganization.JoinError | frontend/src/components/JoinOrganization.tsx:57-73 | a server message mentioning "not found" or "already a member" is reworded and any other is shown as is; without a message a 401 asks the user to log in, and everything else gets the generic text; the message is never empty |
| JoinOrganization.MessageOutranksStatus | frontend/src/components/JoinOrganization.tsx:58-70 | with a server message the status does not change what is shown |
| JoinOrganization.CheckedCode | frontend/src/components/JoinOrganization.tsx:19-37 | a blank code gets the enter-a-code error, a trimmed length other than six the length error, and only a trimmed length of six is sent, as the trimmed code, which is the whole box when the box holds at most six characters |
| JoinOrganization.JoinOrganizationForm.constructor | frontend/src/components/JoinOrganization.tsx:10-14 | the form starts with an empty box, no messages and no notice sent |
| JoinOrganization.JoinOrganizationForm.Type | frontend/src/components/JoinOrganization.tsx:98-103 | the box holds TypedAccessCode of the input and nothing else changes |
| JoinOrganization.JoinOrganizationForm.Submit | frontend/src/components/JoinOrganization.tsx:16-77 | a refused code sets its error and sends nothing; otherwise the box is sent, and a join shows the organization's name, clears the box and notifies the parent once, while a failure shows JoinError and keeps the box |
| JoinOrganization.JoinOrganizationForm.SuccessTimerFired | frontend/src/components/JoinOrganization.tsx:49-52 | the timer clears the success text and nothing else |
| JoinOrganization.JoinOrganizationForm.DismissError | frontend/src/components/JoinOrganization.tsx:138 | closing the dialog clears the error and nothing else |
| AppShell.InitialPage | frontend/src/App.tsx:12-21 | with nothing saved the page is ABOUT, and any other page is chosen only when the saved entry is exactly its name |
| AppShell.RestoreRoundTrip | frontend/src/App.tsx:14-26 | a page saved to local storage is restored as the same page |
| AppShell.RenderPage | frontend/src/App.tsx:51-83 | the spinner shows exactly while loading; once loaded, the active page's own component shows exactly when the navigation guard would let this session open it (a session, and for DRIVER a user whose is_driver is true), and the About page shows otherwise |
| AppShell.App.constructor | frontend/src/App.tsx:10-33 | after mounting, the stored entry names the active page, which is the restored page with a session and ABOUT without one |
| AppShell.App.RunEffects | frontend/src/App.tsx:23-33 | the effects save the page, move a signed-out user to ABOUT, and leave the session fields alone |
| AppShell.App.SetActivePage | frontend/src/App.tsx:35-49 | the page changes exactly when the navigation is allowed (signed in or going to ABOUT, and DRIVER only for a driver) and is saved; otherwise it stays |
| AppShell.App.SessionChanged | frontend/src/App.tsx:28-33 | when the session changes, signing out moves the page to ABOUT and a live session keeps it, and the stored entry follows |
| AppShell.App.View | frontend/src/App.tsx:51-83 | the app renders the spinner exactly while loading, else the active page when the guard allows it for the current user and the About page otherwise; a signed-in app off the DRIVER page always shows its active page, a signed-out one the About page |
| AppShell.DriverViewNeedsDriver | frontend/src/App.tsx:43-46 | the driver view is rendered only when navigating to DRIVER is allowed, and a loaded DRIVER page the guard allows always renders it |
| AppShell.ShownIffAllowed | frontend/src/App.tsx:61-79 | a loaded page other than ABOUT shows its own component exactly when the navigation guard allows it, and the About page otherwise |
| Cookies.Find | frontend/ZotRide/src/services/api.ts:15-24 | a value is found exactly when some cookie in the jar carries the name |
| Cookies.LeadingSpacesStripped | frontend/ZotRide/src/services/api.ts:20 | the result is a suffix of the entry that does not start with a space |
| Cookies.CookieGet | frontend/ZotRide/src/services/api.ts:15-24 | the two loops return the rest of the first `;`-separated entry that, without its leading spaces, starts with `name=`, or nothing |
| Cookies.StripLeadingSpaces | frontend/ZotRide/src/services/api.ts:20 | the loop removes exactly the leading spaces |
| Cookies.PairStartsWith | frontend/ZotRide/src/services/api.ts:21 | a stored pair starts with `name=` exactly when the cookie is called `name`, so no other cookie is taken for it |
| Cookies.LookupSkipsSpace | frontend/ZotRide/src/services/api.ts:18-21 | the space after a "; " separator does not change what the lookup finds |
| Cookies.LookupRendered | frontend/ZotRide/src/services/api.ts:15-24 | reading a well-formed jar's cookie-string back finds exactly the value stored under the name, and nothing for a name not stored |
| Cookies.Upsert | frontend/ZotRide/src/services/api.ts:9-13 | storing a cookie keeps the jar's length or adds one entry |
| Cookies.Remove | frontend/ZotRide/src/services/api.ts:26-28 | the jar keeps only cookies it held, none of them with the removed name |
| Cookies.UpsertFind | frontend/ZotRide/src/services/api.ts:9-13 | after storing, the name reads back the new value and every other name reads what it did before |
| Cookies.RemoveFind | frontend/ZotRide/src/services/api.ts:26-28 | after a delete, the name reads nothing and every other name reads what it did before |
| Cookies.UpsertKeepsJarOk | frontend/ZotRide/src/services/api.ts:9-13 | storing a well-formed cookie keeps the jar well formed, one cookie per name |
| Cookies.UpsertNames | frontend/ZotRide/src/services/api.ts:9-13 | after storing, every name in the jar is the stored name or one the jar already held |
| Cookies.RemoveKeepsJarOk | frontend/ZotRide/src/services/api.ts:26-28 | a delete keeps the jar well formed and only keeps cookies it held |
| Cookies.SetCookiePair | frontend/ZotRide/src/services/api.ts:12 | the text set writes carries `name=value` before its first ';' and ends with the path and SameSite attributes |
| Cookies.DeleteCookiePair | frontend/ZotRide/src/services/api.ts:27 | the text delete writes carries `name=` with an empty value and an expiry at the epoch |
| Cookies.Browser.constructor | frontend/ZotRide/src/services/api.ts:8-29 | a new tab starts with an empty, well-formed jar |
| Cookies.Browser.Get | frontend/ZotRide/src/services/api.ts:15-24 | get returns exactly the value the jar holds under the name |
| Cookies.Browser.Set | frontend/ZotRide/src/services/api.ts:9-13 | writes the set text with the expiry `days` days after now; a positive count stores the cookie and any other count removes it |
| Cookies.Browser.Delete | frontend/ZotRide/src/services/api.ts:26-28 | writes the delete text and removes the cookie |
| Cookies.Browser.RequestAuthorization | frontend/ZotRide/src/services/api.ts:40-49 | the header added is the one AuthorizationFor gives for the stored token |
| Cookies.Browser.OnResponseError | frontend/ZotRide/src/services/api.ts:52-63 | a 401 removes the token and the user cookie; every error is still rejected |
| Cookies.Browser.GetToken | frontend/ZotRide/src/services/api.ts:101 | returns the stored token |
| Cookies.Browser.SetToken | frontend/ZotRide/src/services/api.ts:103-105 | stores the token under `jwt_token` |
| Cookies.Browser.RemoveToken | frontend/ZotRide/src/services/api.ts:107-109 | removes the token cookie only |
| Cookies.Browser.GetUser | frontend/ZotRide/src/services/api.ts:111-119 | returns what StoredUser gives: null without a non-empty cookie or when decoding fails |
| Cookies.Browser.SetUser | frontend/ZotRide/src/services/api.ts:121-123 | stores the encoded user under `user` |
| Cookies.Browser.RemoveUser | frontend/ZotRide/src/services/api.ts:125-127 | removes the user cookie only |
| Cookies.Browser.ClearAuth | frontend/ZotRide/src/services/api.ts:129-132 | removes both the token and the user cookie |
| Cookies.AuthorizationFor | frontend/ZotRide/src/services/api.ts:42-45 | a header is added exactly when the token is present and not empty |
| Cookies.StoredUser | frontend/ZotRide/src/services/api.ts:111-119 | a user is returned only when a user cookie is stored |
| Cookies.HeaderCarriesToken | frontend/ZotRide/src/services/api.ts:42-45 | the server takes the client's `Bearer` header apart into the same token |
| Cookies.UserRoundTrip | frontend/ZotRide/src/services/api.ts:111-123 | setUser then getUser gives the user back when decoding undoes encoding, even after the token is set |
| Cookies.ClearedSessionIsEmpty | frontend/ZotRide/src/services/api.ts:55-59 | after a 401 or clearAuth no token is stored, no Authorization header is sent and getUser gives null |

## Left out

- HTTP plumbing is not modelled: request parsing, JSON encoding, blueprint registration and CORS. A handler's inputs are parameters; an absent key is `None`.
- The catch-all `except Exception` paths, which roll back and answer 400, are modelled only where this model can name the failure. These are a violated column constraint at commit, a malformed `pickup_time`, and an invalid search date. Database outages and other runtime errors are not modelled.
- Pagination (`limit`, `offset`) and the row order of the listing routes are not modelled: listings are sets of primary keys.
- RideSearch.SearchRides: `%` and `_` typed into an address fragment are not treated as ILIKE wildcards; the fragment is matched as plain text.
- Signature checking is not modelled. Google ID-token verification (google-auth) and JWT signing and decoding (PyJWT, HS256) are parameters that map a token to its claims, or to nothing.
- Clocks become a `now` parameter. Instants are integers: seconds on the backend, milliseconds on the client. ISO-8601 parsing and printing, time zones and the client's locale formatting (`toLocaleTimeString`, `toLocaleDateString`) are not modelled.
- Stars are Dafny `real`s; floating-point rounding is not modelled.
- The remaining read-only routes are not modelled, because they only look a row up or list a table:
  - `get_users` and `get_user`;
  - `get_organizations`, `get_organization` and `get_organization_members`;
  - `get_driver`, `get_ride`, `get_review`;
  - `get_ride_reviews`, `get_user_authored_reviews`;
  - the response text of `verify_token`.
- `delete_user` is not modelled. backend/app/models/user.py:20-24 cascades the deletion to the user's driver profile, rider rows, memberships and authored reviews. The profile's deletion cascades further to its hosted rides (driver_data.py:23), and what a ride's deletion then does to its rider rows and reviews is declared in backend/app/models/ride.py, which is not part of this model.
- ReviewRoutes.GetDriverReviews: models the evidently intended handler, where `DriverData.reviews` is the set of reviews naming the profile. The `average_rating` it would also report is not modelled, because no file defines it (see "## Findings").
- ReviewRoutes.GetDriverReviewsAsWritten: assumes the reverse relationship `DriverData.reviews` that backend/app/models/review.py:17 declares through `back_populates='reviews'`. As written, driver_data.py declares no such property, so SQLAlchemy's mapper configuration fails on the first database access. Every route would then fail, `token_required` answering 401 before this handler runs. The model, like the rest of the backend model, takes the relationships the models declare as existing.
- Store.MembershipOf: relies on the unique (user_id, organization_id) pair that backend/app/models/user_organization_data.py:11 means to declare. As written, `__table_args__` is a bare `UniqueConstraint` rather than a one-element tuple (the trailing comma is missing), which SQLAlchemy refuses when the class is defined.
- The `to_dict` views of drivers, reviews and rider records copy their columns and are not modelled beyond the row datatypes.
- Access-code generation and the join-by-code route are not part of this model. The client form that calls that route is modelled, with the call's outcome as a parameter.
- backend/app/models/ride.py is not part of this model. It does not match how the routes use a ride (no status, organization or comment column). The ride row is taken from the routes, with status `active` on creation.
- RideRoutes.GetRides: the contract states that every listed ride passes each filter, but not that every passing ride is listed. The converse is proved only for the unfiltered listing (`GetRidesUnfilteredIsPublicRides`), because in general it would repeat the query itself.
- ReviewRoutes.GetReviews: states that every listed review passes each supplied filter; that no matching review is left out is stated only through `GetReviewsNarrows` and `GetDriverReviews`, for the same reason.
- DriverRoutes.GetAllDrivers: with the `approved` parameter only the agreement of each listed profile is stated; the converse is proved through `PendingIsUnapprovedListing`.
- The frontend service calls are not part of this model: `rideAPI`, `organizationAPI`, `authAPI`, `driverAPI` and `enrichRidesWithNames`. Their results are parameters, including the name enrichment as a function on ride lists. Loading flags and a failed fetch's message on the ride pages are not modelled.
- ClientRides.SortByPickup is an insertion sort, which is stable. `Array.prototype.sort` is also stable, but the proof states only sortedness and permutation, not the order of rides with equal pickup times.
- DriverPage.FormatPriceOption: a price option named like an inherited object property (for example `constructor`) would return that property in the source; the model returns the option itself.
- Browser behaviour is assumed, not modelled. The assumption follows sections 5.2 to 5.4 of RFC 6265: a cookie written with an expiry in the past is removed, one of the same name is replaced in place, and reading `document.cookie` gives `name=value` pairs joined by `"; "`. Cookie values are assumed to hold no `;` and no space, which holds for a JWT and for `encodeURIComponent` output.
- AuthContext, the UI markup and styling, the address autocomplete and the map are not modelled.
- HostRideForm.Form.SetPickupAddress: the `onPickupChange` and `onDestinationChange` callbacks to the parent page are not modelled.
- OrganizationFunctions.ClubRideForm.Post: that `onRideCreated` runs before the form reset is visible in the method's body but not in its contract, since the callback's effect lies outside the form.
- Case folding (`toLowerCase`, `toUpperCase`, Python `lower`) is modelled on ASCII letters only. JavaScript's `trim` is modelled on ASCII whitespace, the no-break space and the byte-order mark; the other Unicode space separators are not modelled.
- The active-ride check `rideAPI.isUserInActiveRide` is not part of this model; its answer is a parameter of `HostRideForm.Form.ActiveRideChecked`.
- Concurrency is not modelled: every request runs alone, so two joins racing for the last seat do not occur.

## Findings

| source | as written | input that shows it | evidently intended | confidence | as-written member | corrected member |
|---|---|---|---|---|---|---|
| backend/app/models/organization.py:19-31 | `access_code` is declared NOT NULL, but the constructor never sets it and `create_organization` never assigns it, so every creation fails at commit and answers 400 | POST /organizations with a new name and an existing owner | the route gives each new organization a unique six-character access code | not executed | OrganizationRoutes.CreateOrganizationAsWritten | OrganizationRoutes.CreateOrganization |
| backend/app/routes/ride_routes.py:657-659 | the end of the searched day is built as `datetime(year, month, day + 1)`, which raises on the last day of a month, so the search answers 400 | GET /rides/search?date=2025-01-31 | the window ends at the start of the next calendar day (`date + timedelta(days=1)`) | not executed | RideSearch.SearchRidesAsWritten | RideSearch.SearchRides |
| backend/app/routes/review_routes.py:336-343 | the response reads `driver.average_rating`, which DriverData (backend/app/models/driver_data.py:10-46) does not declare and no file defines, so the AttributeError is caught and every existing driver answers 400 | GET /drivers/1/reviews for an existing profile 1 | the response lists the driver's reviews with their count, `DriverData.reviews` being the reviews that name the profile | not executed | ReviewRoutes.AsWrittenRefusesEveryDriver | ReviewRoutes.GetDriverReviews |
