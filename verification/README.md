# A Dafny model of the geopharm marketplace core

The repository is an Express/MySQL marketplace: clients search for a drug
near them, pharmacies manage their inventory and orders, admins approve the
pharmacies that register. Most of it is CRUD. This project models the pure,
deterministic logic threaded through that CRUD and proves what it promises.

- **Delivery tiers and geometry.** Delivery fee and time by distance tier,
  coordinate ranges, Nigerian phone validation and normalisation, order and
  inventory sums, the map bounding box, map markers, delivery zones, and the
  radius filter and distance sort of the nearby-pharmacy helper
  (`Calculations`, `Geolocation`).
- **Search, stock labels and grouping.** Case-insensitive matching, the
  three availability labels and the two low-stock thresholds (`Stock`), the
  browser-side data manager (`PharmacyData`), the fold of flat
  (pharmacy, drug) rows into one group per pharmacy (`Grouping`), the sorts
  (`Sorting`), and the search handlers that use them (`ClientRoutes`,
  `DrugsRoutes`, `SearchRoutes`, `PharmacyDb`).
- **Parameterised SQL builders.** A query is a list of clauses, each with
  its text, its `?` placeholders and the values bound to them (`Sql`). Every
  builder in `DrugModel`, `PharmacyModel`, `UserModel`, `Reports` and
  `AdminPharmacy` is proved to bind each placeholder to the intended value,
  in order. The field-whitelist UPDATE builder is shared by the three models;
  its contract also states the column each `key = ?` clause names.
- **Guards and status machines.** The order, pharmacist, admin and
  pharmacy-registration routes are decision functions. Each returns the
  HTTP status and message, or what the route goes on to do (`Orders`,
  `Pharmacist`, `Admin`, `PharmacyRegistration`).

JavaScript semantics the code relies on are written out in `Js`:
truthiness, `a || b`, and `===` on request values. `Http` holds the status
codes. `Text` holds trimming, ASCII lower-casing, splitting and
containment. `Tally` counts occurrences.

The model follows the code, including where routes disagree with one
another. These disagreements are kept as separate definitions and proved
to differ:

- the low-stock flag (`< 10`), the low-stock label (`< 20`) and the
  low-stock query (`<= 20`);
- the delivery zones, which end at 15 km, and the fee tiers, which do not;
- the two cancel rules;
- the terminal-status guard, which the order route has and the pharmacist
  and admin routes lack;
- the approval through the admin route (pending only) and through the
  registration status route (any status).

The search orderings are modelled per route, as each route writes them,
rather than as one ranking policy.

## Model

| member | source | states |
|---|---|---|
| Stock.StockStatus | public/js/pharmacy-data.js:109-113 | 'Out of Stock' exactly for 0, 'In Stock' exactly from 20 up, and 'Low Stock (n left)' with the count written out for every other quantity, negative ones included |
| Stock.FlagImpliesLabel | utils/calculations.js:135-137 | every positive quantity the low-stock flag (< 10) selects also carries the low-stock label (< 20) |
| Stock.FlagAndLabelDisagree | utils/calculations.js:135-137 | quantities 10 to 19 are labelled low but not flagged low |
| Stock.QueryAndLabelDisagree | models/Drug.js:326-333 | the low-stock query with its default threshold returns stock 20, which the label calls 'In Stock' |
| Calculations.DeliveryFee | utils/calculations.js:16-26 | the fee is 500 up to 2 km, 1500 beyond 10 km and between the two in between; FeeAndTimeByTier pins every tier exactly |
| Calculations.DeliveryTime | utils/calculations.js:29-39 | the time is one of the four tier texts |
| Calculations.FeeAndTimeByTier | utils/calculations.js:16-39 | fee and time are both the entry of the same tier, the tier being the number of inclusive limits 2, 5, 10 the distance exceeds |
| Calculations.FeeMonotone | utils/calculations.js:16-26 | a larger distance never gets a smaller fee or a lower tier |
| Calculations.FeeTimeSameTier | utils/calculations.js:16-39 | two distances get the same fee if and only if they get the same time |
| Calculations.FormatNigerianPhone | utils/calculations.js:71-91 | the digits of the input: with a leading 0, '+234' and the digits after it; else with a leading 234, '+' and the digits; otherwise the input unchanged |
| Calculations.ValidCoordinatesBox | utils/calculations.js:47-49 | coordinates are valid exactly when |lat| ≤ 90 and |lng| ≤ 180, the bounds themselves included |
| Calculations.ValidPhoneForms | utils/calculations.js:65-68 | a phone is valid exactly when it is '+234' or '0' followed by 7, 8 or 9, then 0 or 1, then eight digits (14 or 11 characters), so its last ten characters are digits |
| Calculations.FormatIdempotent | utils/calculations.js:71-91 | formatting a formatted phone changes nothing, for every input |
| Calculations.FormatValid | utils/calculations.js:65-91 | every phone matching `(+234|0)[789][01]` plus eight digits formats to "+234" and its last ten digits |
| Calculations.SubtotalConcat | utils/calculations.js:94-96 | subtotal and item count of a concatenation are the sums of the parts |
| Calculations.OrderSummary | utils/calculations.js:94-103 | the loop's subtotal is Σ unit price · quantity and its count Σ quantity |
| Calculations.StockValueConcat | utils/calculations.js:128-132 | the inventory value of a concatenation is the sum of the parts' values |
| Calculations.InventoryValue | utils/calculations.js:128-132 | the loop's total is Σ quantity · price |
| Calculations.LowStockItems | utils/calculations.js:135-137 | exactly the items with quantity below 10 are kept |
| Calculations.LowStockCons | utils/calculations.js:135-137 | an item put in front of the inventory is put in front of the low-stock list exactly when it is flagged |
| Calculations.LowStockConcat | utils/calculations.js:135-137 | the filter distributes over concatenation, so it keeps the input order |
| Calculations.AverageRating | utils/calculations.js:113-117 | 0 for a missing or empty list, otherwise within 0.05 of the mean |
| Calculations.AverageInScale | utils/calculations.js:113-117 | ratings between 1 and 5 average, after rounding, to a value between 1 and 5 |
| Calculations.ProfitMargin | utils/calculations.js:140-143 | 0 when the cost is 0, otherwise within 0.5 of the percentage margin |
| Calculations.MarginNonNegative | utils/calculations.js:140-143 | selling at or above a positive cost never gives a negative margin |
| Calculations.ExpiringSoon | utils/calculations.js:120-125 | true exactly when the expiry lies after one day before now and at most 30 days after now; rounding up lets items expired less than a day ago count |
| Geolocation.MapBounds | utils/geolocation.js:213-240 | nothing for a missing or empty list; otherwise every point lies in the box, each of the four bounds is attained by some point, and the centre is the box midpoint |
| Geolocation.CenterOfValidPoints | utils/geolocation.js:235-238 | the midpoint of a box spanned by valid coordinates is itself valid |
| Geolocation.Markers | utils/geolocation.js:243-272 | one pharmacy marker per site in site order; with a user location exactly one user marker, at index 0, and length n + 1 |
| Geolocation.DeliveryZones | utils/geolocation.js:276-288 | four zones of radii 2, 5 and 10 km (the fee tiers' limits) and 15 km, the fee and time tables' entries, all centred on the pharmacy |
| Geolocation.ZonesAgreeWithTiers | utils/geolocation.js:276-282 | the fee and time computed for each zone's radius are the zone's own fee and time |
| Geolocation.ZonesStopShortOfFees | utils/geolocation.js:281 | beyond 15 km no zone applies, yet the fee is still 1500 |
| Geolocation.ValidateAndFormatCoordinates | utils/geolocation.js:191-209 | success if and only if both values parse and lie in range, carrying the parsed values; otherwise the invalid-coordinates error |
| Geolocation.CalculateRoute | utils/geolocation.js:109-147 | the service's route, no route when it has none, and on an error a fallback whose duration is twice the straight-line distance |
| Geolocation.Eta | utils/geolocation.js:166-168 | the route's duration rounded up, or twice the distance rounded up without a route, followed by " minutes" |
| Geolocation.EtaFallbackAgrees | utils/geolocation.js:136-168 | after a routing error the estimate equals the one given with no route at all |
| Geolocation.Candidates | utils/geolocation.js:154-172 | the kept entries are exactly those of sites with truthy coordinates within the radius; order and multiplicity are fixed by the two lemmas below |
| Geolocation.CandidatesConcat | utils/geolocation.js:154-172 | the candidates of a concatenation are the candidates of each part, in order |
| Geolocation.CandidatesOfOne | utils/geolocation.js:154-172 | one site gives one entry when it is locatable and within the radius, none otherwise |
| Geolocation.NearbyWithRoute | utils/geolocation.js:150-180 | a permutation of the candidates (the locatable sites within the radius, 10 by default), each within it, sorted by non-decreasing distance |
| Geolocation.KeptWithinRadius | utils/geolocation.js:158 | every kept entry's distance is at most the radius |
| Geolocation.DistanceOrder | utils/geolocation.js:175 | results sorted by the distance key have non-decreasing distances |
| PharmacyData.PharmacyHits | public/js/pharmacy-data.js:49-73 | the results are exactly the hits of matching drugs of the pharmacy; the lemmas below make it one result per matching drug, in inventory order |
| PharmacyData.PharmacyHitsConcat | public/js/pharmacy-data.js:53-72 | the results of a split inventory are the results of each part, one after the other |
| PharmacyData.PharmacyHitsOfOne | public/js/pharmacy-data.js:53-72 | one drug gives one result when it matches and none otherwise |
| PharmacyData.AllHits | public/js/pharmacy-data.js:48-75 | the results are exactly the (pharmacy, matching drug) pairs; the lemmas below make them pharmacy by pharmacy, each pharmacy's in inventory order |
| PharmacyData.AllHitsConcat | public/js/pharmacy-data.js:48-75 | the results of a split pharmacy list are the results of each part, one after the other |
| PharmacyData.AllHitsOfOne | public/js/pharmacy-data.js:48-75 | one pharmacy's results are its own inventory's results |
| PharmacyData.NoMatchNoHit | public/js/pharmacy-data.js:54 | every result comes from a pharmacy whose inventory holds that matching drug |
| PharmacyData.SearchDrugInPharmacies | public/js/pharmacy-data.js:44-87 | a permutation of all (pharmacy, matching drug) results, the term lower-cased and trimmed, sorted in-stock first and then by distance |
| PharmacyData.InStockFirst | public/js/pharmacy-data.js:78-83 | every 'In Stock' result precedes every other one |
| PharmacyData.DistanceWithinClass | public/js/pharmacy-data.js:85 | within one availability class distance does not decrease |
| PharmacyData.PharmacyById | public/js/pharmacy-data.js:90-92 | nothing when no pharmacy has the id, otherwise the first one that has it |
| PharmacyData.PharmacyInventory | public/js/pharmacy-data.js:95-98 | [] for an unknown id, otherwise the found pharmacy's inventory |
| PharmacyData.AllCategories | public/js/pharmacy-data.js:130-138 | strictly increasing, so free of duplicates, and holding exactly the categories present |
| PharmacyData.AllDrugNames | public/js/pharmacy-data.js:141-149 | strictly increasing and holding exactly the drug names present |
| PharmacyData.SuggestionAdds | public/js/pharmacy-data.js:156-165 | a string is added exactly when it is the name or the category of a drug and contains the term |
| PharmacyData.SearchSuggestions | public/js/pharmacy-data.js:152-168 | min(5, number of distinct candidates) distinct strings, each a name or category containing the query case-insensitively, a prefix of the first-added order |
| PharmacyData.SuggestionsComplete | public/js/pharmacy-data.js:167 | with at most five candidates every one is suggested |
| ClientRoutes.SearchLocation | routes/client.js:45-61 | 400 'Drug name is required' for a falsy name; otherwise success exactly when the query coordinate or else the profile coordinate is truthy for both axes, a truthy query coordinate winning; 400 'Location is required…' otherwise |
| ClientRoutes.ProfileLocationSuffices | routes/client.js:52-61 | a client with a stored location may search without giving coordinates |
| ClientRoutes.QueryLocationWins | routes/client.js:52-54 | with both query coordinates given, the stored profile makes no difference |
| ClientRoutes.CreateOrderTotals | routes/client.js:300-375 | 400 exactly when the body checks fail; otherwise one priced line per requested item with unit price 1000 and total = unit price · quantity, the order total Σ line totals plus the fee, i.e. 1000 · Σ quantity plus the fee, the fee and the estimate taken from the distance only when the client has a stored location, else 0 and '45-60 minutes' |
| ClientRoutes.CancelDecision | routes/client.js:393-416 | 404 exactly without an order, 403 exactly for another client's order, 200 exactly for the client's own pending or confirmed order, 400 otherwise |
| DrugsRoutes.CategoryFilter | routes/drugs.js:16-22 | without a category every drug; with one, exactly the drugs whose category equals it ignoring case, never more than were given; the lemmas below keep catalogue order |
| DrugsRoutes.CategoryFilterSnoc | routes/drugs.js:16-22 | a drug appended to the catalogue is appended to a category's list exactly when it is in the category |
| DrugsRoutes.CategoryFilterConcat | routes/drugs.js:16-22 | filtering a concatenation filters each part, in order |
| DrugsRoutes.CategoryFilterOfOne | routes/drugs.js:16-22 | one drug is kept exactly when no category is asked for or it is in the category |
| DrugsRoutes.CategoryFilterIgnoresCase | routes/drugs.js:74-79 | two category spellings that differ only in case select the same drugs in the same order |
| DrugsRoutes.SearchDrugs | routes/drugs.js:62-104 | 400 'Search query is required' exactly for an empty query; otherwise total_found counts every category match and the listed drugs are a prefix of them, as long as `slice(0, limit)` makes it |
| Js.SliceEnd | routes/drugs.js:82 | where `slice(0, end)` stops: within the list, counting back from the length for a negative end, clamped to 0 and the length |
| Js.ToInteger | routes/drugs.js:82 | a number rounds toward zero, text converts through the string-to-number conversion, and what is not a number is 0 |
| Js.Truncate | routes/drugs.js:82 | the integer has the number's sign and lies less than one from it, toward zero |
| DrugsRoutes.LimitOnlyTruncates | routes/drugs.js:81-102 | a non-negative limit (20 when absent) shortens the list but not the count, and the list is complete exactly when the count fits in the limit |
| DrugsRoutes.NegativeLimitDropsTail | routes/drugs.js:62-82 | a negative limit drops that many matches from the end, and a limit that is not a number shows none |
| DrugsRoutes.AvailableArea | routes/drugs.js:119-144 | 400 'Drug name is required', then 400 'Location coordinates are required' for a falsy coordinate, then 400 when a value does not parse; success exactly when all are present and parse, carrying the parsed coordinates and the parsed radius (the parse of 10 when absent) |
| DrugsRoutes.CategoryNames | routes/drugs.js:215 | no duplicates, and exactly the non-empty categories present |
| DrugsRoutes.NonEmptyCategories | routes/drugs.js:215 | exactly the drugs' non-empty categories, at most one per drug |
| DrugsRoutes.CategoryDescription | routes/drugs.js:241-254 | a known category's own description; the generic 'Medication category' exactly for an unknown one |
| DrugsRoutes.CategoryList | routes/drugs.js:215-221 | one entry per distinct category, in order, each with its description and the number of drugs of that category |
| DrugsRoutes.CountsCoverCategorised | routes/drugs.js:215-221 | the per-category counts add up to the number of drugs with a category |
| DrugsRoutes.CategoryCountsSum | routes/drugs.js:215-227 | the drug counts listed add up to the number of categorised drugs |
| SearchRoutes.SearchMode | routes/search.js:9-21 | 400 'Drug name is required' exactly for a falsy drug; otherwise the location branch exactly when both coordinates are truthy |
| SearchRoutes.LocationQuery | routes/search.js:27-61 | every placeholder bound: eight of them, taking latitude, longitude, latitude, `%drug%`, latitude, longitude, latitude, radius in that order |
| SearchRoutes.LocationGroups | routes/search.js:63-92 | one group per pharmacy in order of first row, each holding exactly its pharmacy's drugs; rows ordered by distance give groups ordered by distance |
| SearchRoutes.NameGroups | routes/search.js:96-131 | the grouping of the drugs whose pharmacy exists and is approved, and only approved pharmacies appear |
| SearchRoutes.SuggestionQuery | routes/search.js:192-213 | no query for an absent q or one under two characters; otherwise a fully bound query whose only argument is `%q%` |
| Grouping.GroupRowsDescribes | routes/client.js:66-98 | the reduce yields one group per pharmacy id in order of first appearance, each exactly the group of that pharmacy's rows |
| Grouping.GroupRowsTotal | routes/client.js:83-95 | every row's drug is placed once: the groups hold as many drugs as there were rows |
| Grouping.GroupsFollowRowOrder | routes/search.js:63-92 | rows already ordered by distance give groups in distance order, since each group takes its first row's distance |
| Grouping.GroupsAreDescribed | routes/drugs.js:149-184 | as many groups as distinct pharmacy ids, each the group of its pharmacy's rows |
| Grouping.SortByDistance | routes/client.js:100 | a permutation of the groups in non-decreasing distance, equal distances in ascending pharmacy id |
| Grouping.GroupAndSortCovers | routes/drugs.js:149-186 | every row's drug appears in some group of its pharmacy after sorting |
| Grouping.GroupedResponse | routes/client.js:66-109 | the pharmacies are the groups of the rows, sorted by distance, and total_pharmacies is their number, the number of distinct pharmacy ids |
| Grouping.GroupedResponseListsEveryRow | routes/client.js:66-109 | no search result is lost: each row's drug is listed under its pharmacy |
| Grouping.GroupWithLookupIsGroupRows | routes/search.js:99-129 | the lookup loop equals grouping the rows whose pharmacy exists and is admitted |
| PharmacyDb.SearchDrugsFilters | routes/api/pharmacy-db.js:10-29 | 400 'Drug name is required' exactly for a falsy name; otherwise in-stock-only filters with the parsed limit, 50 by default, and a parsed centre and radius, 10 by default, exactly when both coordinates are truthy |
| PharmacyDb.SearchDrugsBinds | routes/api/pharmacy-db.js:19-32 | the Drug search binds the three term patterns, the four distance values only for a located search, then the limit, and never a category or price bound |
| PharmacyDb.ResultDistances | routes/api/pharmacy-db.js:42-72 | one distance per result, present exactly when both coordinates were given, and then the distance from the parsed centre |
| PharmacyDb.DistanceIffLocated | routes/api/pharmacy-db.js:26-69 | a result carries a distance exactly when the search was filtered around a centre |
| PharmacyDb.InventoryStatuses | routes/api/pharmacy-db.js:144-156 | one label per inventory row, each the shared stock label of its stock |
| PharmacyDb.InventoryLabels | routes/api/pharmacy-db.js:153-154 | 'Out of Stock' exactly for 0, 'In Stock' exactly from 20 up, otherwise 'Low Stock (n left)' |
| PharmacyDb.NearbyFilters | routes/api/pharmacy-db.js:173-187 | 400 'Latitude and longitude are required' exactly when a coordinate is falsy; otherwise status 'approved', no search text, the parsed centre, radius (10 by default) and limit (20 by default) |
| PharmacyDb.NearbyAlwaysApproved | routes/api/pharmacy-db.js:182-189 | the nearby query binds 'approved' first whatever the radius and limit |
| PharmacyDb.RatingCheck | routes/api/pharmacy-db.js:298-303 | 400 exactly for a falsy rating or one whose numeric value lies outside [1, 5]; otherwise the rating passes unchanged |
| PharmacyDb.NumericRatingRange | routes/api/pharmacy-db.js:298 | a numeric rating passes exactly when it lies in the closed range [1, 5] |
| PharmacyDb.NonNumericRatingPasses | routes/api/pharmacy-db.js:298 | non-empty text that is not a number passes the guard, since every comparison with NaN is false |
| PharmacyDb.ReportCheck | routes/api/pharmacy-db.js:343-348 | 400 'Reason is required' exactly for a falsy reason |
| DrugModel.CreateParams | models/Drug.js:29-39 | nine values in column order: id, name and price as given; category, description, manufacturer and expiry date as given when truthy and NULL otherwise; currency as given or 'XAF'; stock as given or 0 |
| DrugModel.CreateQuery | models/Drug.js:22-39 | every placeholder bound: nine of them, bound to the nine values |
| DrugModel.ConstructedCurrency | models/Drug.js:12 | a constructed drug's currency is always truthy |
| DrugModel.CreatedCurrencyReadsBack | models/Drug.js:12-36 | a drug created without a currency is stored as 'XAF' and reads back as 'XAF' |
| DrugModel.FindByPharmacyWhere | models/Drug.js:72-91 | binds the pharmacy, then the category only when truthy, then the search pattern twice only when truthy |
| DrugModel.FindByPharmacyQuery | models/Drug.js:70-98 | as many placeholders as values, the filter values then the parsed limit only when truthy, ordered by name |
| DrugModel.DistanceParams | models/Drug.js:146-155 | four values with a centre and a truthy radius, none otherwise |
| DrugModel.SearchQuery | models/Drug.js:114-163 | every placeholder bound to the search values in order; the stock ordering last, or just before the LIMIT when a limit is truthy |
| DrugModel.SearchPlaceholders | models/Drug.js:114-163 | as many placeholders as values, three term patterns plus one for a truthy category at least |
| DrugModel.UpdateDrug | models/Drug.js:178-202 | 'No valid fields to update' exactly when no entry is whitelisted; otherwise `UPDATE drugs SET ` then one `key = ?` per whitelisted entry, in entry order, naming its column and binding its value, `updated_at` stamped, and the id last |
| DrugModel.LowStockSelected | models/Drug.js:326-333 | exactly the pharmacy's rows with 0 < stock <= threshold; the lemmas below keep table order and each row once |
| DrugModel.LowStockSelectedSnoc | models/Drug.js:326-333 | a row appended to the table is appended to the selection exactly when it qualifies |
| DrugModel.LowStockSelectedConcat | models/Drug.js:326-333 | selecting from a concatenation selects from each part, in order |
| DrugModel.LowStockSelectedOfOne | models/Drug.js:326-333 | one row is selected exactly when it is the pharmacy's and its stock is in 1..threshold |
| DrugModel.LowStock | models/Drug.js:326-336 | a permutation of the selected rows (0 < stock <= threshold, 20 by default), by ascending stock |
| DrugModel.LowStockQuery | models/Drug.js:326-336 | two placeholders, bound to the pharmacy and to the threshold (20 when none is given), the threshold LowStock filters by |
| PharmacyModel.Construct | models/Pharmacy.js:5-22 | status 'pending', rating 0 and created_by_admin false replace exactly the falsy given values; a constructed status is always truthy |
| PharmacyModel.ConstructIdempotent | models/Pharmacy.js:5-22 | constructing from a constructed pharmacy changes nothing |
| PharmacyModel.RadiusParams | models/Pharmacy.js:120-130 | four values with a location and a truthy radius, none otherwise |
| PharmacyModel.FindAllQuery | models/Pharmacy.js:105-137 | every placeholder bound to the filter values in order, ordered by rating, the LIMIT last when a limit is truthy |
| PharmacyModel.FindAllPlaceholders | models/Pharmacy.js:105-137 | as many placeholders as values, one of them for a truthy status at least |
| PharmacyModel.SearchByDrugQuery | models/Pharmacy.js:157-197 | binds the centre three times only with a location, the two drug patterns, and the radius only with a location and a truthy radius |
| PharmacyModel.SearchByDrugShape | models/Pharmacy.js:178-184 | the approved in-stock join is present whatever the location and radius |
| PharmacyModel.DrugTail | models/Pharmacy.js:192-197 | the HAVING bound binds the radius only with a location and a truthy radius, and the ordering, leading with distance exactly when a location is given, comes last |
| PharmacyModel.SearchByDrugCount | models/Pharmacy.js:157-197 | as many placeholders as values: two without a location, five with a location and a falsy radius, six otherwise |
| PharmacyModel.UpdatePharmacy | models/Pharmacy.js:218-246 | 'No valid fields to update' exactly when no entry is whitelisted; otherwise `UPDATE pharmacies SET ` then one `key = ?` per whitelisted entry, in entry order, naming its column and binding its encoded value, `updated_at` stamped, the id last |
| PharmacyModel.UpdateBindsJsonColumns | models/Pharmacy.js:228-237 | operating_hours and services are bound as JSON text and every other kept value as given |
| PharmacyModel.SoftDelete | models/Pharmacy.js:303-308 | the row is kept and marked 'suspended', one row affected, every other row unchanged; an unknown id changes nothing and affects no row |
| PharmacyModel.SoftDeleteIdempotent | models/Pharmacy.js:303-308 | deleting twice leaves the table as deleting once |
| UserModel.UpdateUser | models/User.js:84-107 | 'No valid fields to update' exactly when no entry is whitelisted; otherwise `UPDATE users SET ` then one `key = ?` per whitelisted entry, in entry order, naming its column and binding its value, and the id last, with no timestamp |
| UserModel.UpdateUserCount | models/User.js:94-107 | one placeholder per kept entry plus one for the id |
| UserModel.LogSearchParams | models/User.js:135-141 | five values: the user id when truthy and NULL otherwise, the term as given, each coordinate as given when present and truthy and NULL otherwise, the count or 0 |
| UserModel.ZeroCoordinateLogsNull | models/User.js:138-139 | a coordinate of 0 is logged as NULL |
| UserModel.LogSearchQuery | models/User.js:128-143 | five placeholders bound to the five log values |
| UserModel.NearbyUsersQuery | models/User.js:212-230 | five placeholders bound to the centre three times, the radius (10 by default) and the limit (100 by default); located users only, the radius and limit closing the query |
| Reports.SubmitReport | routes/reports.js:8-28 | 400 exactly when the pharmacy or the reason is falsy; the new flag is 'open', keeps the pharmacy and reason, and stores details and e-mail as NULL exactly when falsy |
| Reports.InsertFlag | routes/reports.js:18-28 | four placeholders bound to the pharmacy, reason, details and e-mail |
| Reports.SubmittedValuesBound | routes/reports.js:10-28 | an accepted report binds its pharmacy and reason, and its details and e-mail when given |
| Reports.Conditions | routes/reports.js:67-78 | one condition per truthy filter |
| Reports.Where | routes/reports.js:80-82 | one bound clause per condition, the first opening WHERE and the rest joined by AND |
| Reports.ListQuery | routes/reports.js:50-84 | as many placeholders as values: the status then the pharmacy, each only when truthy, between the select and the newest-first ordering |
| Reports.ListWhereIffFiltered | routes/reports.js:70-82 | a WHERE appears exactly when some filter is present, and a second filter is joined by AND |
| Reports.UpdateStatus | routes/reports.js:106-121 | 400 exactly for a status other than 'open', 'reviewed' or 'closed'; otherwise the status, the notes or NULL, and the id are bound |
| Reports.SubmittedStatusIsValid | routes/reports.js:20-108 | a submitted flag's status is one the update accepts |
| AdminPharmacy.BearerToken | routes/admin-pharmacy.js:9 | a token exists exactly when the header is present and holds a space |
| AdminPharmacy.VerifyAdmin | routes/admin-pharmacy.js:8-21 | proceeds exactly on the token 'admin-token'; 401 'No token provided' exactly for a missing or empty token; 403 'Admin access required' for any other |
| AdminPharmacy.SchemeThenToken | routes/admin-pharmacy.js:9 | the word before the first space is ignored: `<scheme> <token>` yields the token |
| AdminPharmacy.AnySchemePasses | routes/admin-pharmacy.js:9-17 | any scheme word followed by 'admin-token' is let through, not only 'Bearer' |
| AdminPharmacy.DoubleSpaceIsNoToken | routes/admin-pharmacy.js:9-12 | two spaces after the scheme leave an empty token, answered as no token (401) |
| AdminPharmacy.FlatValues | routes/admin-pharmacy.js:132-141 | five values per inventory item |
| AdminPharmacy.BatchInsert | routes/admin-pharmacy.js:131-146 | the multi-row insert binds exactly the flattened values, one placeholder each, five per item |
| AdminPharmacy.FlatValuesRow | routes/admin-pharmacy.js:132-141 | the k-th group of five values is the k-th item's pharmacy, name, price, stock and expiry |
| AdminPharmacy.RegisterAsWritten | routes/admin-pharmacy.js:131-174 | as written: rolls back exactly when the inventory is missing; otherwise logs the item count and inserts iff there are items |
| AdminPharmacy.MissingInventoryRollsBack | routes/admin-pharmacy.js:131-174 | a registration without an inventory ends in the rollback although the insert guard admits it |
| AdminPharmacy.Register | routes/admin-pharmacy.js:131-161 | corrected: always commits, inserts iff there are items, with five placeholders per logged item, and logs 0 items for a missing inventory |
| AdminPharmacy.RegisterAgreesWhenPresent | routes/admin-pharmacy.js:131-161 | the corrected and the as-written registration agree whenever an inventory is given |
| AdminPharmacy.UpsertItem | routes/admin-pharmacy.js:388-428 | with an existing row the first id is updated with price, stock, expiry; without one a five-value row is inserted and the new id reported; action and message follow the same branch |
| AdminPharmacy.UpsertMessageMatchesAction | routes/admin-pharmacy.js:419-426 | the logged action and the answered message always agree |
| AdminPharmacy.Stats | routes/admin-pharmacy.js:257-266 | the total is the inventory size, the low count is the inventory helper's low-stock list length, and the expiring count is the number of drugs expiring within 30 days, expired ones included |
| AdminPharmacy.ExpiringCountIsIndices | routes/admin-pharmacy.js:259-265 | the expiring count is the number of positions whose drug expires within 30 days |
| AdminPharmacy.ExpiringIndicesSnoc | routes/admin-pharmacy.js:259-265 | the expiring positions of a longer list are the shorter list's plus the new position when its drug expires within 30 days |
| AdminPharmacy.ExpiringCountSnoc | routes/admin-pharmacy.js:259-265 | appending a drug adds one to the expiring count exactly when it expires within 30 days |
| AdminPharmacy.LowCountIsLowStockItems | routes/admin-pharmacy.js:259 | the details page's `stock < 10` count equals `getLowStockItems` on the same rows |
| AdminPharmacy.ExpiredCounts | routes/admin-pharmacy.js:260-265 | an already expired drug and a drug without an expiry date both count as expiring soon |
| Orders.ViewDecision | routes/orders.js:13-34 | the order is shown exactly when it exists and the user is its client, a pharmacist or an admin; 404 and 403 otherwise |
| Orders.UpdateDecision | routes/orders.js:95-148 | an update succeeds exactly for a valid status on an existing, accessible, non-terminal order, a client only cancelling; every refusal is 400, 403 or 404 |
| Orders.TerminalIsFinal | routes/orders.js:143-148 | a delivered or cancelled order is refused every update by everyone |
| Orders.ClientUpdatesCancel | routes/orders.js:123-140 | a client's successful update always cancels and always concerns their own order |
| Orders.CancelRoutesDisagree | routes/orders.js:135-148 | a client cancels a processing or ready order here, which the client route's cancel refuses with 400 |
| Orders.Flow | routes/orders.js:198-209 | five forward steps in order with 'pending' always completed, plus a completed 'cancelled' step exactly for a cancelled order |
| Orders.FlowPrefixClosed | routes/orders.js:199-203 | a completed step has every earlier step completed |
| Orders.FlowMarksUpToStatus | routes/orders.js:199-203 | for a forward status, exactly the steps up to it are completed |
| Orders.CancelledFlow | routes/orders.js:200-209 | a cancelled order shows 'confirmed' completed and nothing later on the forward path |
| Orders.EstimatedDelivery | routes/orders.js:240-251 | each of the six statuses gets its own table entry; anything else gets the pending estimate |
| Orders.EstimatesCoverStatuses | routes/orders.js:240-251 | the table covers exactly the six statuses, no estimate is empty, and an unknown status reads like a pending one |
| Pharmacist.OwnedPharmacy | routes/pharmacist.js:147-156 | proceeds exactly for one of the pharmacist's own pharmacies, 404 otherwise |
| Pharmacist.ListItem | routes/pharmacist.js:178-186 | a listed item keeps quantity and price, is low iff under 10 units, expiring iff within the shared window, valued at quantity times price |
| Pharmacist.ListInventory | routes/pharmacist.js:166-190 | one listed item per row, in the same order |
| Pharmacist.ListedValuesAddUp | routes/pharmacist.js:162-186 | the listed items' values add up to the inventory value the page reports |
| Pharmacist.ListedLowCounts | routes/pharmacist.js:163-184 | the items flagged low are as many as the reported low-stock count |
| Pharmacist.ListedExpiringCounts | routes/pharmacist.js:160-184 | the items flagged expiring soon are as many as the reported expiring count |
| Pharmacist.InventoryFigures | routes/pharmacist.js:160-164 | item count, value, low count and expiring count agree with the listed items, each count bounded by the item count |
| Pharmacist.FilterByStatus | routes/pharmacist.js:357-360 | without a status the list is unchanged; with one, exactly the orders in that status are kept; the lemmas below keep list order |
| Pharmacist.FilterByStatusConcat | routes/pharmacist.js:357-360 | filtering a concatenation filters each part, in order |
| Pharmacist.FilterByStatusOfOne | routes/pharmacist.js:357-360 | one order is kept exactly when no status is asked for or it has that status |
| Pharmacist.FilterTotal | routes/pharmacist.js:357-389 | the reported total is the number of orders in the requested status |
| Pharmacist.FilterIdempotent | routes/pharmacist.js:357-360 | filtering twice by a status is filtering once |
| Pharmacist.RevenueBounds | routes/pharmacist.js:559-561 | with non-negative amounts the revenue lies between 0 and the sum of all orders, equal to it when all are paid |
| Pharmacist.PaidOrders | routes/pharmacist.js:559-560 | exactly the paid orders are kept |
| Pharmacist.RevenueIsPaidTurnover | routes/pharmacist.js:559-561 | the revenue is the sum of the amounts of the paid orders, filter then reduce |
| Pharmacist.UnpaidAddsNothing | routes/pharmacist.js:559-561 | an unpaid order does not change the revenue |
| Pharmacist.UpdateOrderStatus | routes/pharmacist.js:405-442 | succeeds exactly for one of the five statuses on an order of an owned pharmacy, with 400 or 404 otherwise |
| Pharmacist.NeverBackToPending | routes/pharmacist.js:406 | a pharmacist can never set an order back to 'pending' |
| Pharmacist.TerminalNotGuarded | routes/pharmacist.js:405-444 | a delivered or cancelled order is reopened here, which the order route refuses to a pharmacist |
| Pharmacist.OwnRegistrations | routes/pharmacist.js:472 | exactly the pharmacist's own registrations are listed; the lemmas below keep the full list's order |
| Pharmacist.OwnRegistrationsConcat | routes/pharmacist.js:472 | listing a concatenation lists each part, in order |
| Pharmacist.OwnRegistrationsOfOne | routes/pharmacist.js:472 | one registration is listed exactly when the pharmacist owns it |
| Pharmacist.RegistrationAccess | routes/pharmacist.js:492-509 | a registration opens exactly for its owner; 404 without one, 403 for someone else's |
| Pharmacist.ListedIffOpenable | routes/pharmacist.js:472-509 | a registration is listed exactly when the same pharmacist may open it |
| Pharmacist.OwnerViewAgrees | routes/pharmacist.js:492-509 | the pharmacist's view agrees with the registration route's read access for a non-admin |
| Pharmacist.DashboardFigures | routes/pharmacist.js:534-589 | for an owned pharmacy: the inventory figures of the inventory page, the three status counts equal to the filtered lists and bounded by the order count, and the paid revenue |
| Admin.UpdateOrderStatus | routes/admin.js:183-211 | succeeds exactly for a valid status on an existing order, whatever its current status |
| Admin.AdminReopensTerminal | routes/admin.js:202-211 | an admin moves a delivered or cancelled order anywhere here, which the order route refuses |
| Admin.UserStatus | routes/admin.js:263-296 | succeeds exactly for a boolean value on an existing user other than the admin, storing the value; 400 for the admin's own account |
| Admin.OwnAccountEitherWay | routes/admin.js:290-296 | an admin can neither deactivate nor reactivate themselves; any other user both ways |
| Admin.Stats | routes/admin.js:400-417 | the total is the list length; the three counts never exceed it and add up to it when every status is one of the three |
| Admin.StatsOfAppended | routes/admin.js:404-413 | one more registration raises the total and its own status's count by one and nothing else |
| Admin.AverageOrderValue | routes/admin.js:362 | the average times the order count gives the revenue; 0 without orders |
| Admin.AverageBounded | routes/admin.js:362 | for a non-negative revenue the average lies between 0 and the revenue |
| Admin.Notes | routes/admin.js:464 | the notes stay present or absent, are no longer, and start and end without white space |
| Admin.PendingGuard | routes/admin.js:480-493 | proceeds exactly for an existing pending registration; 404 or 400 otherwise |
| Admin.Approve | routes/admin.js:463-493 | approves exactly a pending registration whose optional trimmed notes are at most 500 characters |
| Admin.RequiredNotes | routes/admin.js:518-527 | accepts exactly present notes whose trimmed length is 1 to 500, yielding the trimmed text, and refuses everything else with 400 |
| Admin.Reject | routes/admin.js:518-551 | rejects exactly a pending registration with 1 to 500 characters of trimmed notes, storing the trimmed notes |
| Admin.DecisionsAreFinal | routes/admin.js:488-493 | after an approval or a rejection neither route accepts the registration again |
| Admin.BlankNotesRefused | routes/admin.js:519 | notes made only of white space are refused |
| Admin.ApprovalPathsDisagree | routes/admin.js:488-493 | a rejected registration is refused approval here but approved by the registration route's status update |
| PharmacyRegistration.RequiredFieldsPresent | routes/pharmacy-registration.js:18-31 | a valid submission has a name, address, city, state and phone, with their minimum lengths |
| PharmacyRegistration.Register | routes/pharmacy-registration.js:47-83 | accepted exactly when valid, owned by the submitter, reported pending, with the given country or 'Cameroon' |
| PharmacyRegistration.GivenCountryKept | routes/pharmacy-registration.js:25-67 | a country that passes validation is never replaced by the default |
| PharmacyRegistration.ReadAccess | routes/pharmacy-registration.js:98-113 | a registration is readable exactly by an admin or its owner; 404 and 403 otherwise |
| PharmacyRegistration.EditAccess | routes/pharmacy-registration.js:235-255 | inventory is editable exactly by the owner of a pending registration; 404, 403, 400 otherwise |
| PharmacyRegistration.EditImpliesRead | routes/pharmacy-registration.js:243-255 | whoever may edit may read; an admin reads all but edits none of someone else's |
| PharmacyRegistration.PrescriptionRequired | routes/pharmacy-registration.js:268 | a truthy value is kept, anything else becomes false, and the result is falsy only as false |
| PharmacyRegistration.DeleteItem | routes/pharmacy-registration.js:337-366 | 200 exactly when editing is allowed and a row was removed; the guard's code or 404 otherwise |
| PharmacyRegistration.UpdateStatus | routes/pharmacy-registration.js:163-209 | accepted exactly for one of the three statuses and short enough notes on an existing registration; 'approved' runs the approval, others store status and trimmed notes |
| PharmacyRegistration.NoPendingGuard | routes/pharmacy-registration.js:185-209 | an already decided registration is approved again or reopened as pending |
| Sql.Alignment | models/Drug.js:72-98 | in a built query the placeholders equal the params in number, and the k-th placeholder sits in the same clause as the k-th param |
| Sql.BoundCount | models/Pharmacy.js:105-137 | a query whose every clause binds its own holes has as many placeholders as params |
| Sql.Whitelisted | models/Drug.js:188-193 | exactly the given fields whose key is allowed are kept, never more than given; the lemmas below keep entry order |
| Sql.WhitelistedConcat | models/Drug.js:188-193 | whitelisting a concatenation whitelists each part, in order |
| Sql.WhitelistedOfOne | models/Drug.js:188-193 | one entry is kept exactly when its key is allowed |
| Sql.UpdateQuery | models/Drug.js:178-202 | 'No valid fields to update' exactly when no key is allowed; otherwise `UPDATE <table> SET `, then for each allowed field, in key order, a `key = ?` clause naming that field's column and binding its value, the timestamp clause iff the model stamps, and the id last |
| Sql.UpdateNamesColumns | models/Drug.js:178-202 | token by token: the update's head is `UPDATE <table> SET ` and its i-th assignment is `key = ?` for the i-th kept field, binding that field's value |
| Sql.SetQuery | models/Drug.js:199-202 | the UPDATE head, one assignment per field in order, the timestamp exactly when stamped, and `WHERE id = ?` binding the id last |
| Sql.Assignments | models/Drug.js:188-193 | the i-th clause assigns the i-th field's column and binds its value, the values in field order |
| Sorting.SortBy | routes/client.js:100 | the sorted list is ordered by the key and is a permutation of the input |
| Sorting.SortedDistinct | public/js/pharmacy-data.js:130-138 | strictly increasing, and holds exactly the strings of the input |
| Sorting.Dedup | routes/drugs.js:215 | no element twice, exactly the elements of the input, never longer |
| Sorting.DedupSnoc | routes/drugs.js:215 | appending an element already seen changes nothing; a new one is appended at the end |
| Text.SplitJoin | routes/admin-pharmacy.js:9 | splitting on a separator loses nothing: re-joining gives the header back |

## Left out

- The Haversine distance is not modelled. This covers the JavaScript helper, the SQL `acos` expressions (kept as clause text with its three bound values), and the rounding and "x.y km" formatting of distances. Distances are inputs or function parameters throughout, because they are floating-point trigonometry.
- The network is not modelled: the IP geolocation, Nominatim and OSRM calls. The routing service's answer is a parameter, and only the fallback arithmetic is modelled.
- The database is not modelled: connections, transactions and real SQL semantics. Builders produce clause lists with their bound values. Handlers receive the rows and the lookup results as parameters. utils/database.js is not part of this model, because every function in it throws a deprecation error.
- Authentication is not modelled: JWT, bcrypt, login and account plumbing. The authenticated user's role and id are parameters.
- `calculateDiscount` (utils/calculations.js:60-62) is not part of this model.
- Locale formatting is not modelled: `formatPrice`, `Intl.NumberFormat`, `toFixed`, `toLocaleString`. This includes the `formatted` string of `validateAndFormatCoordinates`.
- Randomness is not modelled: order numbers, temporary passwords, and the random distance the browser-side data manager attaches to a pharmacy (a function parameter here).
- Clocks are parameters: "now" is milliseconds since the epoch, or a day number where the source compares whole dates.
- Pagination by `slice(offset, offset + limit)` on raw query-string values is not modelled, because string concatenation changes its meaning there.
- Number parsing (`parseFloat`, `parseInt`, `isNaN`, the numeric conversion of `<`) is a function parameter. NaN is an absent parse.
- Express-validator is modelled only through its length, membership, boolean and range rules. Its e-mail, ISO 8601, `isInt` and `isFloat` format checks are not modelled.
- `getEstimatedDelivery` is modelled as a lookup in the six-status table. The inherited object keys that `estimates[status]` would also find (such as 'constructor') are not modelled.
- The pharmacist's add-item and update-item inventory routes are modelled only through their shared ownership guard. The rest of those routes is database writes.
- Runtime return-shape mismatches in routes/search.js are not modelled. Examples are iterating over a result wrapper and reading a status off it. The grouping is modelled over the intended row sequence.
- routes/pharmacy.js, routes/geolocation.js, routes/ratings.js, server.js, models/EndUser.js, and the seeding and setup scripts are not part of this model. They are wiring, fixed queries or file and process I/O.
- Numbers are modelled as exact reals, not IEEE doubles. So 0.1 + 0.2 is exactly 0.3 here, and the order totals, inventory values, average ratings, profit margins and revenue figures carry no rounding error.
- Strings are sequences of code points. `trim` strips only the eight common white-space characters listed at `Text.IsSpace`, not the other Unicode spaces (U+1680, U+2000 to U+200A, U+2028, U+2029, U+202F, U+205F, U+3000). `toLowerCase` folds ASCII letters only, so "É" is not lowered. `.length` counts code points where JavaScript counts UTF-16 units, so one astral character passes a two-character minimum there and not here. Sorting compares code points, where JavaScript compares UTF-16 units; the two orders differ only between astral characters and U+E000 to U+FFFF.
- DrugsRoutes.CategoryDescription: models the description table as a lookup in its own entries. The inherited object keys that `descriptions[category]` would also find (such as 'constructor') are not modelled.
- Js.ToInteger: numbers are finite, so the infinite limits that text such as "Infinity" converts to are not modelled.
- Calculations.AverageRating: bounds the result within half a tenth of the mean. It does not state that the result has exactly one decimal.
- Sorting.SortBy: states sorted order and permutation. The sort is an insertion sort and so is stable, but stability is not stated as a contract.
- PharmacyRegistration.Register: the validity it states leaves out the e-mail format check.

## Findings

| source | as written | input that shows it | evidently intended | confidence | as-written member | corrected member |
|---|---|---|---|---|---|---|
| routes/admin-pharmacy.js:131-174 | the inventory insert is guarded by `inventory && inventory.length > 0`, but the admin log reads `inventory.length` unguarded at line 156 | a registration body without an `inventory` field: line 156 throws, the catch at line 174 rolls the pharmacy back and answers 500 | a pharmacy registered without inventory, logged with 0 items | high (not executed) | AdminPharmacy.RegisterAsWritten, AdminPharmacy.MissingInventoryRollsBack | AdminPharmacy.Register, AdminPharmacy.RegisterAgreesWhenPresent |
