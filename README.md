# OptiFleet core, modelled in Dafny

OptiFleet is a Flask application for fleet routing and tracking. A client posts a depot, vehicles and stops to `/optimize`. The service builds a travel matrix from a maps provider, or a fixed fallback when the provider fails. It splits the stops among the vehicles, solves one vehicle at a time, and draws the routes on a map. Around this sit plan pricing and checkout, subscriptions and trials, access rules, vehicle and tracker tables, and several telemetry ingest endpoints: generic, per-vendor adapters, and bulk vendor ingest.

This project models the decision logic of that core as Dafny datatypes, functions, methods and lemmas. Each source file gets one module, or two when the repository has a root-level variant and a `routes/` variant of the same file:

- `dispatch.dfy`, `request.dfy`, `models.dfy` and `events.dfy`: the optimizer pipeline of `app.py`. This covers request parsing, grouping by tag and round-robin, slicing, remapping and totals, and event detection.
- `provider_maps.dfy`, `fallback_maps.dfy`, `geocoding.dfy` and `map_render.dfy`: maps. These cover the matrix assembly with its fallback, geocoding with provider fallback, and polyline decoding and route drawing.
- `billing.dfy`, `checkout.dfy` and `routes_billing.dfy`: plan quotes, the catalogue, checkout validation and price formatting.
- `db.dfy`: the tables and their upserts, and the tracker binding rules.
- `access.dfy`, `trials.dfy`, `webhook.dfy` and `fleet.dfy`: subscriptions, access, vehicle limits, trials, the payment webhook and the fleet routes.
- `telemetry.dfy`, `adapters.dfy` and `vendor.dfy`: the telemetry ingest chains.
- `simulator.dfy`: the simulator's route builder.
- `common.dfy`: Python-like values and string helpers shared by all of the above.

The following are modelled this way:

- Money is integer cents and time is integer seconds.
- Tables are maps held by classes whose methods update them in place.
- The network, the database engine, the clock, cryptography and the VRPTW solver become parameters of the members that use them.

## Model

| member | source | states |
|---|---|---|
| Models.HhmmRoundTrip | core/models.py:43-45 | `hhmm_to_minutes` of "H:MM" text gives 60·H + M for every hour and minute, so it inverts the clock formatting |
| Models.DefaultShiftIsWholeDay | core/models.py:43-45 | the vehicle-hour defaults "00:00" and "23:59" read as minutes 0 and 1439 |
| Models.FormatDefaults | core/models.py:43-45 | the default shift strings are the clock format of 0:00 and 23:59 |
| Models.HhmmReadsBothPieces | core/models.py:43-45 | text with exactly one colon reads as 60 times the `int()` of the piece before the colon plus the `int()` of the piece after it, and fails when either piece is not an integer |
| Models.HhmmNeedsOneColon | core/models.py:44 | text with two colons does not parse: the tuple unpacking of the split fails |
| Common.FieldsOrEmpty | routes/telemetry_routes.py:35-39 | `get_json(force=True) or {}` used as a dictionary: an object's fields, `{}` for a falsy value, nothing for text that is not JSON or a truthy value that is not an object |
| Common.ParseFloatOfExponent | routes/telemetry_routes.py:51 | `float()` reads digits, "e" and digits as the first number scaled by ten to the power of the second |
| Common.UnsignedValue | routes/telemetry_routes.py:51 | text without an exponent letter is read as a plain decimal |
| Common.Scaled | routes/telemetry_routes.py:51 | scaling by ten to a non-negative power multiplies, and by a negative power divides |
| MapRender.ReadValue | core/visual/map_render.py:18-22 | reading a varint consumes at least one character and stays inside the text; running off the end is an IndexError |
| MapRender.ReadVarint | core/visual/map_render.py:18-22 | the inner `while True` loop succeeds exactly when the varint reading is defined, and then gives its value and next index |
| MapRender.DecodePolyline | core/visual/map_render.py:13-35 | the decoding fails exactly when the text is truncated (IndexError); otherwise it gives the decoded points scaled by 1e-5 |
| MapRender.ZigZagRoundTrip | core/visual/map_render.py:23 | the sign decoding `~(r >> 1)` or `r >> 1` inverts the zig-zag encoding of every integer |
| MapRender.ReadEncodedUnsigned | core/visual/map_render.py:18-22 | reading the standard encoding of n, with an accumulator that starts at 1, yields n and consumes exactly that encoding |
| MapRender.ReadValueIsStandard | core/visual/map_render.py:18-22 | on characters from '?' to '~', the accumulator that starts at 1 and adds ord(c)-64 per chunk agrees with the textbook polyline reading |
| MapRender.DecodeEncodeFrom | core/visual/map_render.py:17-34 | decoding the encoding of a point list, from any starting offset, gives the points back |
| MapRender.PolylineRoundTrip | core/visual/map_render.py:13-35 | `_decode_polyline` inverts the standard polyline encoding for every list of integer points |
| MapRender.Stitch | core/visual/map_render.py:51-54 | a part is appended to the line, minus its first point exactly when that point repeats the line's last; the old line stays a prefix |
| MapRender.CoercePathToCoords | core/visual/map_render.py:37-94 | the function on paths gives, for every shape, what the case-by-case definition of the accepted path shapes gives |
| MapRender.StitchPolylines | core/visual/map_render.py:46-55 | the loop over a list of polylines decodes each one and stitches it on, failing when one is cut short |
| MapRender.ReadPointDicts | core/visual/map_render.py:66-75 | the loop over a list of point dictionaries gives the dictionaries' points in order, or raises when one point cannot be read |
| MapRender.DictPathCoords | core/visual/map_render.py:77-91 | a dictionary path gives its decoded overview polyline when that decodes, and otherwise what its first usable key among "polyline", "points" and "path" holds |
| MapRender.CoercedPath | core/visual/map_render.py:37-94 | no path and unrecognised values give no coordinates; text is decoded; a pair list never raises and gives nothing when one pair cannot be read; a decodable overview polyline wins over the keys |
| MapRender.PairCoord | core/visual/map_render.py:59 | one pair is read exactly when it has two entries that `float()` accepts, and then it is the point of those two |
| MapRender.PairCoords | core/visual/map_render.py:57-63 | the pair list is read exactly when every item is; it then gives one point per item, in order |
| MapRender.ReadPoint | core/visual/map_render.py:70-73 | two values make a point exactly when `float()` accepts both; otherwise the read raises |
| MapRender.DictItemOf | core/visual/map_render.py:68-73 | "lat" with "lng" comes first, "lat" with "lon" when "lng" is absent, then "latitude" with "longitude"; a dictionary with neither pair is skipped |
| MapRender.DictCoords | core/visual/map_render.py:66-75 | the point dictionaries raise exactly when one of them raises, and give at most one point each |
| MapRender.DictCoordsOfOne | core/visual/map_render.py:67-73 | one dictionary gives its own point, nothing when skipped, or the raise |
| MapRender.DictCoordsAppend | core/visual/map_render.py:67-75 | the dictionaries are read independently and in order: two runs give the first run's points followed by the second's, and raise when either raises |
| MapRender.FirstUsable | core/visual/map_render.py:86-91 | the first key holding text or a list is found, and every key before it holds neither |
| MapRender.BrokenOverviewIgnored | core/visual/map_render.py:79-85 | an overview polyline that is cut short is passed over, and the keys decide as if there were no overview |
| MapRender.KeysInOrder | core/visual/map_render.py:86-91 | a key that holds neither text nor a list is passed over; text is decoded and a list is coerced, whatever the later keys hold |
| MapRender.KeyedPath | core/visual/map_render.py:86-94 | without a decodable overview, a dictionary path is decided by its first usable key, and gives no coordinates when there is none |
| MapRender.PyIndex | core/visual/map_render.py:130-131 | `points[k]` is defined exactly for -len ≤ k < len, and a non-negative k reads element k |
| MapRender.LegCoords | core/visual/map_render.py:133-141 | a leg is never empty: a missing, failing or empty fetched path falls back to the straight segment |
| MapRender.TraceRoute | core/visual/map_render.py:128-146 | the leg loop builds the route's stitched line, or fails on a node that is not a valid index |
| MapRender.BuildMap | core/visual/map_render.py:104-149 | the route loop draws exactly the lines of the routes, in order; no points is a ValueError |
| MapRender.StraightRouteLine | core/visual/map_render.py:128-146 | without a fetcher, the leg loop extends a line through node points into the line through all the route's node points |
| MapRender.StraightLineThroughNodes | core/visual/map_render.py:128-146 | without a fetcher, a route over valid nodes is drawn through exactly the points of its nodes, in order |
| MapRender.DrawnLinesAreRoutes | core/visual/map_render.py:122-146 | earlier lines are kept, and the new lines are exactly one per route with at least two nodes, in route order, each that route's traced line in palette slot `r_i % 8` |
| MapRender.DrawnRouteLine | core/visual/map_render.py:122-146 | a route with at least two nodes contributes its traced line in slot `r_i % 8`, ahead of the lines of the later routes |
| MapRender.BuildMapDrawsEachRoute | core/visual/map_render.py:95-146 | when the map is drawn there are points, and its lines are exactly one per route with at least two nodes, in route order, each the route's traced line in slot `r_i % 8` |
| MapRender.Drawable | core/visual/map_render.py:122-126 | the listed routes lie at or after the starting position and each has at least two nodes |
| MapRender.DrawableIsComplete | core/visual/map_render.py:122-126 | every route with at least two nodes is listed |
| MapRender.DrawableIsOrdered | core/visual/map_render.py:122-126 | the listed routes are in strictly increasing order of position |
| MapRender.RouteLineNonEmpty | core/visual/map_render.py:128-146 | a route with at least one leg always gives a non-empty line, so no drawable route is skipped as empty |
| MapRender.LinesOfRoutesCons | core/visual/map_render.py:122-146 | a route's line placed before the lines of later routes keeps the lines matched to their routes |
| MapRender.DrawnFrom | core/visual/map_render.py:122-146 | the route loop fails only with an invalid node index |
| MapRender.BuildMapSpec | core/visual/map_render.py:95-146 | the ValueError for no points happens exactly when there are no points; any other failure is an invalid node index |
| MapRender.Decoded | core/visual/map_render.py:13-35 | the empty text decodes to no points |
| MapRender.DecodedLength | core/visual/map_render.py:13-35 | every decoded point uses at least two characters of the text |
| MapRender.DecodeStep | core/visual/map_render.py:17-34 | one turn of the outer loop keeps the decoded whole equal to the points so far followed by what decodes from the new position |
| ProviderMaps.NewProvider | core/providers/maps.py:5-6 | an unset key reads as "", and a set key is stripped |
| ProviderMaps.Geocode | core/providers/maps.py:8-30 | a location comes back exactly when there is a key and the service answers "OK" with results; it is the first result's location |
| ProviderMaps.ElementCell | core/providers/maps.py:60-66 | an element that is not OK becomes 9999 km and 9999 minutes; an OK element is converted to km and minutes; an OK element without distance or duration raises |
| ProviderMaps.ReadRow | core/providers/maps.py:59-66 | one row of the service reply is read into the grid, or the reply is shown to be unusable |
| ProviderMaps.FillFallback | core/providers/maps.py:74-79 | the fallback loops overwrite every cell: 0 on the diagonal, and 5 km and 10 minutes elsewhere |
| ProviderMaps.ReadService | core/providers/maps.py:56-67 | the service branch succeeds exactly when the reply can be read, and then gives the service grid |
| ProviderMaps.ServicePrefixComplete | core/providers/maps.py:58-67 | once all n rows are read, the result is the whole service grid |
| ProviderMaps.ServicePrefixUsable | core/providers/maps.py:58-67 | once all n rows are read without raising, the reply is usable |
| ProviderMaps.TravelMatrix | core/providers/maps.py:32-80 | the result is the service's grid when there is a key, an "OK" status and a readable reply; otherwise it is the fallback grid |
| ProviderMaps.TravelMatrixIsComplete | core/providers/maps.py:32-80 | whatever the reply, the matrix has exactly the n·n pairs of points as keys; without a key the diagonal is zero |
| ProviderMaps.LegPolyline | core/providers/maps.py:82-105 | an encoded polyline comes back exactly when there is a key and an "OK" answer with a route; it is the first route's overview |
| FallbackMaps.NewClientProvider | maps.py:17-24 | construction fails exactly when there is no key and running without geocoding is not allowed; there is a client exactly when there is a key and the library imported |
| FallbackMaps.ClientGeocodeAddress | maps.py:27-42 | an empty address, or no client, gives None; otherwise the first result's location, None for no results, and the client's exception propagates |
| FallbackMaps.FallbackMatrix | maps.py:45-58 | the nested loops give, for every ordered pair, the distance and its time at the average speed, floored at 1e-6 km/h |
| FallbackMaps.FallbackFollowsAverageSpeed | maps.py:55-57 | a fallback cell holds the distance, and its minutes times the speed equal 60 times the distance; zero distance takes zero minutes |
| FallbackMaps.MergedCell | maps.py:88-94 | a missing or non-OK cell takes the fallback; an OK cell prefers the duration in traffic, then the duration, then the fallback's minutes, and takes its distance in km unless that is 0 or missing, else the fallback's km; there is no cell exactly when a fallback value it needs is missing |
| FallbackMaps.FallbackAt | maps.py:89 | the fallback has a value exactly for pairs inside the points; any other lookup is a KeyError |
| FallbackMaps.MergeReply | maps.py:84-95 | the merge fails with KeyError exactly when some present cell needs a fallback outside the points; otherwise its keys are exactly the cells present in the reply, each merged |
| FallbackMaps.ClientTravelMatrix | maps.py:60-95 | with no client, or when the call raises, the whole fallback matrix; otherwise the per-cell merge of the reply |
| FallbackMaps.ClientMatrixKeys | maps.py:60-95 | a reply with n rows of n cells yields exactly the n·n pairs |
| FallbackMaps.OkReplyNeverRaises | maps.py:84-95 | a reply whose present cells are all OK with duration and distance never consults the fallback, so it never raises, whatever its shape |
| FallbackMaps.ClientLegPolyline | maps.py:97-118 | no client, a raising call, no route, no overview or an undecodable overview all give []; a non-empty result is the first route's decoded overview |
| FallbackMaps.RouteCostWithTolls | maps.py:120-139 | 0.0 without a client; a non-zero cost is the numeric fare of the first route |
| FallbackMaps.FareIsReported | maps.py:133-136 | a float or int fare (booleans included) is reported as a float; a string, None or other value costs 0.0 |
| Geocoding.NonSpace | core/providers/geocoding.py:19-28 | the non-space characters of a text, used to state what normalisation keeps: never longer than the text |
| Geocoding.NonSpaceAppend | core/providers/geocoding.py:19-28 | the non-space characters of a concatenation are those of the parts |
| Geocoding.NonSpaceOfSpaces | core/providers/geocoding.py:23 | white space alone has no non-space characters |
| Geocoding.Collapse | core/providers/geocoding.py:25 | `re.sub(r"\s+", " ", ...)` is empty only for empty text, starts with a space exactly when the text does, and leaves no two spaces in a row |
| Geocoding.CollapseKeepsText | core/providers/geocoding.py:25 | collapsing white space keeps every other character, in order |
| Geocoding.ReplaceKeepsText | core/providers/geocoding.py:27 | replacing a pattern by text with the same non-space characters keeps the non-space characters of the whole |
| Geocoding.StripKeepsText | core/providers/geocoding.py:23 | `strip` removes white space only |
| Geocoding.DropCommaSpace | core/providers/geocoding.py:27 | on single-spaced text, `replace(", ", ",")` leaves no space after a comma and keeps the text single-spaced |
| Geocoding.AddCommaSpace | core/providers/geocoding.py:27 | then `replace(",", ", ")` puts exactly one space after every comma |
| Geocoding.NormalizeAddress | core/providers/geocoding.py:19-28 | "" for a missing or empty address; otherwise no leading space, no double space, one space after every comma, and the same non-space characters as the input |
| Geocoding.NormalizeBlank | core/providers/geocoding.py:19-28 | an address normalises to "" exactly when it is blank |
| Geocoding.DisplayText | core/providers/geocoding.py:79 | a falsy display name reads as "", and text is lower-cased |
| Geocoding.ValidateGeodata | core/providers/geocoding.py:68-91 | no item is "address not found"; success is exactly in-range coordinates that are not a generic city-level answer, and returns them; a generic answer is refused only for an address with no digit |
| Geocoding.Attempt | core/providers/geocoding.py:107-121 | a provider branch yields coordinates exactly when the call returns an item that validates |
| Geocoding.GeocodeAddress | core/providers/geocoding.py:94-126 | a blank address is refused before any provider is called; a result is always in range; any other failure is "address not found" for the normalised address |
| Geocoding.ProvidersInOrder | core/providers/geocoding.py:106-121 | the first provider's valid answer wins, and the second provider decides exactly when the first yields nothing valid |
| Geocoding.AmbiguityIsSwallowed | core/providers/geocoding.py:107-113 | a too-generic answer from the first provider is swallowed by its `except` and never reported; the second provider decides |
| Adapters.Pick | core/telemetry/adapters.py:1-5 | the default when every key is missing or None; otherwise the value of the first key, in the order given, that is present and not None |
| Adapters.PickChoosesAKey | core/telemetry/adapters.py:1-5 | the chosen value is the default or the value of one of the keys |
| Adapters.ToFloat | core/telemetry/adapters.py:7-9 | `float(x)` when that succeeds, the default when it raises |
| Adapters.ObdAlerts | core/telemetry/adapters.py:19 | a falsy alert value counts as 0; a truthy one goes through `int()`, which may raise |
| Adapters.NormalizeGeneric | core/telemetry/adapters.py:11-24 | fails exactly when the alert count cannot be read as an integer; there is no tracker exactly when every tracker key is missing or None, and otherwise the tracker is the picked value; lat, lon, speed, fuel, engine temperature and odometer are each the value picked from their own keys read as a float, or 0.0 |
| Adapters.EmptyPayload | core/telemetry/adapters.py:11-24 | an empty payload reads as all zeros, with no tracker and no alerts |
| Adapters.AdapterFor | core/telemetry/adapters.py:37-42 | exactly the four names "generic", "gt06", "sascar" and "cobli" are registered, and only "generic" names the generic adapter |
| Adapters.Apply | core/telemetry/adapters.py:26-35 | each vendor adapter gives what the generic adapter gives for the same payload |
| Adapters.SelectAdapter | core/telemetry/adapters.py:37-42 | an unknown provider name is served by the generic adapter; a registered name by its own |
| Adapters.AdaptersAgree | core/telemetry/adapters.py:26-42 | every provider name gives the generic result, because the vendor adapters are stubs |
| Billing.Catalog | core/billing.py:5-33 | only the three catalogue plans exist, and each plan's minimum fleet is at least 1 and at most its cap |
| Billing.EnterpriseEntry | core/billing.py:24-32 | the enterprise plan costs R$ 2200.00 a month, caps at 999 999 vehicles and starts at 51 |
| Billing.CataloguePricesAreExact | core/billing.py:106-107 | the 15% discount of every catalogue price, monthly and for twelve months, is a whole number of cents, so `_r2` changes nothing |
| Billing.NormalizeBilling | core/billing.py:102-121 | the period is always "annual" or "monthly"; no value means monthly; "anual", "annual" and "yearly" mean annual |
| Billing.CanonicalOfLowerWord | core/billing.py:61-75 | a plan name made of lower-case letters is only mapped through the alias table |
| Billing.CanonicalNames | core/billing.py:61-77 | "route", "full" and "enterprise" are already canonical |
| Billing.NamesAreNotAliases | core/billing.py:64-75 | the alias table does not remap any catalogue plan |
| Billing.PlainWord | core/billing.py:102-103 | the plain spellings of the periods survive lower-casing, stripping and the accent replacement |
| Billing.LowerCaseLetters | core/billing.py:102-103 | any lower-case word survives lower-casing, stripping and the accent replacement |
| Billing.RequestedVehicles | core/billing.py:88-91 | a falsy vehicle count means 1; a non-zero integer is kept |
| Billing.CentsText | core/billing.py:111 | the `%.2f` text of an amount holds only digits and the decimal point |
| Billing.DescriptionMentionsMinimum | core/billing.py:108-120 | the description says "a partir de" exactly when the plan's minimum fleet is above 1 |
| Billing.QuoteFor | core/billing.py:80-133 | for a catalogue plan: the label, cap and list price are the plan's, the vehicles are clamped to [min, cap] (kept when inside, raised to min, lowered to cap), "a partir de" appears exactly when min > 1, and annual billing costs 85% per month and twelve such months per period |
| Billing.MakeQuote | core/billing.py:53-133 | fails exactly for a plan outside the catalogue after the aliases; otherwise the quote names the canonical plan, clamps the vehicles to the plan's range, normalises the period, and prices annual billing at 85% per month and twelve such months per period, monthly billing at the list price |
| Billing.AnnualPriceTable | core/billing.py:5-33 | the annual prices: 339.15/4069.80, 1274.15/15289.80 and 1870.00/22440.00 |
| Billing.AliasesAreCatalogued | core/billing.py:64-73 | every alias names a plan in the catalogue |
| Checkout.PeriodEnd | routes/checkout_routes.py:14-16 | the first period ends 365 days after now for annual billing and 30 days after now otherwise |
| Checkout.ReadParams | routes/checkout_routes.py:113-118 | a missing vehicle count means 1; a count `int()` can read is kept; one it cannot read means 1 |
| Checkout.GateIgnoresVehicles | routes/checkout_routes.py:18-19 | since the handlers pass `max(1, vehicles)`, the gate admits exactly Start or Pro with a monthly or annual period, whatever the count |
| Checkout.ClampVehicles | routes/checkout_routes.py:35 | the fleet is kept within 1 and the plan's limit, and is unchanged when already inside |
| Checkout.Quote | routes/checkout_routes.py:21-55 | Start exactly for "route", otherwise Pro, with limits 5 and 50; annual billing costs 85% of the base per month and twelve such months per period; monthly billing charges the base |
| Checkout.QuoteAgreesWithCatalogue | routes/checkout_routes.py:21-55 | for Start and Pro the checkout's limit, monthly price, period total and label equal the catalogue quote's (core/billing.py) |
| Checkout.MockSubscription | routes/checkout_routes.py:125-135 | the recorded subscription is active, from the mock provider with reference "mock-" and the plan, starts now and ends at the end of the first period |
| Checkout.Confirm | routes/checkout_routes.py:105-139 | refused parameters give 400 and change nothing; otherwise exactly one new subscription, under a fresh id, for the quoted fleet, as the table stores it (`Db.Stored`) |
| LegacyCheckout.ValidateAddsEnterprise | checkout_routes.py:22-23 | the gate admits everything the routes/ checkout's gate admits, and beyond that only the Enterprise plan with a valid billing period and a positive count |
| LegacyCheckout.Quote | checkout_routes.py:28-69 | Start, Pro, and Enterprise for every other plan, with limits 5, 50 and 999 999, the same clamp and the same annual discount |
| LegacyCheckout.AgreesOnStartAndPro | checkout_routes.py:28-69 | on Start and Pro this checkout quotes exactly what routes/checkout_routes.py quotes |
| LegacyCheckout.EnterpriseMinimumDiffers | checkout_routes.py:49 | below 51 vehicles an Enterprise quote keeps the requested fleet, while the catalogue (core/billing.py:31) raises it to 51 |
| LegacyCheckout.Confirm | checkout_routes.py:125-153 | as Checkout.Confirm, with Enterprise admitted by the gate |
| RoutesBilling.Pad3 | routes/billing_routes.py:14 | a group of three zero-padded digits reads back as the number |
| RoutesBilling.DigitsValueAppend | routes/billing_routes.py:14 | the value of two digit strings written one after the other |
| RoutesBilling.Grouped | routes/billing_routes.py:14 | the `{:,}` text of a whole number holds only digits and the separator |
| RoutesBilling.Without | routes/billing_routes.py:15 | removing a character leaves none of it |
| RoutesBilling.WithoutAppend | routes/billing_routes.py:15 | removing a character distributes over concatenation |
| RoutesBilling.WithoutDigits | routes/billing_routes.py:15 | removing a non-digit from a digit string changes nothing |
| RoutesBilling.GroupedReadsBack | routes/billing_routes.py:13-15 | removing the thousands separators from the grouped text gives back the digits of the number |
| RoutesBilling.GroupedOtherSeparator | routes/billing_routes.py:13-15 | grouping with another separator changes only the separators |
| RoutesBilling.FmtBrlSwapsSeparators | routes/billing_routes.py:13-15 | `_fmt_brl` writes "R$ ", the reais grouped by ".", then "," and the two-digit cents: the placeholder swap exchanges the two separators |
| RoutesBilling.Price | routes/billing_routes.py:18-39 | the price is one of the three monthly bases or one of the three discounted annual totals, and an annual total exactly for the annual spellings |
| RoutesBilling.OrElse | routes/billing_routes.py:23-24 | `x or default`: an empty or missing string gives the default |
| RoutesBilling.PriceIgnoresVehicles | routes/billing_routes.py:18-39 | the vehicle count does not change the price |
| RoutesBilling.UnknownPlanIsPro | routes/billing_routes.py:34 | a plan outside the table is priced as Pro |
| RoutesBilling.PriceOfLowerCaseNames | routes/billing_routes.py:23-39 | for lower-case names the price is the base, or twelve discounted months for an annual spelling |
| RoutesBilling.PriceAgreesWithCatalogue | routes/billing_routes.py:28-37 | Start, Pro and Enterprise cost what the catalogue (core/billing.py) charges for route, full and enterprise, monthly and annual |
| RoutesBilling.BaseMatchesCatalogue | routes/billing_routes.py:28-32 | the three base prices equal the catalogue's monthly prices |
| RoutesBilling.CanonicalFor | routes/billing_routes.py:52-64 | every raw name resolves to start, pro or enterprise: to the plan whose alias set holds it, and to pro when none does |
| RoutesBilling.AliasSetsAreDisjoint | routes/billing_routes.py:52-56 | no name belongs to two plans, so the order of the search does not matter |
| RoutesBilling.ResolvePlan | routes/billing_routes.py:58-64 | the search loop returns the plan the alias sets assign to the name |
| RoutesBilling.RequestedVehicles | routes/billing_routes.py:67 | a missing or empty count means 5; otherwise it is `int()` of the text, which may fail |
| RoutesBilling.CapVehicles | routes/billing_routes.py:69-78 | the count is lowered to the plan's maximum, with a warning, exactly when it exceeds that maximum; Enterprise has none and there is no lower bound |
| RoutesBilling.AnnualPricesSplitEvenly | routes/billing_routes.py:36-90 | a lower-case period is priced annually exactly for the annual spellings, and an annual price is twelve whole monthly equivalents in cents |
| RoutesBilling.Checkout | routes/billing_routes.py:42-91 | fails exactly when the vehicle count is not an integer; otherwise the page shows the resolved plan, the normalised period, the capped count and its price, a monthly equivalent exactly for annual periods (one twelfth of the price) and the label "Mensal" exactly for the others |
| RoutesBilling.NormalBilling | routes/billing_routes.py:66 | the period, defaulted to "monthly", stripped and lowered, is in lower case |
| RoutesBilling.Render | routes/billing_routes.py:79-90 | the page carries the plan, period, count and cap warning it was given, the `_price` of them, a monthly equivalent exactly for annual periods (one twelfth of the price) and the label "Mensal" exactly for the others |
| RoutesBilling.PriceOfCatalogueNames | routes/billing_routes.py:23-39 | for "start", "pro" or "enterprise" billed "monthly" or "annual" the price is the base, or twelve discounted months for "annual" |
| LegacyBilling.Checkout | billing_routes.py:10-54 | the handler ends in ImportError exactly when the imported module does not define `_price`, before anything is read |
| LegacyBilling.CheckoutAlwaysRaises | billing_routes.py:13 | billing/asaas_routes.py defines no `_price`, so the handler always raises |
| Db.MaxExists | core/db.py:196 | a non-empty id set has a greatest element, so `MAX(id)` is defined |
| Db.MaxOf | core/db.py:196 | `MAX(id)` is an id of the table and no id exceeds it |
| Db.NextId | core/db.py:194-198 | the next id is not in use and exceeds every id; it is 1 for an empty table and one more than the largest id otherwise |
| Db.Merged | core/db.py:251-257 | a column the payload gives is taken from it; any other takes the default |
| Db.RowOf | core/db.py:262-275 | the written row has exactly the vehicle columns, each from the merged payload |
| Db.Upserted | core/db.py:249-279 | fails (ValueError) exactly when the merged id is falsy; otherwise the key (client, id) is added or kept, its row replaced by the payload's, and every other row is unchanged |
| Db.UpsertVehicleIdempotent | core/db.py:249-279 | upserting the same payload twice is upserting it once |
| Db.ImportedId | core/db.py:329-331 | a row without an id, or with a blank one, is skipped; otherwise the id is the non-empty stripped text |
| Db.ImportRow | core/db.py:327-332 | a row without a usable id leaves the table as it was; otherwise the table gains exactly the key (client, id), holding the row with its id stripped, and every other row is kept as it was |
| Db.ImportVehiclesKeys | core/db.py:327-332 | after the import the table holds exactly the old keys and the (client, id) of every row with a usable id |
| Db.GetOrCreate | core/db.py:376-387 | an existing tracker is returned untouched; otherwise one row is added, active, with the fresh token and no vehicle; no other row changes |
| Db.GetOrCreateIdempotent | core/db.py:376-387 | a second call changes nothing, whatever token it would have drawn |
| Db.Bind | core/db.py:389-409 | the bind succeeds exactly when the tracker is new, `force` is set, or the tracker is not bound to another vehicle; a refused bind changes nothing; a successful one binds the tracker to the vehicle, creating it active with a fresh token when new, and no other row changes |
| Db.Unbind | core/db.py:411-417 | afterwards no tracker of the client is bound to the vehicle; those that were lose only their vehicle, and every other tracker is unchanged |
| Db.BindThenUnbind | core/db.py:389-417 | after a bind and an unbind of the same vehicle the tracker is unbound, and a bind to another vehicle then succeeds without force |
| Db.CreatedTrackerAuthenticates | core/db.py:376-438 | a tracker made by `tracker_get_or_create` matches its id and token in `get_tracker_owner` |
| Db.StatusFromDates | core/db.py:723-727 | "convertido" for a converted trial; otherwise "ativo" exactly until the end instant, then "expirado" |
| Db.MarkStatus | core/db.py:540-547 | only the row with the id changes: its status, and its period end when one is given, stored naive; an unknown id changes nothing |
| Db.Column | core/db.py:94 | a `TIMESTAMP` column gives back the moment written, naive whatever the zone written |
| Db.Stored | core/db.py:93-94 | a stored subscription has both timestamps naive at the moments written, and every other column as written |
| Db.MatchingIds | core/db.py:549-558 | the ids of the 'asaas' subscriptions with the reference |
| Db.ByProviderRef | core/db.py:549-558 | the highest id among the 'asaas' subscriptions with the reference, and None exactly when there is none |
| Db.Selected | core/db.py:528-538 | exactly the ids of the rows the WHERE clause keeps |
| Db.KeysOf | core/db.py:528-538 | exactly the sort keys of the given rows |
| Db.WithKey | core/db.py:528-538 | exactly the given rows with a given sort key |
| Db.LatestBy | core/db.py:528-538 | `ORDER BY key DESC LIMIT 1`: None exactly when no row is kept; otherwise a kept row whose key is the largest |
| Db.LatestSubscriptionFor | core/db.py:565-592 | the user's subscription started last, None exactly when the user has none |
| Db.ActiveSubscription | core/db.py:528-538 | among the user's active subscriptions, the one whose period ends last, rows without a period end coming after every dated one (DuckDB sorts NULLs last); None exactly when there is none |
| Db.ActiveTrial | core/db.py:701-712 | among the user's active trials the one ending last; None exactly when there is none |
| Db.Store.constructor | core/db.py:23-160 | all tables start empty |
| Db.Store.UpsertVehicle | core/db.py:249-279 | the vehicle table becomes `Upserted`, and stays unchanged on the ValueError |
| Db.Store.DeleteVehicle | core/db.py:281-284 | exactly the row (client, id) is removed |
| Db.Store.ImportVehiclesBulk | core/db.py:327-332 | the loop leaves the table the import specification describes |
| Db.Store.TrackerGet | core/db.py:355-363 | the row of (client, tracker), or None exactly when there is none |
| Db.Store.TrackerGetOrCreate | core/db.py:376-387 | the tracker table becomes `GetOrCreate`, and the returned row is the tracker's |
| Db.Store.TrackerBindVehicle | core/db.py:389-409 | the tracker table and the answer are those of `Bind` |
| Db.Store.TrackerUnbindVehicle | core/db.py:411-417 | the tracker table becomes `Unbind` |
| Db.Store.GetTrackerOwner | core/db.py:428-438 | None exactly when no active tracker has the id and token; otherwise the (client, vehicle) of one that does |
| Db.Store.CreateSubscription | core/db.py:515-526 | the subscription is stored, with naive timestamps, under the next id, which was unused, and nothing else changes |
| Db.Store.MarkSubscriptionStatus | core/db.py:540-547 | the subscription table becomes `MarkStatus` |
| Db.Store.GetSubscriptionByProviderRef | core/db.py:549-558 | answers `ByProviderRef` and changes nothing |
| Db.Store.InsertTelemetry | core/db.py:477-484 | exactly one telemetry row is appended |
| Subscriptions.HasActiveSubscription | subscriptions.py:8-28 | no subscription means no; comparing a naive period end with the aware `now` raises TypeError; otherwise yes exactly when the latest subscription is active, has a period end and that end has not passed |
| Subscriptions.OnlyActiveWithEndPasses | subscriptions.py:16-26 | a latest subscription without a period end, or with a status other than "active", never passes |
| Subscriptions.PastDueNewestBlocks | subscriptions.py:9-26 | the most recently started subscription decides: a newest past-due row blocks even when an older one is active |
| Subscriptions.NewestIsLatest | subscriptions.py:9 | the row started after all the user's others is the one `get_latest_subscription_for_user` returns |
| Subscriptions.ConfirmedCheckoutIsActive | subscriptions.py:8-28 | after a confirmed checkout (routes/checkout_routes.py) the user passes until the end of the first period: as written when the row keeps its zone, and under the intended check for the row as stored |
| Subscriptions.ConfirmedCheckoutRaises | subscriptions.py:22 | after a confirmed checkout the stored period end is naive, so the check as written raises TypeError for that user |
| Subscriptions.IntendedHasActiveSubscription | subscriptions.py:8-28 | the check with a naive period end read as UTC: yes exactly when the latest subscription is active and its end has not passed |
| Subscriptions.IntendedAgrees | subscriptions.py:8-28 | wherever the check as written answers, the intended one gives the same answer |
| Subscriptions.SubscriptionRequired | subscriptions.py:29-37 | the view runs exactly for a user with an active subscription; any other user is redirected to pricing; the TypeError propagates |
| Authz.TrialOpen | core/authz.py:16-26 | an aware end is compared with now; a naive datetime makes `fromisoformat` raise TypeError; ISO text that does not parse raises ValueError; parsed naive text is read as UTC |
| Authz.StoredTrialRaises | core/authz.py:15-26 | with no active subscription, an active trial whose stored end is naive makes `user_has_access` raise TypeError |
| Authz.IntendedTrialOpen | core/authz.py:19-26 | the trial branch as meant: a datetime of either kind is compared with now, text as before |
| Authz.IntendedTrialOpenAgrees | core/authz.py:19-26 | the intended branch never raises TypeError and agrees with the written one wherever that answers |
| Authz.TrialAccess | core/authz.py:15-27 | without an active trial the answer is no; otherwise the trial that ends last decides |
| Authz.UserHasAccess | core/authz.py:8-27 | administrators pass; otherwise an active subscription passes; otherwise the trial decides |
| Authz.AccessNeedsARow | core/authz.py:8-27 | without administrator rights, access rests on an active subscription row or an active trial that ends after now |
| Authz.AdminRequired | core/authz.py:30-39 | 401 when nobody is logged in, 403 for a non-administrator, and the view runs exactly for a logged-in administrator |
| Authz.AdminsHaveAccess | core/authz.py:8-39 | whoever passes `admin_required` also passes `user_has_access` |
| LegacyAuthz.TrialOpen | authz.py:10-14 | every datetime is compared with the aware now as it is: a naive one raises TypeError, unparsable text ValueError |
| LegacyAuthz.TrialAccess | authz.py:9-15 | without an active trial no; otherwise the trial that ends last decides |
| LegacyAuthz.UserHasAccess | authz.py:5-15 | an active subscription passes; otherwise the trial decides; there is no administrator bypass |
| LegacyAuthz.NewerExtendsOlder | authz.py:10-14 | wherever this trial check answers, core/authz.py gives the same answer |
| LegacyAuthz.NewerExtendsOlderOnTables | authz.py:5-15 | wherever this check answers, core/authz.py answers the same for a non-administrator |
| LegacyAuthz.NaiveIsoTextDiffers | authz.py:14 | naive ISO text raises TypeError here but is read as UTC by core/authz.py |
| Limits.PlanLimit | core/limits.py:4-37 | pro gives 50, enterprise 9 999 999, any other name the Start limit 5 |
| Limits.CatalogueKeysGetStartLimit | core/limits.py:37 | the catalogue's keys "route" and "full" are not limit names, so both get 5 |
| Limits.VehicleLimitForUser | core/limits.py:10-38 | as written: fails (AttributeError) exactly when the user has an active subscription; otherwise the limit is 5 |
| Limits.SubscribedUserRaises | core/limits.py:23 | a user with one active Pro subscription makes the code raise, where the intended limit is 50 |
| Limits.IntendedVehicleLimit | core/limits.py:10-38 | the intended chain: the lower-cased plan of the active subscription, else Start (trial or not), read through the limit table |
| Limits.IntendedAgreesWithoutSubscription | core/limits.py:10-38 | wherever the code as written answers, the intended limit agrees |
| AsaasWebhook.SignatureRule | asaas_webhook.py:8-12 | without a secret every request passes; with one, exactly the requests whose signature is the HMAC digest of the body |
| AsaasWebhook.Applied | asaas_webhook.py:23-40 | a received or confirmed payment makes the latest 'asaas' subscription with the payment's reference active until 365 days (annual) or 30 days from now, that end stored naive; an overdue, deleted or refunded one makes it past due and keeps its period end; any other event, a missing id or an unknown reference changes nothing, and no other row changes |
| AsaasWebhook.EventOf | asaas_webhook.py:23 | a falsy event reads as "", a text event as its upper case, and any other event raises |
| AsaasWebhook.PayIdOf | asaas_webhook.py:24-25 | a payment object gives its id, a falsy payment gives none, and any other truthy payment raises |
| AsaasWebhook.Webhook | asaas_webhook.py:14-41 | 401 with no change exactly for a bad signature; 400 exactly for a body that is not JSON; 500 with no change exactly for a body that is not an object, an event that is not text or a payment that is not an object; otherwise the upper-cased event is applied and the reply is ok |
| AsaasWebhook.EventCaseIgnored | asaas_webhook.py:23 | upper-casing the event twice has the same effect as once |
| AsaasWebhook.PaymentActivates | asaas_webhook.py:35-38 | after a received payment on the user's newest subscription, the user holds an active subscription until the new period end, under the check that reads a naive end as UTC |
| AsaasWebhook.PaymentRaises | asaas_webhook.py:35-38 | after a received payment on the user's newest subscription, the stored end is naive and `user_has_active_subscription` as written raises TypeError for that user |
| AsaasWebhook.LapseDeactivates | asaas_webhook.py:39-40 | after an overdue, deleted or refunded payment on the user's newest subscription, the user no longer holds an active subscription, under both the written and the intended check |
| TrialStore.H | trial_store.py:10-12 | the empty string hashes to "" and nothing else does |
| TrialStore.HInjective | trial_store.py:10-12 | only equal inputs share a hash (HMAC modelled as collision-free) |
| TrialStore.RecordOf | trial_store.py:36-43 | the appended record carries the user, the hashes of the lower-cased e-mail, the IP and the fingerprint, the time and the note |
| TrialStore.EmailCaseIgnored | trial_store.py:27 | e-mail addresses that differ only in case match the same records |
| TrialStore.BlankFingerprintsCollide | trial_store.py:27-30 | two attempts without a fingerprint, or without an IP, inside the window match each other, whoever makes them |
| TrialStore.TrialFile.constructor | trial_store.py:14-18 | the loaded records |
| TrialStore.TrialFile.Register | trial_store.py:34-44 | exactly one record is appended and the earlier ones are kept |
| TrialStore.TrialFile.ExistsRecent | trial_store.py:24-32 | true exactly when some record created inside the window shares the e-mail, IP or fingerprint hash |
| TrialStore.RegisteredIsRecent | trial_store.py:24-44 | after a registration the same e-mail, in any case, is found for as long as the window reaches back to it |
| TrialRoutes.ClientIp | routes/trial_routes.py:10-14 | the first entry of a non-empty X-Forwarded-For, stripped and free of commas; otherwise the remote address; otherwise "0.0.0.0" |
| TrialRoutes.StripIsInside | routes/trial_routes.py:13 | stripping does not add a comma |
| TrialRoutes.FirstForwardedEntry | routes/trial_routes.py:11-13 | a proxy address after the first comma never becomes the client IP |
| TrialRoutes.Fingerprint | routes/trial_routes.py:22 | the `fp` argument when non-empty, else the `fp_token` cookie when non-empty, else "" |
| TrialRoutes.TrialSubscription | routes/trial_routes.py:28-40 | plan and billing "trial", five vehicles, active for fourteen days from now |
| TrialRoutes.TrialStart | routes/trial_routes.py:16-43 | back to the landing page, changing nothing, exactly when a record of the last 90 days matches; otherwise one trial subscription, as stored, under the next id and one appended record |
| TrialRoutes.NoSecondTrial | routes/trial_routes.py:24 | a second trial for the same e-mail within 90 days is refused |
| FleetRoutes.ImeiRule | routes/fleet_routes.py:46-47 | an IMEI is valid exactly when it is fifteen decimal digits |
| FleetRoutes.Cleaned | routes/fleet_routes.py:78-99 | only allowed keys are kept; the numeric fields keep None or an `int()`-readable value (as an integer) and drop the rest; the service date is kept exactly when truthy, as text; every other allowed field is kept as it is |
| FleetRoutes.Sanitized | routes/fleet_routes.py:74-101 | the filtered update holds only allowed keys of the payload |
| FleetRoutes.SanitizeIdempotent | routes/fleet_routes.py:74-101 | filtering an already filtered update changes nothing |
| FleetRoutes.SanitizeVehicleUpdate | routes/fleet_routes.py:74-101 | the loop over the payload's keys builds exactly the filtered update |
| FleetRoutes.ExtractPlan | routes/fleet_routes.py:124-139 | on the tuple rows the database returns, `_extract_plan` yields the first column, the row id, and None without a row |
| FleetRoutes.PlanNameForClient | routes/fleet_routes.py:114-142 | the "plan name" is None or an integer id, never a plan name |
| FleetRoutes.LimitOf | routes/fleet_routes.py:107-151 | a non-text name gets the Start limit; a text name is looked up in the limit table |
| FleetRoutes.VehicleLimitForClient | routes/fleet_routes.py:145-153 | as written: 5 for every client, whatever the plan |
| FleetRoutes.IntendedVehicleLimitForClient | routes/fleet_routes.py:114-153 | the intended limit: the plan column of the active trial, else of the active subscription, read through the limit table |
| FleetRoutes.ProClientHeldToStart | routes/fleet_routes.py:136-151 | a client with an active Pro subscription gets 5 as written, 50 as intended |
| FleetRoutes.Payload | routes/fleet_routes.py:293-303 | the upserted payload carries exactly the id and the eight descriptive fields, with the id the stripped request id |
| FleetRoutes.RequestedId | routes/fleet_routes.py:266-271 | an id is used only when the request's id is truthy and its stripped text is non-empty |
| FleetRoutes.CreateVehicle | routes/fleet_routes.py:256-333 | a body that is not JSON, or a truthy JSON value that is not an object, gives 500 and changes nothing; a falsy one reads as `{}`; for a given rule of vehicle limits, a request `Admit` refuses (400 without an id, 403 for a new vehicle at the client's limit) changes nothing and answers its code; an admitted one upserts the payload under the stripped id, then answers and binds the IMEI as `AfterSave` says |
| FleetRoutes.Admit | routes/fleet_routes.py:266-291 | 400 exactly when there is no usable id; 403 exactly when there is one, the vehicle is new and the client already has at least the given limit; otherwise the stripped id, which is non-empty text |
| FleetRoutes.ProClientRefusedSixthVehicle | routes/fleet_routes.py:277-291 | with the limit as written, a Pro client that has five vehicles is refused a new one with 403, where the intended limit admits it |
| FleetRoutes.AfterSave | routes/fleet_routes.py:310-328 | after the save: an IMEI that is not text gives 500, an empty one 200, an invalid one 400, each with the tracker table unchanged; a valid one gives 200 and the table bound with force, the IMEI now pointing at the vehicle |
| FleetRoutes.BindImei | routes/fleet_routes.py:310-328 | the IMEI step changes the tracker table and answers exactly as `AfterSave` says |
| FleetRoutes.PayloadColumns | routes/fleet_routes.py:293-303 | the payload names its own id and leaves out the telemetry and service columns |
| FleetRoutes.BadImeiStillSaves | routes/fleet_routes.py:307-315 | a request with a bad IMEI is refused only after the vehicle has been saved |
| FleetRoutes.ResaveResetsTelemetry | routes/fleet_routes.py:293-307 | re-saving an existing vehicle resets its last position and service counters to the defaults of `upsert_vehicle` |
| FleetRoutes.DeleteVehicle | routes/fleet_routes.py:492-515 | 400 with no change for a blank id; otherwise the row is deleted and, since `delete_vehicle` returns None, the answer is always 404 |
| TelemetryRoutes.Coordinates | routes/telemetry_routes.py:48-53 | coordinates exist exactly when both keys are present and both convert with `float()`, and are those values |
| TelemetryRoutes.Reading | routes/telemetry_routes.py:56-57 | absent speed and fuel read as 0.0 |
| TelemetryRoutes.VehicleIdFor | routes/telemetry_routes.py:55 | the payload's vehicle id when non-blank, else the tracker's bound vehicle when there is one, else "UNKNOWN"; never empty |
| TelemetryRoutes.Timestamp | routes/telemetry_routes.py:58-65 | an absent or empty time is now; ISO text is parsed with "Z" read as "+00:00", and text that does not parse is now |
| TelemetryRoutes.UnreadableTimeIsNow | routes/telemetry_routes.py:60-63 | a reading whose time does not parse is stamped with the clock |
| TelemetryRoutes.RowFor | routes/telemetry_routes.py:55-67 | the stored row carries the tracker's client, the chosen vehicle, the coordinates, speed, fuel and time |
| TelemetryRoutes.Ingest | routes/telemetry_routes.py:31-68 | in order: a body that is not JSON 400, a truthy JSON value that is not an object 500 (a falsy one reads as `{}`), missing imei or token 400, unknown tracker 403, missing or unreadable coordinates 400, unreadable speed or fuel 500; any failure leaves the table unchanged; success appends exactly one row, for the client of a tracker matching the imei and token; the older handler telemetry_routes.py:31-70 is the same chain line for line |
| TelemetryRoutes.KeptIds | routes/telemetry_routes.py:116 | the kept ids are never more than the comma-separated pieces |
| TelemetryRoutes.KeptIdsOfOne | routes/telemetry_routes.py:116 | one piece is kept, as its number, exactly when its stripped text is non-empty and all digits |
| TelemetryRoutes.KeptIdsAppend | routes/telemetry_routes.py:116 | pieces are kept independently and in order: the ids of two runs of pieces are the ids of the first followed by those of the second |
| TelemetryRoutes.ParseIds | routes/telemetry_routes.py:116 | a missing or empty `ids` parameter gives no ids; otherwise the ids are the kept comma-separated pieces |
| TelemetryRoutes.Rendered | routes/telemetry_routes.py:116 | each id written in decimal |
| TelemetryRoutes.KeptRendered | routes/telemetry_routes.py:116 | decimal renderings of ids are all kept, and read back as the ids |
| TelemetryRoutes.ParseIdsOfJoin | routes/telemetry_routes.py:116-118 | a comma-joined list of ids is read back as that list, and an empty one as no ids |
| TelemetryRoutes.LinkTracker | routes/telemetry_routes.py:15-29 | 400 exactly without an imei or a secret token; otherwise the call to `tracker_get_or_create` with keyword arguments it does not accept raises, so the route never succeeds |
| LegacyTelemetry.LinkTracker | telemetry_routes.py:19-29 | 400 exactly without an imei or a secret token; otherwise `upsert_tracker`, never imported, raises NameError, so the route never succeeds |
| VendorIngest.VendorTables.constructor | vendor_ingest_routes.py:28 | the vendor tables start empty |
| VendorIngest.OrNone | vendor_ingest_routes.py:33-34 | a blank text is stored as NULL and only a blank one |
| VendorIngest.UpsertRow | vendor_ingest_routes.py:31-44 | an item with a blank vehicle_id changes nothing; otherwise the row of (client, vehicle_id) becomes the item's and no other row changes |
| VendorIngest.ReinsertIsUpdate | vendor_ingest_routes.py:37-44 | a DELETE followed by an INSERT of the same key replaces that key's row |
| VendorIngest.AppliedStep | vendor_ingest_routes.py:31-44 | the loop applies one item at a time, in order |
| VendorIngest.UpsertedKeys | vendor_ingest_routes.py:31-44 | afterwards the table holds exactly the old keys and one key per non-blank vehicle_id the items give for the client |
| VendorIngest.LastItemWins | vendor_ingest_routes.py:31-44 | the last item naming a vehicle decides its row, whatever earlier items said |
| VendorIngest.UntouchedRowsKept | vendor_ingest_routes.py:31-44 | rows of other clients, and rows no item names, are kept as they were |
| VendorIngest.FirstNonObject | vendor_ingest_routes.py:31-32 | the position of the first list element that is not an object: every element before it is one |
| VendorIngest.UpsertVehicles | vendor_ingest_routes.py:12-46 | 400 with no change for a body that is not JSON or not a non-empty list; otherwise the items are applied in order up to the first element that is not an object, which answers 500 and keeps the earlier rows; with none, every item is applied and the count is the number of items, skipped ones included |
| VendorIngest.ClientFor | vendor_ingest_routes.py:62-66 | the body's truthy client_id, else the logged-in user's id as text; none (400) exactly when neither exists |
| VendorIngest.PointStep | vendor_ingest_routes.py:74-101 | an unreadable speed or fuel raises even before the skip test; a point is skipped exactly when its vehicle_id, lat or lon is None; a written row carries the client, the vehicle as text, the coordinates, the readings, and the cast timestamp or now |
| VendorIngest.ItemStep | vendor_ingest_routes.py:74-80 | an element of the points list that is not an object raises at its first `.get`; an object is read as a point |
| VendorIngest.Written | vendor_ingest_routes.py:74-101 | no more rows than points |
| VendorIngest.FailureIsFinal | vendor_ingest_routes.py:74-101 | once a point has raised, the later points change nothing |
| VendorIngest.WritePoints | vendor_ingest_routes.py:74-101 | the loop appends the written rows in order and stops at the first point that raises; `failed` says whether one did and `inserted` counts the rows |
| VendorIngest.RowsComeFromPoints | vendor_ingest_routes.py:74-101 | every written row comes from one of the points that is an object, for the request's client |
| VendorIngest.MissingReadingsDefault | vendor_ingest_routes.py:78-100 | a point without speed, fuel or time is written with 0.0, 0.0 and now |
| VendorIngest.UnreadableSpeedRaisesBeforeSkip | vendor_ingest_routes.py:78-83 | a point with no vehicle_id but an unreadable speed fails the request instead of being skipped |
| VendorIngest.EarlierRowsSurviveFailure | vendor_ingest_routes.py:74-101 | an element that raises after a written point (an unreadable point, or one that is not an object) fails the request, and the earlier row stays (there is no transaction) |
| VendorIngest.IngestTelemetryBulk | vendor_ingest_routes.py:48-103 | 400 with no change for a body that is not JSON; 500 with no change for one that is not an object; 400 with no change without a client or without a non-empty point list; otherwise the written rows are appended, 500 exactly when an element raised, and on success `inserted` counts the written rows |
| RoutesVendorIngest.UnsetTokenAcceptsBareBearer | routes/vendor_ingest_routes.py:10-16 | with no token configured, only the header "Bearer " passes |
| RoutesVendorIngest.SetTokenRule | routes/vendor_ingest_routes.py:10-16 | with a token configured, exactly the matching Bearer header or the matching query token passes |
| RoutesVendorIngest.Items | routes/vendor_ingest_routes.py:33 | a single object becomes a one-item list |
| RoutesVendorIngest.ItemStep | routes/vendor_ingest_routes.py:37-55 | the adapter's error propagates, and only it; a blank tracker id or an unbound tracker is skipped; otherwise one row for the bound vehicle |
| RoutesVendorIngest.Saved | routes/vendor_ingest_routes.py:36-57 | no more rows than items |
| RoutesVendorIngest.ErrorIsFinal | routes/vendor_ingest_routes.py:36-60 | an error stays an error whatever follows |
| RoutesVendorIngest.AddAll | routes/vendor_ingest_routes.py:36-57 | the loop gathers the saved rows in order and stops at the first error, which is the result |
| RoutesVendorIngest.OneBadItemLosesBatch | routes/vendor_ingest_routes.py:36-60 | one item the adapter cannot read, wherever it is, loses the whole batch |
| RoutesVendorIngest.SavedRowsAreBound | routes/vendor_ingest_routes.py:42-47 | every saved row belongs to a vehicle a tracker is bound to |
| RoutesVendorIngest.ProviderIsIrrelevant | routes/vendor_ingest_routes.py:23 | whatever the provider in the URL, the same rows are saved as with the generic adapter |
| RoutesVendorIngest.Session.constructor | routes/vendor_ingest_routes.py:34 | the session holds the tracker bindings and no rows |
| RoutesVendorIngest.VendorIngest | routes/vendor_ingest_routes.py:18-62 | 401 with no change without credentials, 400 for a body that is not JSON; for a body of objects, all rows are committed (200, `saved` rows) or, on any error, none (500) |
| RequestParsing.GetOr | app.py:720-723 | `d.get(k, default)`: the default only for an absent key; a key present with None keeps None |
| RequestParsing.ClockMinutes | app.py:713-722 | only text can be read as a clock time (`split` on anything else raises); text goes through `hhmm_to_minutes` |
| RequestParsing.Position | app.py:704-741 | the geocoder is asked exactly when lat or lon is None and an address is truthy, and a miss is an error; otherwise both coordinates must convert with `float()` |
| RequestParsing.CoordinatesAreNotGeocoded | app.py:705-729 | a point given by coordinates is never geocoded |
| RequestParsing.ParseDepot | app.py:703-714 | the depot parses exactly when its position does and both window ends exist and read as clock times; the window is those two times |
| RequestParsing.ParseVehicle | app.py:717-724 | a vehicle parses exactly when it has an id and its capacity, shift ends and speed factor read; the fields are those values or their defaults |
| RequestParsing.VehicleDefaults | app.py:720-723 | a vehicle given only by its id has capacity 999999, the whole day from 0 to 1439 minutes and speed factor 1.0 |
| RequestParsing.StopWindow | app.py:735-737 | a stop has a window only when both `tw_start` and `tw_end` are truthy, and then both must read |
| RequestParsing.ParseStop | app.py:728-745 | a stop parses exactly when its position and window do, it has an id, and demand and service time read; absent ones are 0 |
| RequestParsing.StopDefaults | app.py:736-743 | a stop with coordinates and an id only has demand 0, service 0 and no window; a window with one end missing is dropped |
| RequestParsing.GeocodeMissFails | app.py:729-732 | an address the geocoder cannot place fails the whole request |
| RequestParsing.ParseVehicles | app.py:716-724 | every vehicle parses, in order, or the request fails |
| RequestParsing.ParseStops | app.py:726-745 | every stop parses, in order, or the request fails |
| RequestParsing.AllOk | app.py:716-745 | the list of parsed elements succeeds exactly when every element does, and then holds their values in order |
| RequestParsing.ParseRequest | app.py:702-753 | the request parses exactly when the depot, vehicle list and stop list exist and all parse; the result holds them, the objective (default "min_cost") and the truthiness of include_tolls (default true) |
| RequestParsing.RequestDefaults | app.py:751-752 | without "objective" and "include_tolls" the request minimises cost and counts tolls |
| Simulator.Segment | simulador_recife_olinda.py:71-75 | a leg contributes `points_per_segment` points, and none when that count is not positive (`range` is then empty) |
| Simulator.RoutePoints | simulador_recife_olinda.py:59-79 | an empty waypoint list raises IndexError at `waypoints[-1]`; otherwise the route is non-empty and ends at the last waypoint |
| Simulator.BuildRoutePoints | simulador_recife_olinda.py:59-79 | the two nested loops build exactly `RoutePoints`: every leg's points in order, then the last waypoint |
| Simulator.InterpolatedLength | simulador_recife_olinda.py:67-75 | k legs contribute k times `points_per_segment` points |
| Simulator.RouteLength | simulador_recife_olinda.py:59-79 | with waypoints and a positive count the route has (waypoints - 1) * points_per_segment + 1 points |
| Simulator.InterpolatedAt | simulador_recife_olinda.py:67-75 | point `step` of leg `i` sits at index `i * points_per_segment + step`, at fraction `step / points_per_segment` of the leg |
| Simulator.LegStartsAtWaypoint | simulador_recife_olinda.py:71-74 | every leg starts exactly at its waypoint (t = 0) |
| Simulator.LerpBetween | simulador_recife_olinda.py:71-74 | an interpolated point lies between the leg's two waypoints in latitude and in longitude |
| Simulator.BetweenOnAxis | simulador_recife_olinda.py:73-74 | one coordinate moved by a fraction in [0, 1] of the way stays between the two ends |
| Simulator.ScaleDown | simulador_recife_olinda.py:73-74 | a coordinate difference scaled by a fraction in [0, 1] stays between 0 and the difference, whatever its sign |
| Simulator.FractionBelowOne | simulador_recife_olinda.py:72 | `step / float(points_per_segment)` lies in [0, 1) for every step of the range |
| Simulator.RoutePointBetween | simulador_recife_olinda.py:67-75 | every interpolated point of the route lies between the waypoints of its leg |
| Simulator.OnePointPerLeg | simulador_recife_olinda.py:67-75 | with one point per leg the interpolated points are exactly the waypoints but the last |
| Dispatch.TimeGrid | app.py:770-777 | `time_m_all` is square of side len(all_points) and cell (i, j) is the provider's minutes for (i, j) |
| Dispatch.DistGrid | app.py:770-777 | `dist_m_all` is square of side len(all_points) and cell (i, j) is the provider's kilometres for (i, j) |
| Dispatch.Grids | app.py:770-777 | the double loop fills both grids with exactly those cells |
| Dispatch.LastTagWins | app.py:779-780 | in `id_to_vehicle` a stop id maps to the "vehicle" of the last raw stop with that id |
| Dispatch.TagsHaveIds | app.py:780 | only truthy ids are keys of `id_to_vehicle` |
| Dispatch.TaggedMembers | app.py:783-788 | a vehicle's group holds exactly the stops whose tag is that vehicle |
| Dispatch.TagValuesMembers | app.py:783-788 | a tag has a group exactly when it is truthy and some stop carries it |
| Dispatch.GroupStep | app.py:783-788 | one more stop extends its own tag's group by itself and leaves every other group alone |
| Dispatch.GroupByTag | app.py:781-788 | TypeError exactly when some stop id, or some truthy tag, is a list or a dictionary; otherwise the loop builds exactly the tag groups, and `has_assignment` holds exactly when some stop has a truthy tag |
| Dispatch.AddStop | app.py:783-788 | one round of the loop keeps its invariant: after the first i + 1 stops there is a group per truthy tag seen, holding those stops in order, and `has_assignment` says whether any group exists |
| Dispatch.RrPartition | app.py:823-829 | with stops and no vehicle `i % len(vid_list)` raises; otherwise the buckets are the round-robin ones |
| Dispatch.BucketStep | app.py:827-828 | stop i goes to the bucket of `vid_list[i % k]` and no other bucket changes |
| Dispatch.BucketSize | app.py:823-829 | with distinct ids, bucket j holds n / k stops, one more when j < n % k |
| Dispatch.StopPlacement | app.py:827-828 | stop i is entry i / k of the bucket of `vid_list[i % k]`, so the buckets hold every stop once, in request order |
| Dispatch.BucketMembers | app.py:823-829 | a bucket holds only stops of the request |
| Dispatch.DivModUnique | app.py:828 | quotient and remainder by k are determined by `x == q * k + r` with 0 <= r < k |
| Dispatch.DivModStep | app.py:828 | from i to i + 1 the remainder grows by one or wraps to 0 with the quotient growing |
| Dispatch.IndexOf | app.py:797 | `req.stops.index(s)` is the first position holding a stop equal to s |
| Dispatch.IdxMap | app.py:797 | `idx_map` starts with the depot 0 and maps local node a to 1 + the request position of stop a - 1 |
| Dispatch.SliceInput | app.py:795-821 | the solver gets the sub-grids read through `idx_map`, depot 0, service times and demands 0 at the depot, the depot window for stops without their own, the given vehicles and the request's objective |
| Dispatch.SubGrid | app.py:796-805 | the slice grid is square of the slice's size and cell (a, b) is the full grid's cell (idx_map[a], idx_map[b]) |
| Dispatch.SubGrids | app.py:800-805 | the nested loops fill both slice grids exactly as `SubGrid` describes |
| Dispatch.ServiceTimes | app.py:808 | 0 for the depot, then each stop's own service minutes, in order |
| Dispatch.Demands | app.py:809 | 0 for the depot, then each stop's own demand, in order |
| Dispatch.SliceWindows | app.py:810-815 | the depot's window first, then for each stop its own window or else the depot's |
| Dispatch.Windows | app.py:810-815 | the loop appends exactly the windows `SliceWindows` describes |
| Dispatch.Slice | app.py:795-821 | the double loop and the window loop build exactly that input |
| Dispatch.Remap | app.py:847-851 | local node 0 stays 0 and local node n becomes the request position (plus one) of subset stop n - 1 |
| Dispatch.RemapAgreesWithSlice | app.py:797-851 | remapping a node gives the same global node `idx_map` used to build the slice |
| Dispatch.RemapNodes | app.py:846-852 | the loop remaps every node of a route, in order |
| Dispatch.RemapRoutes | app.py:844-854 | every route of the reply is kept, in order, remapped and labelled with the vehicle |
| Dispatch.PosOf | app.py:793 | the entry of `veh_by_id` for an id, or -1 when there is none |
| Dispatch.VehByIdEntries | app.py:793 | `veh_by_id` has one entry per id, each a vehicle of the request |
| Dispatch.VehByIdLastWins | app.py:793 | the last vehicle with a given id is the one dispatched under it |
| Dispatch.TotalsAppend | app.py:855-856 | the totals of two route lists add up |
| Dispatch.RemappedTotals | app.py:855-856 | remapping keeps each route's minutes and kilometres, so the totals are the reply's |
| Dispatch.TotalsAreSums | app.py:855-858 | `total_time_min` and `total_dist_km` are the sums over the returned routes, empty routes counting 0 |
| Dispatch.RoutesVisitOwnStops | app.py:837-856 | every node of a vehicle's route is the depot or one of that vehicle's own stops |
| Dispatch.StepAddsOneRoute | app.py:837-858 | one pass of the loop appends exactly the route of its own `veh_by_id` entry, empty when the entry has no stops |
| Dispatch.OneRoutePerVehicle | app.py:837-858 | when the solver answers each single-vehicle slice with one route, the response has one route per `veh_by_id` entry, in order |
| Dispatch.RejectionIsFinal | app.py:842-843 | a slice the solver does not solve ends the loop: later vehicles change nothing |
| Dispatch.NoStopsGiveEmptyRoutes | app.py:838-858 | without stops every vehicle gets the route [0, 0] costing 0, and the totals are 0 |
| Dispatch.SolveVehicle | app.py:838-858 | one vehicle of the loop does exactly one step of `DispatchAll` |
| Dispatch.SolveEach | app.py:837-858 | the loop over `veh_by_id` computes `DispatchAll` over its entries |
| Dispatch.Assignment | app.py:779-835 | TypeError exactly when a stop id, a truthy tag or a vehicle id is a list or a dictionary; otherwise tagged groups when any stop is tagged, round-robin buckets otherwise, and ZeroDivisionError exactly for untagged stops with no vehicle; every group holds stops of the request |
| Dispatch.GroupsWithinStops | app.py:783-788 | tag groups hold only stops of the request |
| Dispatch.BucketsWithin | app.py:823-829 | round-robin buckets hold only stops of the request |
| Dispatch.UntaggedStopsDropped | app.py:783-838 | when every key hashes and any stop is tagged, a stop without a truthy tag is in no group and so on no route |
| Dispatch.RouteStops | app.py:770-858 | after the matrix: 500 for an unhashable key (TypeError) or the round-robin ZeroDivisionError, otherwise the dispatch result, with 400 on a rejection and 200 otherwise |
| Dispatch.Optimize | app.py:757-890 | 400 for an unparsable request, 500 for a provider failure or a missing matrix cell, then as `RouteStops`, except that a dispatched request answers 500 when the maintenance loop raises and 200 only when it completes |
| Dispatch.EntryFor | app.py:886-888 | a missing "telemetry" field gives the default entry, an object gives the vehicle's entry under a text id or the default, and any other value raises AttributeError |
| Dispatch.Maintenance | app.py:886-890 | the loop over the vehicles completes exactly when every vehicle's entry is found and predicted without raising |
| Dispatch.MissingTelemetryPredicts | app.py:886-890 | without a "telemetry" field the maintenance loop never raises |
| Dispatch.NonObjectTelemetryFails | app.py:886-888 | a "telemetry" field that is null, a number, text, a boolean or a list makes the loop raise as soon as there is a vehicle |
| Dispatch.UnreadableMileageFails | core/maintenance/predictor.py:4 | an entry whose "km_rodados" is "abc" makes `float()` raise and the request fail |
| TelemetryEvents.TurnDeltaSymmetric | app.py:432-434 | the turn between two bearings does not depend on their order |
| TelemetryEvents.TurnDeltaRange | app.py:432-434 | for bearings in [0, 360) the turn lies in [0, 180] and is 0 exactly for equal bearings |
| TelemetryEvents.TurnDeltaWraps | app.py:432-434 | turning d degrees one way is the same turn as 360 - d the other way |
| TelemetryEvents.GroupByVehicle | app.py:473-474 | `groupby` yields no empty run |
| TelemetryEvents.GroupByVehicleIsWellGrouped | app.py:473-474 | the runs read in order are the points, each run is of one vehicle and neighbouring runs differ |
| TelemetryEvents.GroupsFlatten | app.py:473-474 | the runs read one after the other are exactly the points |
| TelemetryEvents.GroupsAreRuns | app.py:473-474 | each run is of one vehicle, and neighbouring runs are of different vehicles |
| TelemetryEvents.OverspeedMembers | app.py:476-484 | an overspeed event is reported exactly for each point above the limit, with its position, time and speed |
| TelemetryEvents.DetectOverspeed | app.py:476-484 | the loop builds the overspeed events of the run, in order |
| TelemetryEvents.RunEnd | app.py:487-496 | a slow stretch runs from its start to the last slow point before a fast one or the end |
| TelemetryEvents.RunEndAt | app.py:487-496 | a stretch slow up to e and not beyond ends at e |
| TelemetryEvents.StopsFrom | app.py:486-526 | every stop event names the run's vehicle and lasts at least `stop_min_minutes` |
| TelemetryEvents.StopsComeFromRuns | app.py:486-526 | every stop event is that of a maximal slow stretch (of two points or more when it reaches the end) placed at its middle point |
| TelemetryEvents.RunsAreReported | app.py:486-526 | every maximal slow stretch long enough in minutes is reported |
| TelemetryEvents.MovingVehicleHasNoStops | app.py:488-490 | a run never below `stop_speed_kmh` has no stop event |
| TelemetryEvents.LoneTrailingSlowPointIgnored | app.py:512 | a single slow point at the end of the run is never a stop |
| TelemetryEvents.DetectStops | app.py:486-526 | the `start_idx` loop builds exactly the stop events of the run, in order |
| TelemetryEvents.ScanPoint | app.py:491-511 | one point of the loop keeps its invariant: the events found so far, followed by the stops from the open stretch (or from the next point), are all the stops of the run |
| TelemetryEvents.StopsAfterRun | app.py:495-511 | a faster point closes the open slow stretch, which is reported exactly when it lasted `stop_min_minutes`, at its middle point and last timestamp |
| TelemetryEvents.DetectEvents | app.py:468-526 | `_detect_events` without the harsh-turn pass: per run, its overspeed events then its stop events |
| TelemetryEvents.EventsNameTheirVehicle | app.py:473-526 | every event names the vehicle of the run it was drawn from |

## Left out

- The VRPTW solver (core/solver/vrptw.py) is a parameter `solve` of the dispatch members. The model does not capture its OR-Tools search, nor that its reported time and distance leave out the leg back to the depot.
- Dispatch.Optimize and Dispatch.RouteStops require the solver to number the nodes of its routes within the slice it was given. A reply that names a node outside the slice would raise IndexError in `subset[n - 1]`, and that case is not modelled.
- The routing provider's HTTP calls, the geocoders, the payment gateways and the notifier are not modelled. Each reply is an input of the member that reads it.
- The clock is an integer parameter. ISO-8601 and `datetime.fromisoformat` parsing is a partial function parameter, and naive and aware datetimes are told apart only where a comparison between them raises.
- HMAC-SHA256 (trial_store.py, asaas_webhook.py) is treated as an injective function. `secrets.token_urlsafe` is a parameter.
- Floating point: prices are exact integer cents, and coordinates, minutes and kilometres are exact reals. `round(minutes, 1)` of the stop events is not applied.
- Python's dynamic values are the `Value` datatype. `1 == 1.0 == True` equality across numeric types is not reproduced: a float key never equals an integer key. `str.isdigit` accepts only ASCII digits here, not every Unicode digit (FleetRoutes.ValidImei, TelemetryRoutes.KeptIds).
- Common's text helpers cover ASCII and Latin-1 only. IsSpace (used by Strip and by `\s`) knows the ASCII white space, Lower and Upper map ASCII and Latin-1 letters one to one, and ParseInt reads an optional sign and ASCII digits. Python's `str.strip`, `\s`, `str.lower` and `str.upper` cover all of Unicode (`"ß".upper()` is "SS"), and its `int()` also takes "1_0" and non-ASCII digits. The members that use these helpers share the restriction: Geocoding, ProviderMaps, Billing, Checkout, RoutesBilling, Limits, TrialStore, TrialRoutes, AsaasWebhook.EventOf, Models.HhmmToMinutes, Db, FleetRoutes, TelemetryRoutes, VendorIngest and RoutesVendorIngest.
- app.py:859-884, the branch that `FORCE_PER_VEHICLE = True` disables, is not modelled. It is the only place that answers 400 for a stop tagged with an unknown vehicle.
- app.py:886-920, after the routes are computed, is modelled only for whether it raises. Dispatch.Optimize answers 500 when the maintenance loop raises (a "telemetry" field that is not an object, or an entry `float()` cannot read). The failure-risk score itself (core/maintenance/predictor.py), the map file written by `build_map` and the `maintenance` and `map_url` fields of the response are not modelled. A 200 answer is modelled by its status, routes and totals. Failures writing the map directory are I/O and are not modelled.
- Harsh-turn detection (app.py:528-547) needs bearings computed with trigonometry, so TelemetryEvents.DetectEvents leaves it out. `_turn_delta` is modelled on its own. The haversine and bearing helpers are not part of this model.
- `_fetch_points` and the `api_last_many` query are SQL. The points and rows they return are inputs.
- DuckDB specifics are not modelled: connections, `_ensure_col` migrations and constraint errors. Tables are maps keyed as the SQL keys them. core/db.py's `vehicles` table has no `vehicle_id` or `imei` column, and routes/vendor_ingest_routes.py imports a `SessionLocal` that core/db.py does not define. The model gives that blueprint a session class of its own.
- `pricing_page` (routes/billing_routes.py:94-122) only renders a template from a literal plan table, so it is not modelled. Its prices are the ones `_price` uses, which are modelled.
- The checkout GET views' redirects and templates, the login decorators' redirects, and the other Flask handlers are answered by status codes only, where they are modelled at all.
- The simulator's HTTP posts, speed jitter and sleeps are not modelled. Only `build_route_points` is.
- MapRender.CoercePathToCoords: lists of mixed element types are not modelled. That covers a polyline list with elements that are not text, a pair list whose elements are text, objects or numbers (the source reads a text "12" as the pair of its two characters), and a point list with elements that are not objects. An overview `points` value that is not text counts as missing, while the source would decode a list of one-character strings. A keyed list value may be any Path here, while the source's values are list shapes only.
- RoutesVendorIngest.VendorIngest: the body is a list of objects or one object. A number, true/false or null element makes the adapter's `k in src` raise TypeError (500, rollback), and a text or list element is searched by substring or membership. Neither kind of element is modelled.
- AsaasWebhook.Webhook: a payment id that is not text is read as no id. The source passes it to the SQL lookup as it is.
- FleetRoutes.Sanitized: its own contract only bounds the keys. The per-key rule is the contract of FleetRoutes.Cleaned, and FleetRoutes.SanitizeVehicleUpdate is proved equal to Sanitized.
- VendorIngest.Written: its own contract only bounds the number of rows. What the rows are is stated by VendorIngest.RowsComeFromPoints, VendorIngest.FailureIsFinal and VendorIngest.MissingReadingsDefault.
- RoutesVendorIngest.Saved: its own contract only bounds the number of rows. The rollback rule is stated by RoutesVendorIngest.ErrorIsFinal and RoutesVendorIngest.OneBadItemLosesBatch, and the binding rule by RoutesVendorIngest.SavedRowsAreBound.
- Db.LatestBy: among rows with the same largest key, the model returns the highest id. `ORDER BY key DESC LIMIT 1` (core/db.py:528-538) leaves that choice to DuckDB, so the tie-break is the model's own and only the largest-key part is the source's promise.
- Common.ParseFloat: "inf", "infinity" and "nan" (in any case, with a sign) are read as text `float()` cannot parse, because they are not reals. Underscores between digits ("1_0") are refused, while Python accepts them. Every member reading a number through `FloatOf` shares this: Adapters.ToFloat, MapRender, TelemetryRoutes, RequestParsing, Geocoding.ValidateGeodata and VendorIngest.PointStep.
- Common.Text: the text of a float is modelled only for integral values below 10**16 in size ("3.0"). Other floats are rendered by the `str` parameter.
- Db.Column: the moment is kept as written, which is what DuckDB does when its session time zone is UTC. Another session zone shifts the stored wall-clock time, and that shift is not modelled.
- Billing.RequestedVehicles: its contract states the falsy and integer cases only. Text and floats go through `int()` as Common defines it, which the contract does not spell out.

## Findings

| source | as written | input that shows it | evidently intended | confidence | as-written member | corrected member |
|---|---|---|---|---|---|---|
| core/limits.py:23 | `sub.get("plan")` is called on the tuple row returned by `get_active_subscription`, so every user with an active subscription makes the function raise AttributeError | a user with one active "pro" subscription | the subscription's plan, lower-cased, read through `PLAN_LIMITS`: 50 vehicles for Pro | high, not executed | Limits.SubscribedUserRaises | Limits.IntendedVehicleLimit |
| subscriptions.py:22 | `period_end < now` compares the period end read from the `TIMESTAMP` column (core/db.py:94), which DuckDB returns as a naive `datetime`, with the aware `now`. Python raises TypeError, so every user whose newest subscription has a period end fails the check: after checkout, trial start or a received payment (AsaasWebhook.PaymentRaises) | a user right after `confirm_checkout` | read the naive end as UTC, as core/authz.py:24-25 does for text: the user passes until the end of the first period (Subscriptions.ConfirmedCheckoutIsActive, AsaasWebhook.PaymentActivates) | medium, not executed; rests on DuckDB returning `TIMESTAMP` values as naive datetimes | Subscriptions.ConfirmedCheckoutRaises | Subscriptions.IntendedHasActiveSubscription |
| core/authz.py:20-23 | `trial_end` comes from the `TIMESTAMP` column `trial_end` (core/db.py:109) as a naive `datetime`, so the aware branch is skipped and `datetime.fromisoformat` is called on a datetime, which raises TypeError | a user with an active trial and no active subscription | compare the naive end read as UTC with now | medium, not executed; rests on DuckDB returning `TIMESTAMP` values as naive datetimes | Authz.StoredTrialRaises | Authz.IntendedTrialOpen |
| routes/fleet_routes.py:136-151 | `_extract_plan` returns `row[0]` of a tuple row, which is the row's id, not its plan. `PLAN_LIMITS.get` of an integer falls back to Start, so every client is held to 5 vehicles, and the create handler answers 403 to a new vehicle of a Pro client that has five (FleetRoutes.ProClientRefusedSixthVehicle) | a client with one active "pro" subscription and no trial | the plan column of the trial, else of the subscription: 50 vehicles for Pro | high, not executed | FleetRoutes.ProClientHeldToStart | FleetRoutes.IntendedVehicleLimitForClient |
