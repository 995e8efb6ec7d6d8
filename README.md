# CityFeel business rules in Dafny

CityFeel is a Django web application on which signed-in users rate places on a
map ("emotion points", a value from 1 to 5, public or private), comment on them,
upload photos and invite each other as friends. A JavaScript map page draws the
places as coloured markers and heat-map layers. This project models the
application's business rules as operations over in-memory tables:

- **Friendships** (modules `SocialModels`, `SocialSerializers`, `SocialViews`, `LegacySocial`).
  - A `FriendshipTable` class holds the rows `{id, creator, target, status, createdAt}` and the next primary key.
  - `save` runs the self-invitation check (`clean`) before writing.
  - The symmetric "active relation exists" test counts only pending or accepted rows.
  - Sending an invitation is validated and then upserted: a rejected row for the same ordered pair is reset to pending.
  - A status change is limited to accepted or rejected.
  - The friends page shows two selections: incoming pending invitations and accepted friendships.
  - The older `social` app's table is modelled only by its two database constraints.
- **Ratings, comments and photos** (`EmotionModels`, `EmotionsViews`, `ApiSerializers`).
  - Field validators, defaults and display strings.
  - The `EmotionStore` class holds the location, rating and comment tables. Its invariant covers the value range, one rating per (user, location), and the location and rating foreign keys of ratings and comments. User keys are not checked, because the model has no user table.
  - Creating a rating through the API resolves its location by id, or by exact coordinates with get-or-create.
  - The owner-guarded delete view.
- **Aggregates** (`ApiViews`, `AuthViews`).
  - The location list: the average and count of each location's *public* ratings, ordered by average descending, then by name.
  - The profile page's statistics and its ten most recent public ratings.
  - The community list, with its username search and join-date order.
- **Query filters** (`ApiFilters`): name, rating value, radius and bounding box. Each keeps a sub-sequence of the query set, in its order. Each also has its exact "unchanged / filtered" outcome: an empty rating-value list and a name or box that strips to nothing keep the query set, and radius and bounding box have their "empty" outcome for unusable values.
- **Strings and paths** (`AuthModels`, `Fixtures`).
  - The avatar upload path, with POSIX `os.path.splitext`.
  - The EWKT point text of the fixtures. EWKT is PostGIS's extension of the point tagged text of clause 7 of OGC 06-103r4.
- **The fixture generator** (`Fixtures`).
  - Rating and comment generation as loops. Every random outcome is a parameter that satisfies the random function's own contract.
  - The two validation passes.
- **The map script** (`MapScript`).
  - Marker colours and the cluster average.
  - The rating-filter toggle, as a `FilterState` class.
  - The heat-map layer split.
  - The nearest-location pick.
  - The star string and the Polish count wording.
  - The CSRF cookie lookup, together with its behaviour on a cookie-string of section 4.2.1 of RFC 6265.

Shared helpers:
- `Wrappers`: Option, Result and Outcome.
- `Text`: ASCII lower-casing, decimal rendering, split, join, JavaScript `trim` and code-point order.
- `Sorting`: a filter, and an insertion sort proved sorted and a permutation under a total preorder.
- `Numbers`: a quotient bound.
- `Locations`: the location record, whose point has x = longitude and y = latitude.

Database queries become functions over sequences. The table's default ordering is an explicit sort. Spatial predicates, number parsing and rendering, `decodeURIComponent` and the map's distance are function parameters.

## Model

| member | source | states |
|---|---|---|
| SocialModels.Clean | cityfeel/social/models.py:46-49 | passes exactly when creator and target differ; otherwise fails with the self-invitation error |
| SocialModels.RequestExists | cityfeel/social/models.py:55-61 | true exactly when some row joins the two users, in either direction, with status pending or accepted |
| SocialModels.RequestExistsSymmetric | cityfeel/social/models.py:58-59 | the answer for (a, b) equals the answer for (b, a) |
| SocialModels.RejectedRowsNeverCount | cityfeel/social/models.py:60 | adding a rejected row, at either end of the table, never changes whether a relation exists |
| SocialModels.FindPair | cityfeel/social/models.py:40 | returns a position holding the ordered pair, and None exactly when no row holds it |
| SocialModels.FindPairUnique | cityfeel/social/models.py:40 | under the unique-pair constraint, any row holding the pair is the one found |
| SocialModels.FriendshipTable.constructor | cityfeel/social/models.py:37-41 | an empty table satisfying every table constraint |
| SocialModels.FriendshipTable.Insert | cityfeel/social/models.py:29-53 | `save` of a new row: self-invitations and a second row for the same ordered pair are refused and leave the table unchanged; otherwise exactly the new row (status defaulting to pending, the next id) is appended; the constraints hold afterwards |
| SocialModels.FriendshipTable.SaveStatus | cityfeel/social/models.py:51-53 | `save` of an existing row with a new status changes that row's status and nothing else, keeping the constraints |
| SocialSerializers.ValidateStatus | cityfeel/social/serializers.py:27-31 | succeeds exactly for 'accepted' and 'rejected' (so never for 'pending'), returning that status; any other literal is the status error; the API serializer repeats this rule at cityfeel/api/serializers.py:86-90 |
| SocialSerializers.ValidateTargetId | cityfeel/social/serializers.py:43-54 | one's own id is the self-invitation error; otherwise, an id without a user is the unknown-user error; otherwise the id is returned; the API serializer repeats this rule at cityfeel/api/serializers.py:102-113 |
| SocialSerializers.Validate | cityfeel/social/serializers.py:56-65 | fails exactly when a pending or accepted row joins the two users in either direction, the reverse direction included; the API serializer repeats this rule at cityfeel/api/serializers.py:115-124 |
| SocialSerializers.UpsertLeavesOnePendingRow | cityfeel/social/serializers.py:67-79 | after the upsert exactly one row holds the ordered pair, with status pending, and the table constraints still hold |
| SocialSerializers.UpsertFrame | cityfeel/social/serializers.py:73-77 | the upsert changes no row of another pair (a reverse-direction row included), resets the pair's own row to pending, and adds a row only when none held the pair |
| SocialSerializers.ReusedRowWasRejected | cityfeel/social/serializers.py:56-77 | when an invitation passes `validate`, a row already stored for the pair, which the upsert re-uses, is a rejected one |
| SocialSerializers.UpsertMakesRequestExist | cityfeel/social/serializers.py:67-79 | after the upsert a relation exists between the two users, in both argument orders |
| SocialSerializers.CreateFriendship | cityfeel/social/serializers.py:41-79 | the whole invitation: it fails exactly for a self-invitation, an unknown target or an existing active relation, leaving the table unchanged; otherwise the table becomes the upsert and the returned row is the requester's pending invitation, whatever the client sent as status, and the next primary key advances by one exactly when a new row is inserted; the API serializer repeats this rule at cityfeel/api/serializers.py:126-138 |
| SocialSerializers.ChangeStatus | cityfeel/social/serializers.py:17-31 | changing a stored row's status: an unknown row or a literal other than accepted/rejected changes nothing; otherwise only that row's status changes, to the given literal; the next primary key never changes |
| SocialViews.PendingRequests | cityfeel/social/views.py:18-21 | holds exactly the rows targeting the user with status pending (never the user's own invitations), each as often as in the table, newest first |
| SocialViews.Friendships | cityfeel/social/views.py:24-26 | holds exactly the accepted rows in which the user is creator or target, each as often as in the table, newest first |
| SocialViews.ListsDisjoint | cityfeel/social/views.py:18-26 | no row is in both lists |
| SocialViews.ExcludedRows | cityfeel/social/views.py:18-26 | rejected rows, rows not involving the user and the user's own pending invitations appear in neither list |
| LegacySocial.Create | social/models.py:22-32 | an insert with user = friend violates `users_cannot_friend_themselves`; a repeated ordered pair violates `unique_friendship`; the insert succeeds exactly when neither holds, and then the row, pending by default, is appended |
| LegacySocial.CreatePreservesConstraints | social/models.py:31-32 | a successful insert keeps both constraints on the table |
| LegacySocial.BothDirectionsCoexist | social/models.py:31 | (a, b) and then (b, a) can both be stored |
| ApiFilters.DecideRadius | cityfeel/api/filters.py:35-70 | keeps all unless lat, lon and radius are all present and non-empty; keeps none exactly when one fails to parse, lat is outside [-90, 90], lon outside [-180, 180] (bounds accepted) or radius <= 0; otherwise keeps within radius/111320 degrees of (x = lon, y = lat) |
| ApiFilters.FilterRadius | cityfeel/api/filters.py:35-72 | the query set unchanged when a parameter is missing or empty, the empty result when one is unusable, and in every case a sub-sequence of the query set in its order |
| ApiFilters.FilterRadiusKeepsExactlyWithin | cityfeel/api/filters.py:65-72 | with usable parameters a location is kept exactly when it is in the query set and within the degree distance of the centre |
| ApiFilters.FilterRadiusIdempotent | cityfeel/api/filters.py:35-72 | applying `filter_radius` to its own result changes nothing |
| ApiFilters.FilterRadiusTimesIsOnce | cityfeel/api/filters.py:24-26 | running the method once per bound parameter, any number of times from one on, gives the result of running it once |
| ApiFilters.ParseAll | cityfeel/api/filters.py:81 | the list comprehension succeeds exactly when every piece parses, giving the parsed numbers in order |
| ApiFilters.DecideBbox | cityfeel/api/filters.py:74-99 | a box exactly when the value is four comma-separated numbers with both longitudes in [-180, 180] and both latitudes in [-90, 90], read as lon_min, lat_min, lon_max, lat_max with no min <= max check; otherwise no box |
| ApiFilters.FilterBbox | cityfeel/api/filters.py:74-99 | the value is stripped first and a blank one keeps the query set unchanged; otherwise an unusable box gives the empty result and a location is kept exactly when it is contained in the box; the result is a sub-sequence of the query set |
| ApiFilters.FilterName | cityfeel/api/filters.py:19 | a blank value keeps the query set unchanged; otherwise keeps exactly the locations whose name contains the stripped value, ignoring case, in query-set order |
| ApiFilters.FilterEmotionalValue | cityfeel/api/filters.py:21 | the empty value keeps the query set unchanged; otherwise the comma-separated pieces are read as integers, the lookup fails (the column's ValueError) exactly when some piece does not read, and else keeps exactly the locations with some rating, public or private, whose value is in the list, in query-set order |
| ApiViews.Average | cityfeel/api/views.py:15-18 | the SQL average is NULL exactly over no rows |
| ApiViews.Annotate | cityfeel/api/views.py:14-23 | the annotated row is the location itself; its count is 0 exactly when its average is NULL |
| ApiViews.PublicValuesAppend | cityfeel/api/views.py:15-22 | a new rating adds its value to the aggregated values exactly when it is a public rating of that location |
| ApiViews.PrivateRatingsIgnored | cityfeel/api/views.py:15-22 | a private rating changes neither the average nor the count |
| ApiViews.PublicValueSource | cityfeel/api/views.py:15-22 | for each aggregated value, the position of a public rating of the location that carries it |
| ApiViews.PublicValuesBounded | cityfeel/api/views.py:15-22 | every aggregated value is the value of a public rating of the location, and there are no more of them than its ratings |
| ApiViews.CountAtMostRatings | cityfeel/api/views.py:19-22 | the count never exceeds the location's total number of ratings |
| ApiViews.AverageInRange | cityfeel/api/views.py:15-18 | with stored values in 1..5, a location with public ratings has an average in [1, 5] |
| ApiViews.PublicOnlyExample | cityfeel/api/views.py:15-22 | public ratings 5 and 3 and a private 1 give average 4.0 over a count of 2 |
| ApiViews.ListingLeIsTotalPreorder | cityfeel/api/views.py:24 | the order "average descending, then name" is total and transitive, wherever the engine puts NULL averages |
| ApiViews.AnnotateAll | cityfeel/api/views.py:12-23 | every location annotated, one row each, in order |
| ApiViews.ListLocations | cityfeel/api/views.py:11-25 | every location appears once (a permutation of the annotated rows), sorted by average descending and then by name |
| ApiViews.ListingAveragesDescend | cityfeel/api/views.py:24 | of two listed rows with averages, the earlier one's average is at least the later one's |
| EmotionModels.ParsePrivacy | cityfeel/emotions/models.py:12-37 | an omitted privacy is 'public'; a given one is accepted exactly when it is 'public' or 'private', and read as that choice |
| EmotionModels.ValidateEmotionalValue | cityfeel/emotions/models.py:27-32 | passes exactly for values in 1..5; values below 1 fail the minimum validator |
| EmotionModels.ValidateImageSize | cityfeel/emotions/models.py:97-101 | passes exactly for sizes up to 5242880 bytes, otherwise the file-too-large error |
| EmotionModels.ValidateCaption | cityfeel/emotions/models.py:129 | passes exactly for captions of at most 255 characters, the empty one included |
| EmotionModels.EmotionPointStr | cityfeel/emotions/models.py:48-49 | "{username} - {location name} ({value})": the username and " - ", then the location name, then " (", and ')' at the end |
| EmotionModels.EmotionPointStrValue | cityfeel/emotions/models.py:48-49 | the value's digits stand just before the closing parenthesis and read back as the value |
| EmotionModels.CommentStr | cityfeel/emotions/models.py:93-94 | "Komentarz {user} do {location name}": the prefix with the username, the location name at the end, and the exact length |
| EmotionModels.PhotoErrors | cityfeel/emotions/models.py:97-129 | a photo's field errors: file too large exactly when the image exceeds 5242880 bytes, caption too long exactly when it exceeds 255 characters, and nothing else |
| EmotionModels.PhotoStr | cityfeel/emotions/models.py:145-146 | the 23 characters "Zdjęcie do lokalizacji " followed by exactly the location name |
| EmotionModels.FindPoint | cityfeel/emotions/views.py:12 | finds the rating with the primary key, None exactly when there is none |
| EmotionModels.EmotionStore.constructor | cityfeel/emotions/models.py:8-94 | empty tables satisfying the invariant: values in 1..5, one rating per (user, location), distinct ids, every rating's location, every comment's location and every comment's rating present |
| EmotionModels.EmotionStore.AddLocation | cityfeel/api/serializers.py:55-59 | the created location, with the next id, is appended and nothing else changes; the invariant holds |
| EmotionModels.EmotionStore.AddPoint | cityfeel/api/serializers.py:62 | a rating with a value in 1..5, for an existing location the user has not rated, is appended with the next id and nothing else changes; the invariant holds |
| EmotionsViews.RemovePointExactlyOne | cityfeel/emotions/views.py:20 | with distinct ids, deleting a rating takes out exactly its one row and keeps every other row in order |
| EmotionsViews.RemoveAtKeepsRatings | cityfeel/emotions/views.py:20 | taking one rating out keeps the rating constraints and every other rating |
| EmotionsViews.RemoveKeepsStoreValid | cityfeel/emotions/models.py:70-77 | deleting a rating together with its cascaded comments keeps every table constraint |
| EmotionsViews.DeleteEmotion | cityfeel/emotions/views.py:9-24 | anonymous requests go to login and other methods get 405; otherwise an unknown pk gives 404 and a non-owner 403, both changing nothing; the owner's POST deletes exactly that rating and its comments and redirects to its location |
| Text.Strip | cityfeel/api/serializers.py:28-29 | the whitespace trimming of a text field (Python's `str.strip()`): the result is the text after its leading white space with only white space after it, its ends are not white space, and it is empty exactly when the text is all white space |
| Text.StripIdempotent | cityfeel/api/serializers.py:28-29 | stripping stripped text changes nothing |
| ApiSerializers.FieldErrors | cityfeel/api/serializers.py:19-40 | reports an unknown location id, a missing rating value, one that is not an integer, one outside 1..5, an unknown privacy literal, and a location name or address that is empty or all white space (the text field defaults forbid blank values), each exactly when it occurs |
| ApiSerializers.NewLocationName | cityfeel/api/serializers.py:58 | a new location is named by the given name when it is non-empty, else 'Unknown' |
| ApiSerializers.NewLocationAddress | cityfeel/api/serializers.py:47 | a new location's address is the given one, '' when none is given |
| ApiSerializers.Resolve | cityfeel/api/serializers.py:49-60 | a given location id is used whatever the coordinates; with no id and a coordinate missing, no location; with both: exactly one location at (lat, lng) is found and used, no location there means a new one is created there (named and addressed from the stripped text), and several are the multiple-objects error |
| ApiSerializers.CreatedLocationText | cityfeel/api/serializers.py:28-58 | after validation a created location's name is the stripped given name, never empty, or 'Unknown' when none was given; its address is the stripped given address, or '' |
| ApiSerializers.ResolveTwice | cityfeel/api/serializers.py:55-59 | resolving the same coordinates again, with any name and address, finds the location the first call chose, so only the first call can create it |
| ApiSerializers.CreateEmotionPoint | cityfeel/api/serializers.py:40-62 | invalid input changes nothing; otherwise the resolved location (created if need be) stays in the table; then a missing location or a second rating of the same location by the user is refused; otherwise the stored rating holds only the user, location, value, privacy (default public) and time |
| AuthViews.RegisterGet | cityfeel/auth/views.py:34-38 | a signed-in user is redirected to the map exactly when authenticated |
| AuthViews.OwnRatings | cityfeel/auth/views.py:54 | exactly the ratings of the user |
| AuthViews.WithPrivacy | cityfeel/auth/views.py:56-57 | exactly the ratings with the given privacy |
| AuthViews.Stats | cityfeel/auth/views.py:54-62 | the total, public and private counts of the user's ratings |
| AuthViews.StatsAddUp | cityfeel/auth/views.py:54-62 | the public and private counts add up to the total |
| AuthViews.PublicNewestFirst | cityfeel/auth/views.py:65-69 | a permutation of the user's public ratings, newest first |
| AuthViews.RecentEmotions | cityfeel/auth/views.py:65-70 | the first min(10, n) of the user's n public ratings in newest-first order: a sub-multiset of those ratings, sorted newest first |
| AuthViews.RecentEmotionsAreTheNewest | cityfeel/auth/views.py:65-70 | a public rating of the user left out of the list means the list is full and every listed rating is at least as new |
| AuthViews.Profile | cityfeel/auth/views.py:49-75 | the context holds the statistics (adding up), the recent list, and an own-profile flag true exactly when viewer id = profile id |
| AuthViews.CommunityUsers | cityfeel/auth/views.py:119-130 | a non-empty query keeps exactly the users whose username contains it ignoring case, each as often as listed; an absent or empty one keeps every user; the list is ordered by join date, latest first |
| AuthViews.Community | cityfeel/auth/views.py:112-132 | one row per listed user, with the count of all their ratings, private ones included, and as the prefetched list exactly their public ratings, each once, newest first |
| AuthViews.CommunityCountCoversPublic | cityfeel/auth/views.py:114-124 | the prefetched public ratings never outnumber the count |
| AuthModels.RFind | cityfeel/auth/models.py:11 | the last position of the character, or -1 when it does not occur |
| AuthModels.ExtStart | cityfeel/auth/models.py:11 | `splitext` cuts exactly when the last path component has a dot preceded by some non-dot character, and then at the last dot, with no dot or slash after it |
| AuthModels.SplitExt | cityfeel/auth/models.py:11 | root and extension concatenate to the name; the extension is non-empty exactly when the last component has a dot after some non-dot character, and is then one leading dot with no further dot or slash |
| AuthModels.SplitExtNoDot | cityfeel/auth/models.py:11 | a name without a dot has an empty extension |
| AuthModels.SplitExtAtLastDot | cityfeel/auth/models.py:11 | any name whose last component is "base.ext", with some non-dot character in base ("my.photo.jpg", "dir/x.jpg"), splits at the last dot |
| AuthModels.SplitExtHiddenFile | cityfeel/auth/models.py:11 | ".profile" has no extension |
| AuthModels.IdText | cityfeel/auth/models.py:12 | a saved id renders as its decimal digits |
| AuthModels.UploadPath | cityfeel/auth/models.py:5-13 | the path is "avatars/user_{id}_avatar" followed by the lower-cased extension |
| AuthModels.UploadPathWithoutExtension | cityfeel/auth/models.py:11-13 | a file name without an extension gives a path ending in "_avatar" |
| AuthModels.UploadPathIgnoresBaseName | cityfeel/auth/models.py:11-13 | the directory and base name are discarded: any two such names whose extensions are equal up to case give the same path |
| AuthModels.UploadPathsOfUsersDiffer | cityfeel/auth/models.py:12-13 | two saved users never share an upload path |
| AuthModels.AvatarUrl | cityfeel/auth/models.py:37-41 | None exactly when no avatar is set, else the URL of the stored file |
| Fixtures.Ewkt | cityfeel/fixtures/generate_fixtures.py:54 | "SRID=4326;POINT(" then the longitude, one space, the latitude and ')' |
| Fixtures.GenerateLocation | cityfeel/fixtures/generate_fixtures.py:37-56 | the fixture keeps the pk and the name and holds the EWKT point with the longitude first |
| Fixtures.GenerateLocations | cityfeel/fixtures/generate_fixtures.py:300 | one fixture per entry, numbered from 1 in list order |
| Fixtures.ParseEwkt | cityfeel/fixtures/generate_fixtures.py:54 | only text of the EWKT point shape reads back |
| Fixtures.GenerateLocationRoundTrip | cityfeel/fixtures/generate_fixtures.py:54 | a generated location's coordinates read back as (longitude, latitude) |
| Fixtures.EmotionCounts | cityfeel/fixtures/generate_fixtures.py:81 | one count for each of the 50 locations |
| Fixtures.ShuffledCountsSum | cityfeel/fixtures/generate_fixtures.py:81-82 | every shuffle of the counts has 50 entries summing to 78 |
| Fixtures.ShuffledCountsAtMostUsers | cityfeel/fixtures/generate_fixtures.py:29-90 | no count exceeds the four users, so every draw without replacement is possible |
| Fixtures.SumPermutation | cityfeel/fixtures/generate_fixtures.py:82 | a shuffle keeps the sum |
| Fixtures.ClusterValues | cityfeel/fixtures/generate_fixtures.py:94-96 | every value a cluster offers is in 1..5 |
| Fixtures.GenerateLocationRatings | cityfeel/fixtures/generate_fixtures.py:84-121 | one location's ratings: one per sampled user, each from its draw, pks continuing the earlier ones, earlier ratings untouched; the (user, location) pairs stay distinct because the sample repeats no user |
| Fixtures.GenerateEmotionPoints | cityfeel/fixtures/generate_fixtures.py:59-123 | exactly 78 ratings for any random outcome, pks consecutive from 1, users among the four, locations in 1..50, values in 1..5, and no (user, location) pair twice; the location at position i gets its counts[i] ratings as one consecutive block, the j-th by the j-th sampled user with the j-th drawn value, privacy and time |
| Fixtures.CommentCounts | cityfeel/fixtures/generate_fixtures.py:147 | twenty per-location counts |
| Fixtures.CommentCountsSum | cityfeel/fixtures/generate_fixtures.py:147 | the per-location counts total 33 |
| Fixtures.GenerateCommentsAt | cityfeel/fixtures/generate_fixtures.py:149-192 | one sampled location's comments: comment_counts[i] of them, each from its draw, with no rating, pks continuing the earlier ones, earlier comments untouched |
| Fixtures.GenerateLocationComments | cityfeel/fixtures/generate_fixtures.py:143-192 | 33 comments with pks 1..33, no rating, users among the four and locations in 1..50; the i-th sampled location gets its comment_counts[i] comments as one consecutive block, each from its draw |
| Fixtures.GenerateComments | cityfeel/fixtures/generate_fixtures.py:126-229 | the 33 location comments, laid out by sampled location and draw, then min(10, #ratings) rating comments, pks consecutive from 1; the m-th rating comment carries its rating's pk and location, its drawn user, text and privacy, and a time 1 to 10 days and up to 23 more hours after the rating |
| Fixtures.GenerateFixtures | cityfeel/fixtures/generate_fixtures.py:296-319 | for every random outcome, 50 locations, 78 ratings and 43 comments are generated, and both validate_unique_together and validate_foreign_keys pass |
| Fixtures.ValidateUniqueTogether | cityfeel/fixtures/generate_fixtures.py:232-252 | passes exactly when no (user, location) pair repeats; a failure names the first pair seen a second time |
| Fixtures.PointKeyError | cityfeel/fixtures/generate_fixtures.py:272-274 | a rating's first failed assertion: none exactly when its user is known and its location in range, the user error exactly when the user is unknown |
| Fixtures.CommentKeyError | cityfeel/fixtures/generate_fixtures.py:277-283 | a comment's first failed assertion: none exactly when its keys are valid, the user error exactly when the user is unknown |
| Fixtures.ValidateForeignKeys | cityfeel/fixtures/generate_fixtures.py:255-285 | passes exactly when every user is one of 1, 8, 9, 10, every location is in 1..location_count and every non-null comment rating is an existing pk; a failure names the first bad key, in checking order: ratings before comments, and per record user, then location, then rating |
| MapScript.ColorByValue | cityfeel/static/js/map.js:190-197 | a falsy value gets the colour of 3; every result is one of the five rating colours |
| MapScript.ColorByValueRounds | cityfeel/static/js/map.js:190-197 | a non-zero value gets the colour of the rating it rounds to, halves up, clamped to 1..5 |
| MapScript.MarkerColor | cityfeel/static/js/map.js:260-267 | a rated location gets its value's colour; the comment colour exactly when unrated but commented; the empty colour exactly when neither |
| MapScript.AverageMarkerValue | cityfeel/static/js/map.js:182-188 | 3.0 for no markers; otherwise the average of the marker values, a missing or zero one counting as 3.0 |
| MapScript.AverageMarkerValueInRange | cityfeel/static/js/map.js:182-188 | with rated markers in 1..5 the cluster average lies in [1, 5] |
| MapScript.Removed | cityfeel/static/js/map.js:133 | exactly the other values, and no duplicates when there were none |
| MapScript.ToggledMembership | cityfeel/static/js/map.js:132-138 | a click switches exactly the clicked value in or out |
| MapScript.ToggledDistinct | cityfeel/static/js/map.js:132-138 | toggling never creates a duplicate |
| MapScript.ToggleTwice | cityfeel/static/js/map.js:132-138 | two clicks on the same button restore the active set |
| MapScript.FilterState.constructor | cityfeel/static/js/map.js:67 | no active filter at first |
| MapScript.FilterState.Toggle | cityfeel/static/js/map.js:132-138 | the handler updates the list to the toggled list and keeps it duplicate-free |
| MapScript.BandOf | cityfeel/static/js/map.js:650-668 | with a missing average counted as 0: bad exactly below 2.5, neutral exactly in [2.5, 3.8), good exactly from 3.8 |
| MapScript.LayersPartition | cityfeel/static/js/map.js:649-669 | every location lands in exactly one layer |
| MapScript.UpdateHeatmapData | cityfeel/static/js/map.js:641-674 | each layer holds, in input order, the points of exactly the locations of its band, at intensity 0.8 |
| MapScript.ClosestWithin | cityfeel/static/js/map.js:396-405 | none exactly when no location is closer than the radius; otherwise a location closer than the radius, at the least distance among those, strictly closer than every earlier one, with its distance reported |
| MapScript.StarsHtml | cityfeel/static/js/map.js:336-347 | empty for a falsy value; otherwise the span around exactly five glyphs, the first floor(value) full and the rest empty, the half-star case included |
| MapScript.Pluralize | cityfeel/static/js/map.js:355-359 | 'ocenie' exactly for 1, 'ocenach' for every other count |
| MapScript.RatingText | cityfeel/static/js/map.js:287 | "Oparte na N ocenie" for one rating, "Oparte na N ocenach" otherwise, a missing count shown as 0 |
| MapScript.CommentsNoun | cityfeel/static/js/map.js:291-293 | 'komentarz' exactly for 1, 'komentarze' exactly for 2 to 4, 'komentarzy' exactly for 0 and 5 on |
| MapScript.CommentsText | cityfeel/static/js/map.js:289-293 | the count and its noun, a missing count shown as "0 komentarzy" |
| MapScript.FirstNaming | cityfeel/static/js/map.js:575-577 | the first trimmed piece from a position on that starts with "name=", or none when no piece does |
| MapScript.CsrfTokenOf | cityfeel/static/js/map.js:573 | an empty cookie string gives no token |
| MapScript.FindCookie | cityfeel/static/js/map.js:575-580 | the scanning loop returns the text after "name=" in the first trimmed piece that starts with it, or none |
| MapScript.GetCsrfToken | cityfeel/static/js/map.js:571-583 | returns the decoded token of the cookie string as the lookup defines it |
| MapScript.PairStartsWithName | cityfeel/static/js/map.js:577 | a well-formed cookie pair's text starts with "csrftoken=" exactly when the pair is named csrftoken |
| MapScript.TrimPiece | cityfeel/static/js/map.js:574-576 | each piece of a cookie-string trims to its pair's text and holds no ';' |
| MapScript.LookupPieces | cityfeel/static/js/map.js:575-578 | on the pieces of a cookie-string, the first piece naming csrftoken and the first pair so named agree, and so do their values |
| MapScript.CsrfTokenOfCookieString | cityfeel/static/js/map.js:571-583 | on a cookie-string of RFC 6265 section 4.2.1, the token is the decoded value of the first pair named csrftoken, and none when no pair is |

## Left out

- DOM, Leaflet, Bootstrap and fetch code of the map script (initialisation, popups, modals, star hover, the debounce timer, form submission): user interface and asynchronous I/O.
- UpdateHeatmapData: does not model the first-line return when the heat layers are not created yet (cityfeel/static/js/map.js:642), because layer creation is user-interface state outside the model.
- `parseInt` of the filter button's value (cityfeel/static/js/map.js:130): the toggle takes the parsed integer.
- GetCsrfToken: `decodeURIComponent` is a total function parameter, so the URIError it throws on a malformed escape such as `%E0%A4%A` is not modelled; in the map script that error reaches the submit handler's catch (cityfeel/static/js/map.js:519-521), which shows its message as the form error.
- `decodeURIComponent`, Leaflet's `map.distance`, PostGIS `dwithin` and `contained`, Python `float()` parsing and number rendering (`toFixed`, the EWKT numbers): function parameters with no properties assumed beyond those stated in a lemma's requires.
- Floating-point arithmetic: numbers are exact reals, so NaN, infinities and rounding error are not modelled.
- Where the database puts NULL averages in the descending sort is left to a `nullsFirst` parameter, because it depends on the engine.
- Case-insensitive matching (`icontains`, the username search, `.lower()` of the extension) lower-cases ASCII letters only; Python and SQL apply full Unicode case mapping. Names are ordered by code point, not by the database collation.
- The filters take the parameter's given value; an absent parameter skips its filter, which for name, bounding box and rating values gives the same query set as an empty value.
- The join duplication that the related-field `emotional_value` filter can cause in the ORM: the filter is modelled only as "has some rating with a value in the list".
- FilterEmotionalValue: `parseInt` stands for Python's `int()` on each piece, with no properties assumed of it; the lookup's removal of duplicate and `None` values does not change which locations match.
- Login, request dispatch and form validation by Django and DRF (login redirects other than in `delete_emotion`, password, e-mail and image-format checks), and the declarative forms and serializers without logic.
- CreateEmotionPoint: models requests as non-atomic, so a location created by `get_or_create` stays when the rating insert is then refused; transaction settings are not part of this model.
- The fixture generator's random draws are an argument of the generating methods. This covers a rating's value, privacy and time, and a comment's user, text, privacy and time. The cluster-dependent choice of comment templates and the templates' text are inside those draws. A rating comment's delay after its rating is drawn as whole days and hours; times are seconds. The clock behind a rating's time, the JSON output and the printing are left out; `main`'s generation and checking steps are `GenerateFixtures`.
- AvatarUrl: the storage backend's URL building (escaping, storage class) is reduced to the media URL followed by the stored name.
- Pagination of the community list (`paginate_by = 10`, cityfeel/auth/views.py:110) and the prefetch's `select_related`, which only affect presentation and query count.
- Admin classes, URL configuration, cityfeel/map/views.py, cityfeel/map/models.py and manage.py; these are not part of this model. The map admin's average over all ratings is a different rule and is not merged with the public-only list.
- Behaviour asserted by tests but not implemented by the code shown (friendship-status annotations of the community list, a separate friends view, a `friend_id` API): not modelled.
- Concurrent `get_or_create` / `update_or_create` races: the model is sequential.
- The `updated_at` time stamps (`auto_now`, cityfeel/social/models.py:35 and cityfeel/emotions/models.py:39), which every save and upsert bumps: no contract reads them, so rows do not hold them.
- The flash message `messages.success` after a deletion (cityfeel/emotions/views.py:22): it is session state for the next page.
- FieldErrors: a JSON `null` for a text or number field ("This field may not be null."), non-string values for the text fields, a latitude or longitude that is not a number ("A valid number is required.") and a location id of the wrong type ("Incorrect type.") are not modelled; an absent field, a given text, and a rating value that is absent, not an integer or an integer are. How the integer parser reads text such as "3.0" is left to the caller that builds the input.
- `CFUser.__str__` (cityfeel/auth/models.py:34-35) is `AuthModels.UserStr`, which returns the username and has no contract of its own. The comment's display string takes the username directly.
- RatingText: its contract replaces Pluralize by its proved meaning and otherwise follows the template literal closely.
- Location records: id, name, address and point. The API serializer's `latitude`, `longitude` and `address` fields (cityfeel/api/serializers.py:15) do not exist on the map app's model; the address is kept because `get_or_create` sets it, and the lookup compares the point's coordinates.
- The rating serializer lists a `comment` field (cityfeel/api/serializers.py:37) that the rating model does not have; it is not modelled.
- The community view's comment speaks of the three most recent public ratings per user, but its prefetch keeps all of them newest first; the model follows the code.
