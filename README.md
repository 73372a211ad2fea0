# Tourism app core, modelled in Dafny

This project models five pieces of logic from the tourism app. The app has an Android client, an iOS client, and a C++ base library from the maps engine it is built on. Each piece becomes one Dafny module:

- `Places` (`places.dfy`) is the Android places repository. It models the local store as three tables:
  - places, keyed by id, each with its category, its favorite flag and its payload;
  - reviews, keyed by review id;
  - one hash per category.

  It covers three operations:
  - the first-run bootstrap, which downloads the whole catalog;
  - the hash-checked refresh of one category;
  - `setFavorite`.
- `Currency` (`currency.dfy`) is the Android currency repository. It picks the USD, EUR and RUB rates out of the server's list by first match. Its cache-then-refresh step emits the cached rates before the network result.
- `StringUtils` (`string_utils.dfy`) covers the base library's string utilities:
  - the tokenizing iterator (`move`, `operator bool`, `operator*`, `operator++`, `IsLast`), which runs over code points;
  - `Tokenize` and `IsInArray`;
  - integer-to-decimal conversion, which fills a char buffer backwards.

  Tokenizing is proved equal to a reference splitter that reads one character at a time. The conversions are proved to produce the decimal text of their argument.
- `Network` (`network.dfy`) is the iOS HTTP helper. It classifies a response by its status code (section 15 of RFC 9110):
  - 2xx: the decoded body;
  - 422: the error message goes to the user;
  - 5xx: a server error;
  - anything else: "other".

  It then maps thrown errors onto the app's error taxonomy. It also assembles requests with JSON content headers and a bearer token (section 2.1 of RFC 6750).
- `Profile` (`profile.dfy`) is the iOS profile view model. It models the form fields, the `save` guard, sending the email only when it changed, the personal-data subscription, sign-out and the message banner.

`Common` (`common.dfy`) holds the shared `Option`, `Result` and `Resource` types and the `Url` type. `Resource` is the app's Success / Error wrapper; its Loading state is never emitted by the modelled operations.

Repository calls, network answers and database snapshots are not performed. Each becomes a parameter of the method that consumes it. Here is how each one is represented:
- the outcome of a call is a `Result`;
- the favorites snapshot is a set of place ids;
- a JSON decoder is a function from body bytes to a `Result`;
- `URL(string:)` is a function parameter.

Stateful code is modelled as classes whose methods update fields:
- the repositories;
- the view model;
- the tokenizing iterator.

The integer-to-decimal routines write into an `array<char>` buffer in place.

Each method's postcondition ties the new state to specification functions. The lemmas state what those functions mean.

## Model

| member | source | states |
|---|---|---|
| Places.UpsertSpec | android/app/src/main/java/app/tourism/data/repositories/PlacesRepository.kt:73-81 | Inserting rows into a keyed table (places by place id, reviews by review id) yields exactly the old keys plus the inserted keys. Each inserted key holds the last row inserted with it. Every other row is unchanged. |
| Places.UpsertKeyedBy | android/app/src/main/java/app/tourism/data/repositories/PlacesRepository.kt:73-81 | Inserting rows keeps every row of a table stored under its own key. |
| Places.EntitiesIds | android/app/src/main/java/app/tourism/data/repositories/PlacesRepository.kt:62-70 | Mapping downloaded places to rows keeps exactly their ids. |
| Places.EntitiesFrom | android/app/src/main/java/app/tourism/data/repositories/PlacesRepository.kt:51-60 | Every mapped row comes from one downloaded place, tagged with the category, favorite iff its id is in the snapshot. |
| Places.BootstrapTableSpec | android/app/src/main/java/app/tourism/data/repositories/PlacesRepository.kt:44-76 | After bootstrap the place table's ids are exactly the catalog's attraction, restaurant and accommodation ids. A flag is true iff the id is in the favorites snapshot. Every row comes from its category's list, tagged Sights, Restaurants or Hotels. |
| Places.RefreshedTableSpec | android/app/src/main/java/app/tourism/data/repositories/PlacesRepository.kt:124-135 | After a changed-hash refresh, the category's rows are exactly the downloaded places, each favorite iff in the snapshot. No old row of the category survives. Other categories' rows are kept unless a download reuses their id. |
| Places.AllReviewsBelongTo | android/app/src/main/java/app/tourism/data/repositories/PlacesRepository.kt:138-142 | Every review the loop collects belongs to one of the downloaded places. |
| Places.RefreshedReviewsSpec | android/app/src/main/java/app/tourism/data/repositories/PlacesRepository.kt:138-144 | After a changed-hash refresh the review table's ids are exactly the review ids of the downloaded places, each row stored under its own id and carried by one of those places. Any review no downloaded place carries is gone: after a refresh of one category, the places of the other two categories keep their rows but lose every review that is not also carried by a downloaded place. |
| Places.PlacesRepository.constructor | android/app/src/main/java/app/tourism/data/repositories/PlacesRepository.kt:25-32 | The repository works on the places, reviews and hashes the database holds, which are empty on a new install and filled after the first launch. |
| Places.PlacesRepository.CollectReviews | android/app/src/main/java/app/tourism/data/repositories/PlacesRepository.kt:138-142 | The loop collects every place's reviews in order, skipping places with no review list. |
| Places.PlacesRepository.InsertPlaces | android/app/src/main/java/app/tourism/data/repositories/PlacesRepository.kt:74-76 | The DAO insert replaces rows id by id and keeps the table keyed by id. |
| Places.PlacesRepository.InsertReviews | android/app/src/main/java/app/tourism/data/repositories/PlacesRepository.kt:81 | The review DAO insert replaces reviews review id by review id and keeps the table keyed by review id. |
| Places.PlacesRepository.DownloadAllDataIfFirstTime | android/app/src/main/java/app/tourism/data/repositories/PlacesRepository.kt:34-97 | With a non-empty hash table, or a failed catalog call, nothing is written. Otherwise the place table becomes the bootstrap table. The review table is emptied and then holds the concatenated reviews of the attractions, restaurants and accommodations, keyed by review id. The three hash rows become the catalog's three hashes, and "great_success" is emitted. |
| Places.PlacesRepository.GetPlacesByCategory | android/app/src/main/java/app/tourism/data/repositories/PlacesRepository.kt:106-148 | The cached rows of the category are emitted iff the stored hash is not blank. A failed call, an empty answer or an equal hash writes nothing. A different hash becomes the category's hash, its places are replaced by the refreshed table, and the whole review table is emptied and then holds the new places' reviews, keyed by review id. |
| Places.PlacesRepository.SetFavorite | android/app/src/main/java/app/tourism/data/repositories/PlacesRepository.kt:171-173 | Sets one place's flag; no other row and no other field of that row changes. |
| Currency.FindValueByCurrencyCode | android/app/src/main/java/app/tourism/data/repositories/CurrencyRepositoryImpl.kt:33-35 | The result is Missing iff no entry has the code; otherwise it is the value of the first entry with the code. |
| Currency.GetCurrencyRatesFromXml | android/app/src/main/java/app/tourism/data/repositories/CurrencyRepositoryImpl.kt:31-42 | usd, eur and rub are the first-match values of "USD", "EUR" and "RUB", each Missing iff its code is absent. |
| Currency.LookupDependsOnlyOnOwnCode | android/app/src/main/java/app/tourism/data/repositories/CurrencyRepositoryImpl.kt:33-35 | A lookup gives the same answer on the list restricted to entries with that code. |
| Currency.RatesAreIndependent | android/app/src/main/java/app/tourism/data/repositories/CurrencyRepositoryImpl.kt:37-41 | Each rate depends only on the entries of its own code, so a missing or changed code affects only its field. |
| Currency.CurrencyRepository.constructor | android/app/src/main/java/app/tourism/data/repositories/CurrencyRepositoryImpl.kt:13-14 | The repository starts from the stored rates row, if any. |
| Currency.CurrencyRepository.GetCurrency | android/app/src/main/java/app/tourism/data/repositories/CurrencyRepositoryImpl.kt:16-29 | A cached row is emitted first, and nothing is emitted first without one. On success the cache becomes the parsed rates and the same rates are emitted last. On failure the cache is unchanged and the error is emitted. |
| StringUtils.TokensProperties | base/string_utils.hpp:136-145 | Every token of the reference splitter is non-empty and delimiter-free. The tokens joined together are exactly the non-delimiter characters in order. |
| StringUtils.TokensEmptyIff | base/string_utils.hpp:136-145 | There are no tokens iff every character is a delimiter, which includes the empty string. |
| StringUtils.TokenizeIterator.constructor | base/string_utils.hpp:82-92 | A new iterator stands on the first token of the string, after the leading delimiters. |
| StringUtils.TokenizeIterator.Copy | base/string_utils.hpp:113 | The copy has the same string, delimiters and position. |
| StringUtils.TokenizeIterator.Move | base/string_utils.hpp:61-79 | beg is the first non-delimiter at or after the old end (or the end of input). end is the first delimiter after beg (or the end of input). Everything skipped is a delimiter. |
| StringUtils.TokenizeIterator.HasToken | base/string_utils.hpp:100 | A valid iterator that is not exhausted has a non-empty current token. |
| StringUtils.TokenizeIterator.Current | base/string_utils.hpp:94-98 | The current token is non-empty and contains no delimiter. |
| StringUtils.TokenizeIterator.Next | base/string_utils.hpp:102-106 | Advancing keeps the iterator valid and strictly increases beg whenever there was a token. |
| StringUtils.TokenizeIterator.IsLast | base/string_utils.hpp:108-116 | True iff there is a current token and only delimiters follow it, that is, one more advance exhausts the iterator. The iterator itself is not changed. |
| StringUtils.Tokenize | base/string_utils.hpp:136-145 | The functor is called once per maximal run of non-delimiters, left to right, exactly as the reference splitter yields them. |
| StringUtils.IsInArray | base/string_utils.hpp:150-156 | True iff some array element equals t. |
| StringUtils.DecimalRoundTrip | base/string_utils.hpp:193-202 | The digit string of n reads back as n. |
| StringUtils.DecimalNoLeadingZero | base/string_utils.hpp:193-202 | The digit string starts with '0' only for 0, and 0 gives "0". |
| StringUtils.DecimalLength | base/string_utils.hpp:207-208 | n has at most k digits iff n < 10^k. |
| StringUtils.ToStringDigits | base/string_utils.hpp:193-202 | The do-while writes the decimal digits of i, most significant first, ending at end. It writes at least one digit, returns the first written position and leaves the rest of the buffer alone. |
| StringUtils.SignedDecimalRoundTrip | base/string_utils.hpp:204-217 | The signed text starts with '-' exactly for negatives, and its digits read back as the magnitude. |
| StringUtils.ToStringSigned | base/string_utils.hpp:204-217 | As written, with a 19-char buffer: for i > -10^18 the result is the signed decimal text of i. |
| StringUtils.ToStringUnsigned | base/string_utils.hpp:219-226 | As written, with a 19-char buffer: for i < 10^19 the result is the decimal text of i. |
| StringUtils.SignedBufferTooSmall | base/string_utils.hpp:207-210 | -10^18 is an int64 whose text needs 20 chars, one more than the buffer. |
| StringUtils.UnsignedBufferTooSmall | base/string_utils.hpp:221-224 | 10^19 is a uint64 whose text needs 20 chars, one more than the buffer. |
| StringUtils.NegatedInt64MinOverflows | base/string_utils.hpp:210 | -INT64_MIN is outside the int64 range. |
| StringUtils.ToStringSignedWide | base/string_utils.hpp:204-217 | Corrected: every int64, INT64_MIN included, converts to its signed decimal text within 20 chars. |
| StringUtils.ToStringUnsignedWide | base/string_utils.hpp:219-226 | Corrected: every uint64 converts to its decimal text within 20 chars. |
| Network.HandleResponse | iphone/Maps/Tourism/Data/Network/Utils/CombineNetworkHelper.swift:39-57 | It returns a value iff the status is 2xx and the body decodes, and the value is the decoded body. The error kinds follow the status: errorToUser iff 422 with a decodable error body (carrying its message); serverError iff 5xx. A decoding failure can only come from 2xx or 422. A non-HTTP response gives other("Network request error"). Every other status gives other("Unknown error"). |
| Network.HandleMappingError | iphone/Maps/Tourism/Data/Network/Utils/CombineNetworkHelper.swift:59-62 | A ResourceError passes unchanged. Any other error becomes other with its description. |
| Network.UnprocessableReachesUser | iphone/Maps/Tourism/Data/Network/Utils/CombineNetworkHelper.swift:49-51 | A 422 with a decodable body fails with errorToUser carrying the body's message verbatim. |
| Network.UndecodableUnprocessableIsOther | iphone/Maps/Tourism/Data/Network/Utils/CombineNetworkHelper.swift:49-62 | A 422 whose body does not decode fails with other(decoding error), never errorToUser. |
| Network.PerformClassifies | iphone/Maps/Tourism/Data/Network/Utils/CombineNetworkHelper.swift:64-80 | The pipeline succeeds iff the status is 2xx and the body decodes. errorToUser implies 422. serverError happens iff the status is 5xx, with message "Server Error: <code>". |
| Network.CreateRequest | iphone/Maps/Tourism/Data/Network/Utils/CombineNetworkHelper.swift:9-24 | The request keeps the url, method and body. Its header fields are exactly the default ones plus the caller's. A caller field joins a default one with a comma. Accept and Content-Type are application/json. Authorization is present iff a token is stored, with value "Bearer <token>". |
| Network.DefaultHeadersSpec | iphone/Maps/Tourism/Data/Network/Utils/CombineNetworkHelper.swift:12-16 | The default fields are Accept and Content-Type with application/json, plus Authorization "Bearer <token>" exactly when there is a token. |
| Profile.CanSave | iphone/Maps/Tourism/Presentation/Home/Screens/Profile/ProfileViewModel.swift:89 | The guard holds iff the name and email are non-empty and a country is set. An empty-string country passes. |
| Profile.ProfileViewModel.constructor | iphone/Maps/Tourism/Presentation/Home/Screens/Profile/ProfileViewModel.swift:12-25 | The fields start empty, with no message shown, no data and no sign-out response. |
| Profile.ProfileViewModel.ShowMessage | iphone/Maps/Tourism/Presentation/Home/Screens/Profile/ProfileViewModel.swift:146-149 | Sets the message and raises the show flag. |
| Profile.ProfileViewModel.ReceivePersonalData | iphone/Maps/Tourism/Presentation/Home/Screens/Profile/ProfileViewModel.swift:67-83 | On a value it sets personalData, fullName, email, currentEmail and countryCodeName from the value, and changes pfpFromRemote only when pfpUrl is present. On a failure it only shows the error. Nothing else changes. |
| Profile.ProfileViewModel.UpdatePersonalDataInMemory | iphone/Maps/Tourism/Presentation/Home/Screens/Profile/ProfileViewModel.swift:111-115 | fullName, email and countryCodeName take the server's values, and nothing else changes, currentEmail included. |
| Profile.ProfileViewModel.Save | iphone/Maps/Tourism/Presentation/Home/Screens/Profile/ProfileViewModel.swift:88-109 | When the guard fails there is no repository call and "please_fill_all_fields" is shown. Otherwise the update is sent with the form's name, country and picture. The email is omitted iff it equals currentEmail. On success the form takes the server's values and "saved" is shown. On failure the error is shown. currentEmail never changes. |
| Profile.ProfileViewModel.SignOut | iphone/Maps/Tourism/Presentation/Home/Screens/Profile/ProfileViewModel.swift:131-144 | On success it stores the response, clears the token, calls the completion callback once if one is set, and shows the server's message. On failure it only shows the error and keeps the token. |

## Left out

- I/O, concurrency and reactive plumbing are not modelled: Kotlin flows, Combine publishers, `DispatchQueue`, URLSession, Room/SQL and Core Data. Each reconciliation runs as one sequential method, and every remote answer or database snapshot is a parameter.
- Places.PlacesRepository.GetPlacesByCategory: the live queries at PlacesRepository.kt:110-113 and 117-119 never complete in the app, so the code after them would not run. The model does not capture that suspension: it emits the cached rows once and goes on with the refresh.
- Places.PlacesRepository.GetPlacesByCategory: when the category has no hash row, the model stops and writes nothing. What the DAO does for a missing row is not part of this model.
- Places.PlacesRepository.GetPlacesByCategory: a refresh empties the whole review table before inserting the refreshed category's reviews (PlacesRepository.kt:143). The model does the same, so after a refresh of one category the places of the other two categories keep their rows but lose their reviews (Places.RefreshedReviewsSpec).
- Places.PlacesRepository.DownloadAllDataIfFirstTime: `handleGenericCall` is not part of this model. The model takes it to emit the error message on failure and the mapper's result on success, and it emits no Loading state.
- Places.PlacesRepository.InsertPlaces: the DAO's conflict strategy is not visible. It is modelled as replace, where the last row with an id wins.
- Places.PlacesRepository.InsertReviews: the review DAO's conflict strategy is not visible either. It is modelled as replace by review id, so of several downloaded reviews with one id only the last is kept; an aborting insert would instead fail the whole write.
- The DTO and entity mappers (`toPlaceFull`, `toPlaceEntity`, `toReviewEntity`) are modelled as copying id, payload and reviews. The favorites and search SQL queries are left out, and the favorites snapshot is an input.
- `search`, `getTopPlaces`, `getPlaceById` and `getFavorites` only forward a DAO query and are not modelled.
- Places.IsBlank: only ASCII whitespace counts as blank. Kotlin's `isBlank` also accepts other Unicode whitespace.
- Currency.CurrencyRepository.GetCurrency: `handleGenericCall` (CurrencyRepositoryImpl.kt:21) is not part of this model. The model takes it to emit nothing before the call (no Loading state), so exactly one item follows the cached row, the error message on failure or the mapper's result on success. `updateCurrencyRates` (CurrencyRepositoryImpl.kt:25) is not shown either; the model takes it to store the row whether or not one exists yet.
- Currency rates are doubles that are only copied. They are modelled as reals, and NaN as the `Missing` constructor.
- StringUtils.TokenizeIterator: the input is a sequence of code points and a delimiter is a member of a set. UTF-8 decoding and `SimpleDelimiter` are not part of this model.
- StringUtils: the conversions are modelled for the `int64_t` and `uint64_t` overloads that use them. The `ostringstream` `to_string` and the functions that are only declared (`to_int`, `MakeLowerCase`, `Trim`, …) are left out.
- Network.CreateRequest: header names are compared exactly. URLRequest compares them case-insensitively. The caller's headers are added in an arbitrary order, as a Swift dictionary is traversed.
- Network: JSON encoding and decoding are modelled as decoder functions. `encodeRequestBody`, `get`, `post` and `postWithoutBody` are left out: they only parse the URL or encode the body, then call `performRequest`. The status-code log line is output only.
- Profile.ProfileViewModel.constructor: the subscriptions `init` starts (`getPersonalData`, `getCurrency`, the picture-picker observer) are not modelled. Neither are `getCurrency` and the `isImagePickerUsed` flag.
- Profile: the trivial setters (`setPfp`, `setFullName`, `setEmail`, `setCountryCodeName`) assign one field and are not modelled. Localized messages are represented by their localization keys. The token lives in `UserPreferences` and is modelled as a field of the view model.

## Findings

| source | as written | input that shows it | evidently intended | confidence | as-written member | corrected member |
|---|---|---|---|---|---|---|
| base/string_utils.hpp:204-217 | The int64 buffer has `digits10 + 1` = 19 chars, and the magnitude is computed as `-i` in int64. | i = -1000000000000000000 (-10^18) needs a sign and 19 digits, 20 chars, so the write runs one char before the buffer. For i = INT64_MIN, `-i` overflows. | Every int64 converts to its decimal text. | high, not executed | StringUtils.ToStringSigned, StringUtils.SignedBufferTooSmall, StringUtils.NegatedInt64MinOverflows | StringUtils.ToStringSignedWide |
| base/string_utils.hpp:219-226 | The uint64 buffer has `digits10` = 19 chars. | i = 10000000000000000000 (10^19), below UINT64_MAX, has 20 digits, so the write runs one char before the buffer. | Every uint64 converts to its decimal text. | high, not executed | StringUtils.ToStringUnsigned, StringUtils.UnsignedBufferTooSmall | StringUtils.ToStringUnsignedWide |
