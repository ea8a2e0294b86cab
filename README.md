# CarsalesAPI in Dafny

A model of the domain logic of the CarsalesAPI Swift client library. The library fetches
vehicle listings and vehicle details from one JSON endpoint and decodes them into typed
records. The model covers the parts that do not touch the network:

- `String.currencyString`, in `extensions.dfy` (module `Extensions`). It keeps the ASCII digits
  of a string in order, reads them as a bounded `Int`, and renders the number with a currency
  formatter. The digit fold is a loop method, `ExtractDigits`, proved equal to the filter
  function `Digits`. Swift's `Int(_: String)` and `String(_: Int)` are written out as
  `ParseInt` and `IntToString`. `ParseInt` rejects values outside the 64-bit `Int` range.
- The model types, in `list_item.dfy` and `car_details.dfy`. The structs `ListResult`,
  `ListItem`, `CarDetails` and `CarDetails.Overview` each have a `CodingKeys` table and a
  synthesized decode. The enum `CarDetails.Status` is a `String` raw-value enum. It decodes
  through its raw values, and an unknown string is `DataCorrupted`. The display fields
  `priceString` and `locationString` are on `ListItem` and `CarDetails`, and `photos` is on
  `CarDetails` only. `ListItem` also has its id-only `==` and `hash(into:)`.
- Decoding, in `json.dfy` (module `JsonDecoding`). It works on an already parsed JSON value
  (`Json`), not on bytes. It follows `JSONDecoder`'s rules:
  - A missing required key is `KeyNotFound`, and a required null is `ValueNotFound`.
  - A value of the wrong shape is `TypeMismatch`. An unknown raw value of `Status` is `DataCorrupted`.
  - An optional `String?` key that is missing or null gives nil. One that holds a non-string fails.
  - A null where an object is expected is `ValueNotFound`.
  - Keys are decoded in the order of the type's `CodingKeys` table, and the first failure is the result.
  - Every error carries the coding path of the value it concerns. There are no partial results.
  - For a missing key, the model's path ends with that key. Swift's `keyNotFound` instead carries
    the key separately, next to the path of the enclosing object.
- The facade, in `carsales_api.dfy` (module `CarsalesClient`). `CarsalesEndpoint.path` is a
  total function. Class `CarsalesAPI` has a `cancellable` field that `GetList` and `GetDetails`
  overwrite, so the last call wins. The field holds the only reference to the previous
  `AnyCancellable`. Overwriting it releases that handle, and releasing it cancels the earlier
  request. The ghost field `started` records the requests started, and the ghost field
  `cancelled` records the handles released.

Two consequences of the code:
- A `details` endpoint's path is the caller's string verbatim, so it can be empty. The list path is the only constant.
- A missing `Photos` key, or any other non-optional key, fails decoding. Nothing falls back to an empty default.

Parameters stand in for what the library gets from outside:
- The locale-dependent `NumberFormatter` is the parameter `format: int -> Option<string>`. Like
  `NumberFormatter.string(from:)`, it may return nil.
- Each `UUID()` is a string parameter: `uuid` for one item, and `uuids(i)` for the i-th item
  of a list.
- The `AnyCancellable` that `request` returns is the parameter `handle`.

The source only decodes. `EncodeListItem` and `EncodeCarDetails` write a value back out under
the same keys. They exist so that the round-trip lemmas can state that the key tables lose nothing.

## Model

| member | source | states |
|---|---|---|
| `Extensions.Digits` | Sources/CarsalesAPI/Extensions.swift:11-15 | the extracted string holds only '0'..'9' and is no longer than the input |
| `Extensions.ExtractDigits` | Sources/CarsalesAPI/Extensions.swift:11-15 | the `reduce(into:)` loop, run character by character through `Int(String(c))` and `String(number)`, yields exactly the digit filter `Digits` of the input |
| `Extensions.CharParse` | Sources/CarsalesAPI/Extensions.swift:12-13 | `Int(String(c))` is non-nil exactly when c is an ASCII digit (a lone sign does not parse), and `String(number)` then gives back that same digit |
| `Extensions.IntToString` | Sources/CarsalesAPI/Extensions.swift:13 | `String(_: Int)` renders a non-negative number as digits whose value is the number, and a negative one as '-' followed by the digits of its magnitude; `CharParse` shows that for a single digit it gives that digit back |
| `Extensions.ShowNat` | Sources/CarsalesAPI/Extensions.swift:13 | `String(_: Int)` on a non-negative number is a non-empty digit string whose value is the number, with no leading zero |
| `Extensions.ParseInt` | Sources/CarsalesAPI/Extensions.swift:16 | `Int(_: String)` only ever yields a value within `Int.min`..`Int.max` |
| `Extensions.ParseDigits` | Sources/CarsalesAPI/Extensions.swift:16 | on a digit-only string, `Int(_:)` is nil exactly when the string is empty or its value exceeds `Int.max`, and is that value otherwise |
| `Extensions.DigitsAppend` | Sources/CarsalesAPI/Extensions.swift:11-15 | extraction distributes over concatenation: every digit is kept in its original order, and every non-digit is dropped |
| `Extensions.DigitsCount` | Sources/CarsalesAPI/Extensions.swift:11-15 | each digit occurs in the result as often as in the input, and no other character occurs at all |
| `Extensions.DigitsOfDigits` | Sources/CarsalesAPI/Extensions.swift:11-15 | a digit-only input is returned unchanged |
| `Extensions.DigitsIdempotent` | Sources/CarsalesAPI/Extensions.swift:11-15 | extracting twice is extracting once |
| `Extensions.LeadingZero` | Sources/CarsalesAPI/Extensions.swift:16 | a leading '0' does not change the value of a digit string |
| `Extensions.Currency` | Sources/CarsalesAPI/Extensions.swift:6-18 | what `currencyString` returns: when non-nil, the input has a digit, their value is at most `Int.max`, and the result is the formatter's answer for that value; with no digit it is nil (both directions in `CurrencyCases`) |
| `Extensions.CurrencyString` | Sources/CarsalesAPI/Extensions.swift:6-18 | `currencyString` is nil when the input has no digit or their value exceeds `Int.max`, and is otherwise the formatter's answer for that value |
| `Extensions.CurrencyCases` | Sources/CarsalesAPI/Extensions.swift:16-17 | both directions: the result is nil exactly when there is no digit, or the value overflows, or the formatter answers nil |
| `Extensions.CurrencyIgnoresLeadingZero` | Sources/CarsalesAPI/Extensions.swift:11-17 | prefixing "0" to a string that has a digit does not change its currency string |
| `Extensions.ShortPricesNeverOverflow` | Sources/CarsalesAPI/Extensions.swift:16 | 1 to 18 digits never overflow `Int`, so the result is the formatter's answer for their value |
| `Extensions.CurrencyOfPriceText` | Sources/CarsalesAPI/Extensions.swift:11-17 | "$53,081" and "53081" both become the formatter's answer for 53081 |
| `Extensions.CurrencyWithoutDigits` | Sources/CarsalesAPI/Extensions.swift:16 | "POA" and "" have no currency string |
| `JsonDecoding.DecodeEach` | Sources/CarsalesAPI/Models/ListItem.swift:9 | an array decodes into one value per element, in order, exactly when every element decodes; otherwise the error is that of the first failing element, and there is no partial result |
| `ListItemModel.DecodeListItem` | Sources/CarsalesAPI/Models/ListItem.swift:73-80 | the synthesized decode, keys in `CodingKeys` order: on success the value was an object with string Title, MainPhoto and DetailsUrl, which become title, photoPath and detailsURL, and the id is the generated one; a failure's path is the item's or one of its table keys (exact characterisation in `DecodeListItemMeaning`) |
| `ListItemModel.DecodeListResult` | Sources/CarsalesAPI/Models/ListItem.swift:8-17 | on success the payload was an object whose "Result" is an array with as many elements as `objects`; a null payload is value-not-found (order and ids in `DecodeListResultMeaning`) |
| `ListItemModel.PriceString` | Sources/CarsalesAPI/Models/ListItem.swift:49-51 | the stored price verbatim, or "Contact seller for price" when nil (from the payload in `DisplayOfDecoded`) |
| `ListItemModel.LocationString` | Sources/CarsalesAPI/Models/ListItem.swift:53-55 | the stored location, or "Australia" when nil |
| `ListItemModel.SameItem` | Sources/CarsalesAPI/Models/ListItem.swift:66-68 | `==`: identical items are equal and items with different ids are not (the exact statement in `SameItemIsIdEquality`) |
| `ListItemModel.HashInto` | Sources/CarsalesAPI/Models/ListItem.swift:61-64 | `hash(into:)` adds exactly one value, the id, to what the hasher has combined (consistency with `==` in `EqualItemsHashEqually`) |
| `ListItemModel.ErrorFollowsKeyOrder` | Sources/CarsalesAPI/Models/ListItem.swift:74-80 | keys are tried in table order: a good Title and a numeric Location give a type mismatch at Location though MainPhoto is missing; a null element of "Result" is value-not-found at [Result, 0] |
| `ListItemModel.NewListItem` | Sources/CarsalesAPI/Models/ListItem.swift:33-45 | the memberwise init stores its arguments, so `priceString` and `locationString` show the given price and location; the id is the drawn UUID |
| `ListItemModel.DecodeListItemMeaning` | Sources/CarsalesAPI/Models/ListItem.swift:73-80 | decoding succeeds exactly on an object with string Title, MainPhoto and DetailsUrl, and Location and Price each absent, null or a string; Title→title, MainPhoto→photoPath and DetailsUrl→detailsURL are copied verbatim, and the id is the generated one |
| `ListItemModel.DecodeListItemFailures` | Sources/CarsalesAPI/Models/ListItem.swift:73-80 | null is value-not-found and any other non-object a type mismatch; with a good Title, a Location that is neither null nor a string is a type mismatch at Location; a missing Title is key-not-found, a null Title is value-not-found, and a numeric Title is a type mismatch, each at path Title |
| `ListItemModel.UnknownKeyIgnored` | Sources/CarsalesAPI/Models/ListItem.swift:74-80 | adding or changing a key outside the table does not change the decode |
| `ListItemModel.IdNeverRead` | Sources/CarsalesAPI/Models/ListItem.swift:25 | the payload's "Id" is never read, and a decoded item's id is the generated one |
| `ListItemModel.DisplayOfDecoded` | Sources/CarsalesAPI/Models/ListItem.swift:49-55 | `priceString` is the payload's Price verbatim with no reformatting, or "Contact seller for price" when Price is null or absent; `locationString` is Location, or "Australia" |
| `ListItemModel.DecodeEncodeListItem` | Sources/CarsalesAPI/Models/ListItem.swift:74-80 | writing an item out under its keys and decoding it with the same id gives the item back |
| `ListItemModel.SameItemIsIdEquality` | Sources/CarsalesAPI/Models/ListItem.swift:66-68 | two items are `==` exactly when their ids are equal, whatever their other fields; `==` is an equivalence |
| `ListItemModel.EqualItemsHashEqually` | Sources/CarsalesAPI/Models/ListItem.swift:61-64 | `hash(into:)` combines only the id, so `==` items leave a hasher in the same state |
| `ListItemModel.DecodedTwiceAreDistinct` | Sources/CarsalesAPI/Models/ListItem.swift:25 | the same payload decoded with two different ids gives items that agree on every decoded field but are not `==` |
| `ListItemModel.DecodeListResultMeaning` | Sources/CarsalesAPI/Models/ListItem.swift:8-17 | `ListResult` decodes exactly when "Result" is an array whose every element decodes; `objects` then has the same length and order, and item i carries the i-th generated id |
| `ListItemModel.DecodedItemsAreDistinct` | Sources/CarsalesAPI/Models/ListItem.swift:24-25 | with an id generator that never repeats, the decoded list holds no two `==` items |
| `ListItemModel.SamplePayloadDecodes` | Tests/CarsalesAPITests/CarsalesAPITests.swift:5-27 | the test's payload decodes, with its title, "Victoria", "$53,081", photo and details path unchanged |
| `CarDetailsModel.StatusFromRawValue` | Sources/CarsalesAPI/Models/CarDetails.swift:75-78 | `Status(rawValue:)`: a status found has that raw value, and nil means the string is neither "Available" nor "Coming Soon" |
| `CarDetailsModel.DecodeStatus` | Sources/CarsalesAPI/Models/CarDetails.swift:75-78 | a decoded status came from the JSON string equal to its raw value; a failure is about the status's own path |
| `CarDetailsModel.DecodeOverview` | Sources/CarsalesAPI/Models/CarDetails.swift:64-68 | on success the value was an object with a Photos array of the same length, and location and price are the Location and Price strings or nil when absent or null; a null overview is value-not-found |
| `CarDetailsModel.DecodeCarDetails` | Sources/CarsalesAPI/Models/CarDetails.swift:83-90 | the synthesized decode, keys in `CodingKeys` order: on success Id, Title, Comments and SaleStatus were strings and became id, title, comments and the status with that raw value |
| `CarDetailsModel.PriceString` | Sources/CarsalesAPI/Models/CarDetails.swift:30-33 | "Contact seller for price" without a price; the price's currency string when there is one; the raw price when that is nil (in terms of digits and `Int.max` in `PriceStringCases`) |
| `CarDetailsModel.LocationString` | Sources/CarsalesAPI/Models/CarDetails.swift:35-37 | the overview's location, or "Australia" when nil |
| `CarDetailsModel.Photos` | Sources/CarsalesAPI/Models/CarDetails.swift:39-41 | the overview's photos, element for element |
| `CarDetailsModel.ErrorFollowsKeyOrder` | Sources/CarsalesAPI/Models/CarDetails.swift:84-90 | keys are tried in table order: with a good Id, SaleStatus "Sold" is corrupted data at SaleStatus though Title is missing; a null Overview is value-not-found at Overview |
| `CarDetailsModel.NewOverview` | Sources/CarsalesAPI/Models/CarDetails.swift:53-61 | Overview's init stores its arguments; by default it has nil location, nil price and no photos |
| `CarDetailsModel.NewCarDetails` | Sources/CarsalesAPI/Models/CarDetails.swift:14-26 | CarDetails' init stores its arguments, with defaults for all but the id |
| `CarDetailsModel.DefaultDetails` | Sources/CarsalesAPI/Models/CarDetails.swift:14-26 | the default details are coming soon, with an empty title, empty comments, no location, no price and no photos, so they show "Contact seller for price" and "Australia" |
| `CarDetailsModel.StatusRawValues` | Sources/CarsalesAPI/Models/CarDetails.swift:75-78 | "Available" and "Coming Soon" are the only raw values, and `init(rawValue:)` and `rawValue` are inverse in both directions |
| `CarDetailsModel.DecodeStatusMeaning` | Sources/CarsalesAPI/Models/CarDetails.swift:75-78 | a status decodes exactly from one of the two raw strings; any other string is data-corrupted |
| `CarDetailsModel.PriceStringCases` | Sources/CarsalesAPI/Models/CarDetails.swift:30-33 | without a price, `priceString` is "Contact seller for price"; with one, it is the formatted value of its digits, or the raw price when there is no digit, the value overflows, or the formatter answers nil |
| `CarDetailsModel.PriceStringExamples` | Sources/CarsalesAPI/Models/CarDetails.swift:30-33 | the price "$53,081" shows as the formatter's rendering of 53081, or as "$53,081" itself when the formatter answers nil; "POA" shows as "POA" |
| `CarDetailsModel.DecodeEncodePhotos` | Sources/CarsalesAPI/Models/CarDetails.swift:51 | an array of photo strings decodes back unchanged, the empty array included |
| `CarDetailsModel.DecodeOverviewMeaning` | Sources/CarsalesAPI/Models/CarDetails.swift:64-68 | an Overview decodes exactly when Location and Price are absent, null or strings and Photos is an array of strings, which may be empty; its fields are then those values |
| `CarDetailsModel.DecodeCarDetailsMeaning` | Sources/CarsalesAPI/Models/CarDetails.swift:83-90 | details decode exactly when Id, Title and Comments are strings, SaleStatus is one of the two raw values and Overview decodes; each field is then taken from its key |
| `CarDetailsModel.DecodeEncodeCarDetails` | Sources/CarsalesAPI/Models/CarDetails.swift:83-90 | writing details out under their keys and decoding them gives them back |
| `CarDetailsModel.SparsePayloadDecodes` | Tests/CarsalesAPITests/CarsalesAPITests.swift:137-156 | the test payload with null location, null price and no photos decodes as available, and shows "Contact seller for price" and "Australia" |
| `CarsalesClient.Path` | Sources/CarsalesAPI/CarsalesAPI.swift:26-33 | `path` is total: the list endpoint gives the fixed non-empty constant, and a details endpoint gives its string verbatim |
| `CarsalesClient.PathCollisions` | Sources/CarsalesAPI/CarsalesAPI.swift:26-33 | two endpoints resolve to the same path exactly when they are equal, or when one is the list endpoint and the other is a details endpoint spelled like the list constant |
| `CarsalesClient.CarsalesAPI.constructor` | Sources/CarsalesAPI/CarsalesAPI.swift:6-11 | a new facade has base URL "https://mocky.io", holds no handle, has started no request and has cancelled none |
| `CarsalesClient.CarsalesAPI.GetList` | Sources/CarsalesAPI/CarsalesAPI.swift:13-15 | starts one request for the list path, decoded as `ListResult`; the retained handle becomes that request's, and the handle it replaces, if any, is released and so cancelled |
| `CarsalesClient.CarsalesAPI.GetDetails` | Sources/CarsalesAPI/CarsalesAPI.swift:17-19 | starts one request for the given path, decoded as `CarDetails`; the retained handle becomes that request's, and the handle it replaces, if any, is released and so cancelled |
| `CarsalesClient.LastCallWins` | Sources/CarsalesAPI/CarsalesAPI.swift:9-19 | after `getList` and then `getDetails`, the second handle is held; the first was released, so the list request is cancelled; both requests were started in order |
| `CarsalesClient.Released` | Sources/CarsalesAPI/CarsalesAPI.swift:14 | overwriting `cancellable` releases exactly the handle it held, and nothing when it held none |

## Left out

- `API.request` and `DataLoader` (Sources/CarsalesAPI/API.swift, Sources/CarsalesAPI/DataLoader.swift) are left out. They are Combine publishers, `URLSession` I/O and main-queue delivery. A call of `request` is recorded as the `Request` it starts, and the handle it returns is the parameter `handle`.
- `CarsalesClient.CarsalesAPI.GetList`: does not model the completion callback, because the response, its decoding and its delivery happen in the network layer left out above.
- `CarsalesClient.CarsalesAPI.GetDetails`: does not model the completion callback, for the same reason.
- `url(for:)` is kept only as the pair (base URL, path) in `Request`. Foundation's `appendingPathComponent` join is not modelled.
- The currency rendering of `NumberFormatter` is locale-dependent library behaviour. It is the parameter `format`.
- JSON text parsing by `JSONDecoder` is left out. Decoding starts from a parsed `Json` value. Duplicate keys and numbers with fractions are not represented.
- `UUID()` is nondeterministic. Ids are parameters.
- The `sample` values of `ListItem` and `CarDetails` are fixtures, not behaviour.
- `Identifiable` conformance is just the `id` field.
- `Extensions.ExtractDigits`: works on Unicode scalars, while Swift's fold visits grapheme clusters. A digit followed by a combining mark is one `Character` in Swift, so `Int(_:)` rejects it and the fold drops it. The model keeps that digit.
- Two behaviours of the network layer are not modelled. A transport error reaches the completion without any decode. A fetched body is decoded and the result delivered to the completion.
