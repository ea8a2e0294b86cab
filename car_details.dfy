/** `CarDetails`, its `Overview` and its sale `Status`
    (Sources/CarsalesAPI/Models/CarDetails.swift): immutable records filled once by decoding,
    with display fields derived from the overview. */
module CarDetailsModel {
  import opened Wrappers
  import opened JsonDecoding
  import Extensions

  const ContactSellerForPrice := "Contact seller for price"
  const DefaultLocation := "Australia"

  /** The sale status, a `String` raw-value enum. */
  datatype Status = Available | ComingSoon {
    function RawValue(): string {
      match this
      case Available => "Available"
      case ComingSoon => "Coming Soon"
    }
  }

  /** `Status(rawValue:)`. */
  function StatusFromRawValue(raw: string): (r: Option<Status>)
    ensures r.Some? ==> r.value.RawValue() == raw
    ensures r.None? ==> raw != Available.RawValue() && raw != ComingSoon.RawValue()
  {
    if raw == "Available" then Some(Available)
    else if raw == "Coming Soon" then Some(ComingSoon)
    else None
  }

  /** Location, price and photos of a car. */
  datatype Overview = Overview(location: Option<string>, price: Option<string>, photos: seq<string>)

  /** The details of one car. */
  datatype CarDetails = CarDetails(id: string, title: string, comments: string, saleStatus: Status, overview: Overview)

  /** Overview's `CodingKeys`. */
  datatype OverviewKey = OverviewLocation | OverviewPrice | OverviewPhotos {
    function StringValue(): string {
      match this
      case OverviewLocation => "Location"
      case OverviewPrice => "Price"
      case OverviewPhotos => "Photos"
    }
  }

  /** CarDetails' `CodingKeys`. */
  datatype DetailsKey = Id | SaleStatus | Title | OverviewField | Comments {
    function StringValue(): string {
      match this
      case Id => "Id"
      case SaleStatus => "SaleStatus"
      case Title => "Title"
      case OverviewField => "Overview"
      case Comments => "Comments"
    }
  }

  /** Overview's `init`, with its default arguments. */
  function NewOverview(location: Option<string> := None, price: Option<string> := None, photos: seq<string> := []): (o: Overview)
    ensures o.location == location && o.price == price && o.photos == photos
  {
    Overview(location, price, photos)
  }

  /** CarDetails' `init`, with its default arguments; the default id, a fresh `UUID()`, is
      the parameter `id`. */
  function NewCarDetails(id: string, saleStatus: Status := ComingSoon, title: string := "",
                         overview: Overview := NewOverview(), comments: string := ""): (d: CarDetails)
    ensures d.id == id && d.saleStatus == saleStatus && d.title == title
    ensures d.overview == overview && d.comments == comments
  {
    CarDetails(id, title, comments, saleStatus, overview)
  }

  /** `priceString`: the fixed message without a price; otherwise the price's currency
      string, or the price itself when that is nil. */
  function PriceString(d: CarDetails, format: int -> Option<string>): (r: string)
    ensures d.overview.price.None? ==> r == ContactSellerForPrice
    ensures d.overview.price.Some? && Extensions.Currency(d.overview.price.value, format).None? ==>
      r == d.overview.price.value
    ensures d.overview.price.Some? && Extensions.Currency(d.overview.price.value, format).Some? ==>
      r == Extensions.Currency(d.overview.price.value, format).value
  {
    match d.overview.price
    case None => ContactSellerForPrice
    case Some(price) => Extensions.Currency(price, format).GetOr(price)
  }

  /** `locationString`. */
  function LocationString(d: CarDetails): (r: string)
    ensures d.overview.location.Some? ==> r == d.overview.location.value
    ensures d.overview.location.None? ==> r == DefaultLocation
  {
    d.overview.location.GetOr(DefaultLocation)
  }

  /** `photos`. */
  function Photos(d: CarDetails): (r: seq<string>)
    ensures |r| == |d.overview.photos| && forall i | 0 <= i < |r| :: r[i] == d.overview.photos[i]
  {
    d.overview.photos
  }

  /** `Status`'s decode: a string, then `init(rawValue:)`; an unknown string is corrupted data. */
  function DecodeStatus(j: Json, path: CodingPath): (r: Decoded<Status>)
    ensures r.Success? ==> j == JStr(r.value.RawValue())
    ensures r.Failure? ==> r.error.path == path
  {
    var raw :- DecodeString(j, path);
    match StatusFromRawValue(raw)
    case Some(s) => Success(s)
    case None => Failure(DecodeError(DataCorrupted, path))
  }

  /** Overview's synthesized `init(from:)`: Location, Price, Photos in `CodingKeys` order. */
  function DecodeOverview(j: Json, path: CodingPath): (r: Decoded<Overview>)
    ensures j.JNull? ==> r == Failure(DecodeError(ValueNotFound, path))
    ensures r.Success? ==> (j.JObj? && "Photos" in j.fields && j.fields["Photos"].JArr? &&
                            |r.value.photos| == |j.fields["Photos"].items| &&
                            r.value.location == OptionalValue(j.fields, "Location") &&
                            r.value.price == OptionalValue(j.fields, "Price"))
  {
    match j
    case JObj(m) =>
      var location :- OptionalString(m, OverviewLocation.StringValue(), path);
      var price :- OptionalString(m, OverviewPrice.StringValue(), path);
      var photos :- RequiredStrings(m, OverviewPhotos.StringValue(), path);
      Success(Overview(location, price, photos))
    case JNull => Failure(DecodeError(ValueNotFound, path))
    case _ => Failure(DecodeError(TypeMismatch, path))
  }

  /** CarDetails' synthesized `init(from:)`: Id, SaleStatus, Title, Overview, Comments in
      `CodingKeys` order; first failure wins. */
  function DecodeCarDetails(j: Json, path: CodingPath): (r: Decoded<CarDetails>)
    ensures r.Success? ==> (j.JObj? && HasString(j.fields, "Id") && HasString(j.fields, "Title") &&
                            HasString(j.fields, "Comments") && HasString(j.fields, "SaleStatus") &&
                            r.value.id == j.fields["Id"].s && r.value.title == j.fields["Title"].s &&
                            r.value.comments == j.fields["Comments"].s &&
                            r.value.saleStatus.RawValue() == j.fields["SaleStatus"].s)
  {
    match j
    case JObj(m) =>
      var id :- RequiredString(m, Id.StringValue(), path);
      var statusJson :- Required(m, SaleStatus.StringValue(), path);
      var saleStatus :- DecodeStatus(statusJson, path + [Key(SaleStatus.StringValue())]);
      var title :- RequiredString(m, Title.StringValue(), path);
      var overviewJson :- Required(m, OverviewField.StringValue(), path);
      var overview :- DecodeOverview(overviewJson, path + [Key(OverviewField.StringValue())]);
      var comments :- RequiredString(m, Comments.StringValue(), path);
      Success(CarDetails(id, title, comments, saleStatus, overview))
    case JNull => Failure(DecodeError(ValueNotFound, path))
    case _ => Failure(DecodeError(TypeMismatch, path))
  }

  function OptionalJson(v: Option<string>): (j: Json) {
    if v.Some? then JStr(v.value) else JNull
  }

  function EncodePhotos(photos: seq<string>): (j: seq<Json>)
    ensures |j| == |photos| && forall i | 0 <= i < |photos| :: j[i] == JStr(photos[i])
  {
    seq(|photos|, i requires 0 <= i < |photos| => JStr(photos[i]))
  }

  /** The payload shape the key tables describe (the library decodes only; this writes one back). */
  function EncodeCarDetails(d: CarDetails): (j: Json) {
    JObj(map[
      "Id" := JStr(d.id),
      "SaleStatus" := JStr(d.saleStatus.RawValue()),
      "Title" := JStr(d.title),
      "Overview" := JObj(map[
        "Location" := OptionalJson(d.overview.location),
        "Price" := OptionalJson(d.overview.price),
        "Photos" := JArr(EncodePhotos(d.overview.photos))]),
      "Comments" := JStr(d.comments)])
  }

  // ---------------------------------------------------------------------------
  // Properties

  /** "Available" and "Coming Soon" are the only raw values, and `init(rawValue:)` inverts
      `rawValue` in both directions. */
  lemma StatusRawValues(raw: string, s: Status)
    ensures StatusFromRawValue(raw) == Some(s) <==> s.RawValue() == raw
    ensures StatusFromRawValue(raw).Some? <==> raw == "Available" || raw == "Coming Soon"
  {
  }

  /** A status decodes from its raw value; any other string is corrupted data, a non-string a
      type mismatch. */
  lemma DecodeStatusMeaning(j: Json, path: CodingPath)
    ensures DecodeStatus(j, path).Success? <==> j.JStr? && (j.s == "Available" || j.s == "Coming Soon")
    ensures DecodeStatus(j, path).Success? ==> DecodeStatus(j, path).value.RawValue() == j.s
    ensures j.JStr? && j.s != "Available" && j.s != "Coming Soon" ==>
      DecodeStatus(j, path) == Failure(DecodeError(DataCorrupted, path))
  {
  }

  /** The defaults: coming soon, empty title and comments, no location, no price, no photos;
      so the price shows the fixed message and the location the country. */
  lemma DefaultDetails(id: string, format: int -> Option<string>)
    ensures var d := NewCarDetails(id);
      d.saleStatus == ComingSoon && d.title == "" && d.comments == "" &&
      d.overview.location == None && d.overview.price == None && Photos(d) == [] &&
      PriceString(d, format) == "Contact seller for price" && LocationString(d) == "Australia"
  {
  }

  /** `priceString` in every case: the message without a price; otherwise the formatted value of
      the price's digits, falling back to the raw price when it has no digits, overflows `Int`
      or the formatter answers nil. */
  lemma PriceStringCases(d: CarDetails, format: int -> Option<string>)
    ensures d.overview.price.None? ==> PriceString(d, format) == "Contact seller for price"
    ensures d.overview.price.Some? ==>
      var price := d.overview.price.value;
      var digits := Extensions.Digits(price);
      PriceString(d, format) ==
        if digits == [] || Extensions.Value(digits) > Extensions.IntMax || format(Extensions.Value(digits)).None?
        then price
        else format(Extensions.Value(digits)).value
  {
    if d.overview.price.Some? {
      Extensions.CurrencyCases(d.overview.price.value, format);
    }
  }

  /** A listed price "$53,081" is shown as the formatter's rendering of 53081; "POA" is shown as is. */
  lemma PriceStringExamples(d: CarDetails, format: int -> Option<string>)
    ensures d.overview.price == Some("$53,081") ==> PriceString(d, format) == format(53081).GetOr("$53,081")
    ensures d.overview.price == Some("POA") ==> PriceString(d, format) == "POA"
  {
    Extensions.CurrencyOfPriceText(format);
    Extensions.CurrencyWithoutDigits(format);
  }

  /** The photo array decodes element by element; an array of strings comes back unchanged. */
  lemma DecodeEncodePhotos(photos: seq<string>, path: CodingPath)
    ensures DecodeEach(EncodePhotos(photos), path, StringDecoder()) == Success(photos)
  {
    var items := EncodePhotos(photos);
    var f := StringDecoder();
    assert forall i | 0 <= i < |items| :: f(items[i], path + [Index(i)], i) == Success(photos[i]);
    var r := DecodeEach(items, path, f);
    assert r.Success?;
    assert r.value == photos;
  }

  /** Writing the details out under their keys and decoding them gives them back. */
  lemma DecodeEncodeCarDetails(d: CarDetails, path: CodingPath)
    ensures DecodeCarDetails(EncodeCarDetails(d), path) == Success(d)
  {
    var overviewPath := path + [Key("Overview")];
    var o := d.overview;
    var om := map["Location" := OptionalJson(o.location), "Price" := OptionalJson(o.price),
                  "Photos" := JArr(EncodePhotos(o.photos))];
    DecodeEncodePhotos(o.photos, overviewPath + [Key("Photos")]);
    assert RequiredStrings(om, "Photos", overviewPath) == Success(o.photos);
    assert DecodeOverview(JObj(om), overviewPath) == Success(o);
    StatusRawValues(d.saleStatus.RawValue(), d.saleStatus);
    var m := EncodeCarDetails(d).fields;
    assert RequiredString(m, "Id", path) == Success(d.id);
    assert DecodeStatus(m["SaleStatus"], path + [Key("SaleStatus")]) == Success(d.saleStatus);
    assert RequiredString(m, "Title", path) == Success(d.title);
    assert m["Overview"] == JObj(om);
    assert RequiredString(m, "Comments", path) == Success(d.comments);
  }

  /** Overview decoding succeeds exactly when Location and Price are absent, null or strings and
      Photos is an array of strings (possibly empty). */
  lemma DecodeOverviewMeaning(j: Json, path: CodingPath)
    ensures DecodeOverview(j, path).Success? <==>
      j.JObj? && NullOrString(j.fields, "Location") && NullOrString(j.fields, "Price") &&
      "Photos" in j.fields && j.fields["Photos"].JArr? &&
      forall i | 0 <= i < |j.fields["Photos"].items| :: j.fields["Photos"].items[i].JStr?
    ensures DecodeOverview(j, path).Success? ==>
      var o := DecodeOverview(j, path).value;
      var items := j.fields["Photos"].items;
      |o.photos| == |items| && (forall i | 0 <= i < |items| :: o.photos[i] == items[i].s) &&
      o.location == (if HasString(j.fields, "Location") then Some(j.fields["Location"].s) else None) &&
      o.price == (if HasString(j.fields, "Price") then Some(j.fields["Price"].s) else None)
  {
    if j.JObj? && "Photos" in j.fields && j.fields["Photos"].JArr? {
      var items := j.fields["Photos"].items;
      var f := StringDecoder();
      var p := path + [Key("Photos")];
      assert forall i | 0 <= i < |items| :: f(items[i], p + [Index(i)], i) == DecodeString(items[i], p + [Index(i)]);
    }
  }

  /** Details decoding succeeds exactly when Id, Title and Comments are strings, SaleStatus is one
      of the two raw values and Overview decodes; each field is then taken from its key. */
  lemma DecodeCarDetailsMeaning(j: Json, path: CodingPath)
    ensures DecodeCarDetails(j, path).Success? <==>
      j.JObj? && HasString(j.fields, "Id") && HasString(j.fields, "Title") && HasString(j.fields, "Comments") &&
      HasString(j.fields, "SaleStatus") && StatusFromRawValue(j.fields["SaleStatus"].s).Some? &&
      "Overview" in j.fields && DecodeOverview(j.fields["Overview"], path + [Key("Overview")]).Success?
    ensures DecodeCarDetails(j, path).Success? ==>
      var d := DecodeCarDetails(j, path).value;
      d.id == j.fields["Id"].s && d.title == j.fields["Title"].s && d.comments == j.fields["Comments"].s &&
      d.saleStatus.RawValue() == j.fields["SaleStatus"].s &&
      d.overview == DecodeOverview(j.fields["Overview"], path + [Key("Overview")]).value
  {
  }

  /** Keys are tried in table order: with Id good and SaleStatus "Sold", the error is corrupted
      data at SaleStatus, though Title is missing too; a null Overview is "value not found". */
  lemma ErrorFollowsKeyOrder()
    ensures DecodeCarDetails(JObj(map["Id" := JStr("a"), "SaleStatus" := JStr("Sold")]), [])
      == Failure(DecodeError(DataCorrupted, [Key("SaleStatus")]))
    ensures DecodeCarDetails(JObj(map["Id" := JStr("a"), "SaleStatus" := JStr("Available"),
                                      "Title" := JStr("t"), "Overview" := JNull]), [])
      == Failure(DecodeError(ValueNotFound, [Key("Overview")]))
  {
    assert [] + [Key("SaleStatus")] == [Key("SaleStatus")];
    assert [] + [Key("Overview")] == [Key("Overview")];
    var m := map["Id" := JStr("a"), "SaleStatus" := JStr("Sold")];
    assert RequiredString(m, "Id", []) == Success("a");
    assert Required(m, "SaleStatus", []) == Success(JStr("Sold"));
    assert DecodeStatus(JStr("Sold"), [Key("SaleStatus")]) == Failure(DecodeError(DataCorrupted, [Key("SaleStatus")]));
    var m' := map["Id" := JStr("a"), "SaleStatus" := JStr("Available"), "Title" := JStr("t"), "Overview" := JNull];
    assert RequiredString(m', "Id", []) == Success("a");
    assert Required(m', "SaleStatus", []) == Success(JStr("Available"));
    assert RequiredString(m', "Title", []) == Success("t");
    assert Required(m', "Overview", []) == Failure(DecodeError(ValueNotFound, [Key("Overview")]));
  }

  /** The details payload of the library's tests with null location and price and no photos decodes,
      and shows the fixed price message and the country. */
  lemma SparsePayloadDecodes(format: int -> Option<string>)
    ensures
      var j := JObj(map[
        "Id" := JStr("AD-5989286"),
        "SaleStatus" := JStr("Available"),
        "Title" := JStr("2019 Mitsubishi Triton GLS MR Auto 4x4 MY19 Double Cab"),
        "Overview" := JObj(map["Location" := JNull, "Price" := JNull, "Photos" := JArr([])]),
        "Comments" := JStr("Car details")]);
      var r := DecodeCarDetails(j, []);
      r.Success? && r.value.saleStatus == Available && r.value.id == "AD-5989286" && Photos(r.value) == [] &&
      PriceString(r.value, format) == "Contact seller for price" && LocationString(r.value) == "Australia"
  {
  }
}
