/** `ListResult` and `ListItem` (Sources/CarsalesAPI/Models/ListItem.swift): immutable records
    filled once by decoding, with display fallbacks and an identity that is generated per
    instance instead of being read from the payload. */
module ListItemModel {
  import opened Wrappers
  import opened JsonDecoding

  const ContactSellerForPrice := "Contact seller for price"
  const DefaultLocation := "Australia"

  /** A listing. `id` is `UUID().uuidString`, made when the value is made; the other
      fields come from the payload. */
  datatype ListItem = ListItem(
    id: string,
    title: string,
    photoPath: string,
    detailsURL: string,
    location: Option<string>,
    price: Option<string>)

  /** The decoded list response. */
  datatype ListResult = ListResult(objects: seq<ListItem>)

  /** ListItem's `CodingKeys`: each decoded field and the JSON key it is read from. */
  datatype ItemKey = Title | Location | Price | PhotoPath | DetailsURL {
    function StringValue(): string {
      match this
      case Title => "Title"
      case Location => "Location"
      case Price => "Price"
      case PhotoPath => "MainPhoto"
      case DetailsURL => "DetailsUrl"
    }
  }

  /** ListResult's `CodingKeys`: `objects` is read from "Result". */
  const ResultKey := "Result"

  /** The memberwise `init`; `uuid` stands for the `UUID()` the new value draws. */
  function NewListItem(uuid: string, title: string, location: string, price: string, photoPath: string, detailsURL: string): (item: ListItem)
    ensures item.id == uuid
    ensures PriceString(item) == price && LocationString(item) == location
    ensures item.title == title && item.photoPath == photoPath && item.detailsURL == detailsURL
  {
    ListItem(uuid, title, photoPath, detailsURL, Some(location), Some(price))
  }

  /** `priceString`: the stored price as it is, or a fixed message. */
  function PriceString(item: ListItem): (r: string)
    ensures item.price.Some? ==> r == item.price.value
    ensures item.price.None? ==> r == ContactSellerForPrice
  {
    item.price.GetOr(ContactSellerForPrice)
  }

  /** `locationString`: the stored location, or the country. */
  function LocationString(item: ListItem): (r: string)
    ensures item.location.Some? ==> r == item.location.value
    ensures item.location.None? ==> r == DefaultLocation
  {
    item.location.GetOr(DefaultLocation)
  }

  /** `==`: only the ids are compared. */
  predicate SameItem(a: ListItem, b: ListItem)
    ensures a == b ==> SameItem(a, b)
    ensures a.id != b.id ==> !SameItem(a, b)
  {
    a.id == b.id
  }

  /** The state of a `Hasher`: the values combined into it so far. */
  datatype Hasher = Hasher(combined: seq<string>)

  /** `hash(into:)`: combines the id, and nothing else, into the hasher. */
  function HashInto(item: ListItem, hasher: Hasher): (r: Hasher)
    ensures |r.combined| == |hasher.combined| + 1 && r.combined[..|hasher.combined|] == hasher.combined
    ensures r.combined[|hasher.combined|] == item.id
  {
    Hasher(hasher.combined + [item.id])
  }

  /** The synthesized `init(from:)`: the keys in `CodingKeys` order (Title, Location, Price,
      MainPhoto, DetailsUrl), first failure wins. A null where the object should be is
      "value not found", any other non-object a type mismatch. */
  function DecodeListItem(j: Json, path: CodingPath, uuid: string): (r: Decoded<ListItem>)
    ensures r.Success? ==> r.value.id == uuid
    ensures r.Success? ==> (j.JObj? && HasString(j.fields, "Title") && HasString(j.fields, "MainPhoto") &&
                            HasString(j.fields, "DetailsUrl") &&
                            r.value.title == j.fields["Title"].s && r.value.photoPath == j.fields["MainPhoto"].s &&
                            r.value.detailsURL == j.fields["DetailsUrl"].s)
    ensures r.Failure? ==> r.error.path == path || exists key: ItemKey :: r.error.path == path + [Key(key.StringValue())]
  {
    match j
    case JObj(m) =>
      var title :- RequiredString(m, Title.StringValue(), path);
      var location :- OptionalString(m, Location.StringValue(), path);
      var price :- OptionalString(m, Price.StringValue(), path);
      var photoPath :- RequiredString(m, PhotoPath.StringValue(), path);
      var detailsURL :- RequiredString(m, DetailsURL.StringValue(), path);
      Success(ListItem(uuid, title, photoPath, detailsURL, location, price))
    case JNull => Failure(DecodeError(ValueNotFound, path))
    case _ => Failure(DecodeError(TypeMismatch, path))
  }

  /** Decoding of the i-th array element, which draws the i-th generated id. */
  function ItemDecoder(uuids: nat -> string): (f: (Json, CodingPath, nat) -> Decoded<ListItem>) {
    (e: Json, p: CodingPath, i: nat) => DecodeListItem(e, p, uuids(i))
  }

  /** `ListResult`'s decode; the i-th item draws the i-th generated id `uuids(i)`. */
  function DecodeListResult(j: Json, uuids: nat -> string): (r: Decoded<ListResult>)
    ensures r.Success? ==> (j.JObj? && ResultKey in j.fields && j.fields[ResultKey].JArr? &&
                            |r.value.objects| == |j.fields[ResultKey].items|)
    ensures j.JNull? ==> r == Failure(DecodeError(ValueNotFound, []))
  {
    match j
    case JObj(m) =>
      var result :- Required(m, ResultKey, []);
      (match result
       case JArr(items) =>
         var objects :- DecodeEach(items, [Key(ResultKey)], ItemDecoder(uuids));
         Success(ListResult(objects))
       case _ => Failure(DecodeError(TypeMismatch, [Key(ResultKey)])))
    case JNull => Failure(DecodeError(ValueNotFound, []))
    case _ => Failure(DecodeError(TypeMismatch, []))
  }

  /** The payload shape the key table describes (the library decodes only; this writes one back). */
  function EncodeListItem(item: ListItem): (j: Json) {
    JObj(map[
      "Title" := JStr(item.title),
      "MainPhoto" := JStr(item.photoPath),
      "DetailsUrl" := JStr(item.detailsURL),
      "Location" := if item.location.Some? then JStr(item.location.value) else JNull,
      "Price" := if item.price.Some? then JStr(item.price.value) else JNull])
  }

  // ---------------------------------------------------------------------------
  // Properties

  /** Decoding succeeds exactly on an object with string Title, MainPhoto and DetailsUrl and
      Location and Price each absent, null or a string; then every field is taken verbatim from
      its key and the id is the generated one. */
  lemma DecodeListItemMeaning(j: Json, path: CodingPath, uuid: string)
    ensures DecodeListItem(j, path, uuid).Success? <==>
      j.JObj? && HasString(j.fields, "Title") && HasString(j.fields, "MainPhoto") && HasString(j.fields, "DetailsUrl")
      && NullOrString(j.fields, "Location") && NullOrString(j.fields, "Price")
    ensures DecodeListItem(j, path, uuid).Success? ==>
      DecodeListItem(j, path, uuid).value == ListItem(uuid, j.fields["Title"].s, j.fields["MainPhoto"].s,
        j.fields["DetailsUrl"].s, OptionalValue(j.fields, "Location"), OptionalValue(j.fields, "Price"))
  {
  }

  /** The failures: null or another non-object, a missing or null Title, a Title that is not a
      string, and, after a good Title, a Location that is neither null nor a string. */
  lemma DecodeListItemFailures(j: Json, path: CodingPath, uuid: string)
    ensures j.JNull? ==> DecodeListItem(j, path, uuid) == Failure(DecodeError(ValueNotFound, path))
    ensures !j.JObj? && !j.JNull? ==> DecodeListItem(j, path, uuid) == Failure(DecodeError(TypeMismatch, path))
    ensures j.JObj? && "Title" !in j.fields ==>
      DecodeListItem(j, path, uuid) == Failure(DecodeError(KeyNotFound, path + [Key("Title")]))
    ensures j.JObj? && "Title" in j.fields && j.fields["Title"].JNull? ==>
      DecodeListItem(j, path, uuid) == Failure(DecodeError(ValueNotFound, path + [Key("Title")]))
    ensures j.JObj? && "Title" in j.fields && j.fields["Title"].JNum? ==>
      DecodeListItem(j, path, uuid) == Failure(DecodeError(TypeMismatch, path + [Key("Title")]))
    ensures j.JObj? && HasString(j.fields, "Title") && !NullOrString(j.fields, "Location") ==>
      DecodeListItem(j, path, uuid) == Failure(DecodeError(TypeMismatch, path + [Key("Location")]))
  {
  }

  /** Keys are tried in table order: with Title good, Location a number and MainPhoto and
      DetailsUrl missing, the error is about Location; a null array element is "value not found". */
  lemma ErrorFollowsKeyOrder(uuids: nat -> string)
    ensures DecodeListItem(JObj(map["Title" := JStr("t"), "Location" := JNum(5)]), [], uuids(0))
      == Failure(DecodeError(TypeMismatch, [Key("Location")]))
    ensures DecodeListResult(JObj(map["Result" := JArr([JNull])]), uuids)
      == Failure(DecodeError(ValueNotFound, [Key("Result"), Index(0)]))
  {
    var m := map["Title" := JStr("t"), "Location" := JNum(5)];
    assert [] + [Key("Location")] == [Key("Location")];
    assert RequiredString(m, "Title", []) == Success("t");
    assert OptionalString(m, "Location", []) == Failure(DecodeError(TypeMismatch, [Key("Location")]));
    var items := [JNull];
    assert [Key(ResultKey)] + [Index(0)] == [Key("Result"), Index(0)];
    var p := [Key(ResultKey)] + [Index(0)];
    assert ItemDecoder(uuids)(JNull, p, 0) == DecodeListItem(JNull, p, uuids(0));
    assert DecodeListItem(JNull, p, uuids(0)) == Failure(DecodeError(ValueNotFound, p));
    assert ItemDecoder(uuids)(items[0], [Key(ResultKey)] + [Index(0)], 0)
      == Failure(DecodeError(ValueNotFound, [Key("Result"), Index(0)]));
  }

  /** A key outside the table, "Id" among them, is never read. */
  lemma UnknownKeyIgnored(m: map<string, Json>, k: string, v: Json, path: CodingPath, uuid: string)
    requires forall key: ItemKey :: key.StringValue() != k
    ensures DecodeListItem(JObj(m[k := v]), path, uuid) == DecodeListItem(JObj(m), path, uuid)
  {
    assert Title.StringValue() != k && PhotoPath.StringValue() != k && DetailsURL.StringValue() != k;
    assert Location.StringValue() != k && Price.StringValue() != k;
    var m' := m[k := v];
    assert forall key: ItemKey :: (key.StringValue() in m' <==> key.StringValue() in m);
    assert forall key: ItemKey | key.StringValue() in m :: m'[key.StringValue()] == m[key.StringValue()];
  }

  /** The payload's "Id" does not reach the item: its id is the generated one. */
  lemma IdNeverRead(m: map<string, Json>, v: Json, path: CodingPath, uuid: string)
    ensures DecodeListItem(JObj(m["Id" := v]), path, uuid) == DecodeListItem(JObj(m), path, uuid)
    ensures DecodeListItem(JObj(m), path, uuid).Success? ==> DecodeListItem(JObj(m), path, uuid).value.id == uuid
  {
    UnknownKeyIgnored(m, "Id", v, path, uuid);
  }

  /** `priceString` of a decoded item: the payload's Price verbatim, or the fixed message when
      Price is null or absent; `locationString` likewise with "Australia". */
  lemma DisplayOfDecoded(m: map<string, Json>, path: CodingPath, uuid: string)
    requires DecodeListItem(JObj(m), path, uuid).Success?
    ensures PriceString(DecodeListItem(JObj(m), path, uuid).value) ==
      if HasString(m, "Price") then m["Price"].s else "Contact seller for price"
    ensures LocationString(DecodeListItem(JObj(m), path, uuid).value) ==
      if HasString(m, "Location") then m["Location"].s else "Australia"
  {
    DecodeListItemMeaning(JObj(m), path, uuid);
  }

  /** Writing an item out under its keys and decoding it with the same id gives it back. */
  lemma DecodeEncodeListItem(item: ListItem, path: CodingPath)
    ensures DecodeListItem(EncodeListItem(item), path, item.id) == Success(item)
  {
  }

  /** Two items are equal exactly when their ids are, whatever their other fields. */
  lemma SameItemIsIdEquality(a: ListItem, b: ListItem)
    ensures SameItem(a, b) <==> a.id == b.id
    ensures SameItem(a, a)
    ensures SameItem(a, b) ==> SameItem(b, a)
    ensures forall c: ListItem :: SameItem(a, b) && SameItem(b, c) ==> SameItem(a, c)
  {
  }

  /** Equal items hash equally: the hash sees only the id. */
  lemma EqualItemsHashEqually(a: ListItem, b: ListItem, hasher: Hasher)
    requires SameItem(a, b)
    ensures HashInto(a, hasher) == HashInto(b, hasher)
  {
  }

  /** Decoding the same payload twice gives items that agree on every decoded field but are
      unequal under `==` as soon as the generated ids differ. */
  lemma DecodedTwiceAreDistinct(j: Json, path: CodingPath, u1: string, u2: string)
    requires u1 != u2
    requires DecodeListItem(j, path, u1).Success?
    ensures DecodeListItem(j, path, u2).Success?
    ensures !SameItem(DecodeListItem(j, path, u1).value, DecodeListItem(j, path, u2).value)
    ensures DecodeListItem(j, path, u1).value.(id := u2) == DecodeListItem(j, path, u2).value
  {
    DecodeListItemMeaning(j, path, u1);
    DecodeListItemMeaning(j, path, u2);
  }

  /** The "Result" array decodes into `objects` of the same length and order, item i with
      id `uuids(i)`; any failing element fails the whole result. */
  lemma DecodeListResultMeaning(j: Json, uuids: nat -> string)
    ensures DecodeListResult(j, uuids).Success? <==>
      j.JObj? && ResultKey in j.fields && j.fields[ResultKey].JArr? &&
      forall i | 0 <= i < |j.fields[ResultKey].items| ::
        DecodeListItem(j.fields[ResultKey].items[i], [Key(ResultKey), Index(i)], uuids(i)).Success?
    ensures DecodeListResult(j, uuids).Success? ==>
      var items, objects := j.fields[ResultKey].items, DecodeListResult(j, uuids).value.objects;
      |objects| == |items| &&
      forall i | 0 <= i < |items| ::
        objects[i] == DecodeListItem(items[i], [Key(ResultKey), Index(i)], uuids(i)).value && objects[i].id == uuids(i)
  {
    if j.JObj? && ResultKey in j.fields && j.fields[ResultKey].JArr? {
      var items := j.fields[ResultKey].items;
      var f := ItemDecoder(uuids);
      forall i | 0 <= i < |items|
        ensures f(items[i], [Key(ResultKey)] + [Index(i)], i) == DecodeListItem(items[i], [Key(ResultKey), Index(i)], uuids(i))
      {
        assert [Key(ResultKey)] + [Index(i)] == [Key(ResultKey), Index(i)];
      }
    }
  }

  /** With an id generator that never repeats, the decoded items are pairwise unequal. */
  lemma DecodedItemsAreDistinct(j: Json, uuids: nat -> string)
    requires forall a: nat, b: nat :: a != b ==> uuids(a) != uuids(b)
    requires DecodeListResult(j, uuids).Success?
    ensures var objects := DecodeListResult(j, uuids).value.objects;
      forall a, b | 0 <= a < b < |objects| :: !SameItem(objects[a], objects[b])
  {
    DecodeListResultMeaning(j, uuids);
  }

  /** The single-item payload of the library's tests decodes with its title, location, price,
      photo and details path unchanged. */
  lemma SamplePayloadDecodes(uuid: string)
    ensures
      var j := JObj(map[
        "Id" := JStr("AD-5989286"),
        "Title" := JStr("2019 Mitsubishi Triton GLS MR Auto 4x4 MY19 Double Cab"),
        "Location" := JStr("Victoria"),
        "Price" := JStr("$53,081"),
        "MainPhoto" := JStr("https://carsales.pxcrush.net/carsales/car/cil/bjk2g3yi1gxy2xfg6xf9ugyd7.jpg"),
        "DetailsUrl" := JStr("/v3/9ea9359e-c29d-4493-ad02-69662dcb5586")]);
      var r := DecodeListItem(j, [], uuid);
      r.Success? &&
      r.value.title == "2019 Mitsubishi Triton GLS MR Auto 4x4 MY19 Double Cab" &&
      LocationString(r.value) == "Victoria" &&
      PriceString(r.value) == "$53,081" &&
      r.value.photoPath == "https://carsales.pxcrush.net/carsales/car/cil/bjk2g3yi1gxy2xfg6xf9ugyd7.jpg" &&
      r.value.detailsURL == "/v3/9ea9359e-c29d-4493-ad02-69662dcb5586"
  {
  }
}
