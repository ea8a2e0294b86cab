/** The decoding half of `JSONDecoder`, over an already parsed JSON value.
    The models' `CodingKeys` tables drive these helpers; a failure carries the
    kind of `DecodingError` and the coding path of the offending value. */
module JsonDecoding {
  import opened Wrappers

  /** A parsed JSON value. Numbers are kept as integers: no field of the models is numeric. */
  datatype Json =
    | JNull
    | JBool(b: bool)
    | JNum(n: int)
    | JStr(s: string)
    | JArr(items: seq<Json>)
    | JObj(fields: map<string, Json>)

  /** One step of a coding path: an object key or an array position. */
  datatype PathKey = Key(name: string) | Index(index: nat)

  type CodingPath = seq<PathKey>

  /** The cases of Swift's `DecodingError`. */
  datatype ErrorKind = KeyNotFound | ValueNotFound | TypeMismatch | DataCorrupted

  /** A decoding failure and the path of the value it is about. */
  datatype DecodeError = DecodeError(kind: ErrorKind, path: CodingPath)

  type Decoded<T> = Result<T, DecodeError>

  /** `decode(String.self)` on one value: null is "value not found", any other non-string a type mismatch. */
  function DecodeString(j: Json, path: CodingPath): (r: Decoded<string>) {
    match j
    case JStr(s) => Success(s)
    case JNull => Failure(DecodeError(ValueNotFound, path))
    case _ => Failure(DecodeError(TypeMismatch, path))
  }

  /** The value under a non-optional key: a missing key or a null value fails. For a missing key
      the error's path ends with that key; Swift's `keyNotFound` carries the same key beside the
      container's path instead. */
  function Required(fields: map<string, Json>, key: string, path: CodingPath): (r: Decoded<Json>) {
    if key !in fields then Failure(DecodeError(KeyNotFound, path + [Key(key)]))
    else if fields[key].JNull? then Failure(DecodeError(ValueNotFound, path + [Key(key)]))
    else Success(fields[key])
  }

  /** `decode(String.self, forKey:)`. */
  function RequiredString(fields: map<string, Json>, key: string, path: CodingPath): (r: Decoded<string>) {
    var j :- Required(fields, key, path);
    DecodeString(j, path + [Key(key)])
  }

  /** `decodeIfPresent(String.self, forKey:)`: a missing key and null both give nil;
      a present value that is not a string still fails. */
  function OptionalString(fields: map<string, Json>, key: string, path: CodingPath): (r: Decoded<Option<string>>) {
    if key !in fields then Success(None)
    else match fields[key]
      case JNull => Success(None)
      case JStr(s) => Success(Some(s))
      case _ => Failure(DecodeError(TypeMismatch, path + [Key(key)]))
  }

  /** Decoding an array element by element (an unkeyed container): element `i` is decoded by
      `decodeOne(items[i], path + [Index(i)], i)`; the first element that fails fails the whole
      array, and there is no partial result. */
  function DecodeEach<T>(items: seq<Json>, path: CodingPath, decodeOne: (Json, CodingPath, nat) -> Decoded<T>): (r: Decoded<seq<T>>)
    ensures r.Success? <==> forall i | 0 <= i < |items| :: decodeOne(items[i], path + [Index(i)], i).Success?
    ensures r.Success? ==> |r.value| == |items|
    ensures r.Success? ==> forall i | 0 <= i < |items| :: r.value[i] == decodeOne(items[i], path + [Index(i)], i).value
    ensures r.Failure? ==> exists i | 0 <= i < |items| ::
      decodeOne(items[i], path + [Index(i)], i) == Failure(r.error) &&
      forall k | 0 <= k < i :: decodeOne(items[k], path + [Index(k)], k).Success?
    decreases |items|
  {
    if |items| == 0 then Success([])
    else
      var n := |items| - 1;
      assert forall i | 0 <= i < n :: items[..n][i] == items[i];
      var prefix :- DecodeEach(items[..n], path, decodeOne);
      var last :- decodeOne(items[n], path + [Index(n)], n);
      Success(prefix + [last])
  }

  /** The key holds a string. */
  predicate HasString(m: map<string, Json>, key: string) {
    key in m && m[key].JStr?
  }

  /** The key is absent or holds null or a string: what an optional string field accepts. */
  predicate NullOrString(m: map<string, Json>, key: string) {
    key !in m || m[key].JNull? || m[key].JStr?
  }

  /** The value an optional string key decodes to. */
  function OptionalValue(m: map<string, Json>, key: string): (r: Option<string>) {
    if HasString(m, key) then Some(m[key].s) else None
  }

  /** Decoding of one array element as a string. */
  function StringDecoder(): (f: (Json, CodingPath, nat) -> Decoded<string>) {
    (e: Json, p: CodingPath, i: nat) => DecodeString(e, p)
  }

  /** `decode([String].self, forKey:)`: the key must hold an array whose every element is a string. */
  function RequiredStrings(fields: map<string, Json>, key: string, path: CodingPath): (r: Decoded<seq<string>>) {
    var j :- Required(fields, key, path);
    match j
    case JArr(items) => DecodeEach(items, path + [Key(key)], StringDecoder())
    case _ => Failure(DecodeError(TypeMismatch, path + [Key(key)]))
  }
}
