/**
  JSON values as `JSON.parse` produces them, and the few pieces of JavaScript
  semantics the engine relies on when it reads them: property access with and
  without optional chaining, `typeof`, truthiness and `toLowerCase()`.
 */
module JsonValues {
  import opened Optional
  import opened Errors
  import opened Strings

  datatype Json =
    | JNull
    | JBool(b: bool)
    | JNumber(n: real)
    | JString(s: string)
    | JArray(items: seq<Json>)
    | JObject(fields: map<string, Json>)

  /** A JavaScript value read from JSON data; `None` is `undefined`. */
  type JsValue = Option<Json>

  /** The answers of `typeof` that JSON data can produce. */
  datatype JsType = UndefinedType | ObjectType | BooleanType | NumberType | StringType

  /** `typeof v`: note that null and arrays are both reported as "object". */
  function TypeOf(v: JsValue): (t: JsType)
    ensures t == ObjectType <==> v.Some? && (v.value.JNull? || v.value.JArray? || v.value.JObject?)
    ensures t == UndefinedType <==> v.None?
    ensures t == StringType <==> v.Some? && v.value.JString?
    ensures t == NumberType <==> v.Some? && v.value.JNumber?
    ensures t == BooleanType <==> v.Some? && v.value.JBool?
  {
    match v
    case None => UndefinedType
    case Some(j) =>
      match j
      case JNull => ObjectType
      case JBool(_) => BooleanType
      case JNumber(_) => NumberType
      case JString(_) => StringType
      case JArray(_) => ObjectType
      case JObject(_) => ObjectType
  }

  predicate IsNullish(v: JsValue) {
    v == None || v == Some(JNull)
  }

  /**
    `v.key` on a value that is not null: the own key of an object. The names
    the engine reads (id, text, author, userName, followers, isReply,
    isRetweet, retweetedTweet) are not properties of any JSON array, string,
    number or boolean, so those yield undefined.
   */
  function Member(v: Json, key: string): JsValue {
    if v.JObject? && key in v.fields then Some(v.fields[key]) else None
  }

  /** `v.key` without optional chaining: reading a property of null or undefined throws. */
  function StrictMember(v: JsValue, key: string): (r: Result<JsValue>)
    ensures r.Err? <==> IsNullish(v)
    ensures r.Ok? ==> r.value == Member(v.value, key)
  {
    if IsNullish(v) then Err(TypeError("read " + key)) else Ok(Member(v.value, key))
  }

  /** `v?.key`: undefined when `v` is null or undefined. */
  function OptionalMember(v: JsValue, key: string): (r: JsValue)
    ensures IsNullish(v) ==> r.None?
  {
    if IsNullish(v) then None else Member(v.value, key)
  }

  /** JavaScript truthiness of a JSON value. */
  predicate Truthy(v: JsValue) {
    match v
    case None => false
    case Some(j) =>
      match j
      case JNull => false
      case JBool(b) => b
      case JNumber(n) => n != 0.0
      case JString(s) => s != ""
      case JArray(_) => true
      case JObject(_) => true
  }

  /** `v.toLowerCase()`: only strings have the method; any other value throws. */
  function ToLowerCase(v: JsValue): (r: Result<string>)
    ensures r.Ok? <==> TypeOf(v) == StringType
    ensures r.Ok? ==> r.value == Lower(v.value.s)
  {
    if v.Some? && v.value.JString? then Ok(Lower(v.value.s)) else Err(TypeError("toLowerCase"))
  }

  /** `v?.toLowerCase()`: undefined for null or undefined, the lower-cased text for a string, and a throw otherwise. */
  function OptionalToLowerCase(v: JsValue): (r: Result<Option<string>>)
    ensures IsNullish(v) ==> r == Ok(None)
    ensures TypeOf(v) == StringType ==> r == Ok(Some(Lower(v.value.s)))
    ensures r.Err? <==> !IsNullish(v) && TypeOf(v) != StringType
  {
    if IsNullish(v) then Ok(None) else
      var lower :- ToLowerCase(v);
      Ok(Some(lower))
  }

  /** The string held at `v.key`, if it is one. */
  function StringMember(v: Json, key: string): (r: Option<string>)
    ensures r.Some? <==> TypeOf(Member(v, key)) == StringType
    ensures r.Some? ==> Member(v, key) == Some(JString(r.value))
  {
    match Member(v, key)
    case Some(JString(s)) => Some(s)
    case _ => None
  }
}
