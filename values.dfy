/** JSON-like values as they travel in request bodies, with JavaScript's
    truthiness, and the `string | string[] | undefined` image input that both
    the client and the proxies accept. */
module Values {

  /** A JSON value. `Object` stands for a nested object the modelled code
      never looks inside (a request's `sequential_image_generation_options`,
      say); `id` tells different ones apart. */
  datatype Value =
    | Str(s: string)
    | Num(n: int)
    | Bool(b: bool)
    | Null
    | List(items: seq<Value>)
    | Object(id: nat)

  /** JavaScript truthiness: the empty string, 0, false and null are falsy;
      arrays and objects, even empty ones, are truthy. */
  predicate Truthy(v: Value) {
    match v
    case Str(s) => s != ""
    case Num(n) => n != 0
    case Bool(b) => b
    case Null => false
    case List(_) => true
    case Object(_) => true
  }

  /** Truthiness of an optional field: an absent field is `undefined`. */
  predicate TruthyField(body: map<string, Value>, key: string) {
    key in body && Truthy(body[key])
  }

  /** An `image` field: absent (`undefined` or `null`), one URL, or a list. */
  datatype ImageInput = NoImage | OneImage(url: string) | ImageList(urls: seq<string>)
}
