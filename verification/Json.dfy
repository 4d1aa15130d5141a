/** JSON values as the gateway sees them, and the printer/parser pair it relies on. */
module Json {

  datatype Option<+T> = None | Some(value: T)

  predicate HasOwnKey(name: string) {
    name in {"type", "item_id", "output_index", "content_index", "summary_index", "delta", "text", "part",
             "item", "response", "id", "role", "content", "summary", "output", "usage", "input_tokens",
             "output_tokens", "total_tokens", "cached_input_tokens", "cache_write_input_tokens",
             "input_tokens_details", "output_tokens_details", "cached_tokens", "cache_write_tokens",
             "reasoning_tokens"}
  }

  type OtherName = name: string | !HasOwnKey(name) witness "name"

  /** Object keys: the ones the code reads or writes, and all others. */
  datatype Key =
    | KType | KItemId | KOutputIndex | KContentIndex | KSummaryIndex
    | KDelta | KText | KPart | KItem | KResponse | KId | KRole
    | KContent | KSummary | KOutput | KUsage
    | KInputTokens | KOutputTokens | KTotalTokens | KCachedInputTokens | KCacheWriteInputTokens
    | KInputDetails | KOutputDetails | KCachedTokens | KCacheWriteTokens | KReasoningTokens
    | Other(name: OtherName)

  datatype Json =
    | Null
    | Bool(b: bool)
    | Num(n: int)
    | Str(s: string)
    | Arr(xs: seq<Json>)
    | Obj(m: map<Key, Json>)

  /** `dict.get(key)`: a missing key reads as null. Total: a non-object has no fields. */
  function Get(j: Json, k: Key): Json {
    GetOr(j, k, Null)
  }

  /** `dict.get(key, default)`. */
  function GetOr(j: Json, k: Key, default: Json): Json {
    if j.Obj? && k in j.m then j.m[k] else default
  }

  function Put(j: Json, k: Key, v: Json): Json
    requires j.Obj?
  {
    Obj(j.m[k := v])
  }

  /** The elements a `for x in value or []` loop visits and can change. */
  function Elements(j: Json): seq<Json> {
    if j.Arr? then j.xs else []
  }

  /** Python truthiness. */
  predicate Truthy(j: Json)
    ensures !Truthy(j) <==> j in {Null, Bool(false), Num(0), Str(""), Arr([]), Obj(map[])}
  {
    match j
    case Null => false
    case Bool(b) => b
    case Num(n) => n != 0
    case Str(s) => s != ""
    case Arr(xs) => xs != []
    case Obj(m) => m != map[]
  }

  predicate NonEmptyStr(j: Json) {
    j.Str? && j.s != ""
  }

  /** `json.loads` and `json.dumps`. */
  datatype Codec = Codec(parse: string -> Option<Json>, print_: Json -> string) {

    /** Parsing what was printed gives the object back; `json.dumps` writes an object between
        braces and escapes line breaks and carriage returns; the end-of-stream marker is not JSON. */
    ghost predicate Lawful() {
      && parse("") == None && parse("[DONE]") == None
      && forall d: Json {:trigger print_(d)} :: d.Obj? ==>
           var text := print_(d);
           && parse(text) == Some(d)
           && '\n' !in text && '\r' !in text
           && 2 <= |text| && text[0] == '{' && text[|text| - 1] == '}'
    }
  }
}
