/**
 * The values the table works on: a loosely typed PHP scalar, a data row (a column-keyed array whose
 * cells may hold `null`), a header entry, and the markup library functions (`strip_tags`,
 * `html_entity_decode`, `htmlspecialchars`) that the model does not interpret.
 */
module Values {
  import opened Wrappers
  import opened Text

  /** A PHP scalar as it reaches a setter: the setters check its type with `is_int` or cast it with `(int)`. */
  datatype Scalar = Int(i: int) | Str(s: string) | Bool(b: bool) | Null

  /** One data row: column key to cell text; `None` is a cell holding `null`. */
  type Row = map<string, Option<string>>

  /** One column of the header array, in display order: its key and its caption (the header text). */
  datatype Header = Header(key: string, caption: string)

  /** The markup library, left uninterpreted. */
  datatype Markup = Markup(
    stripTags: string -> string,
    decodeEntities: string -> string,
    escape: string -> string)

  /** PHP's `isset($row[$key])`: the key is present and its cell is not `null`. */
  predicate IsSet(row: Row, key: string) {
    key in row && row[key].Some?
  }

  /** The keys of a header array, in order. */
  function Keys(headers: seq<Header>): (ks: seq<string>)
    ensures |ks| == |headers|
    ensures forall j :: 0 <= j < |headers| ==> ks[j] == headers[j].key
  {
    if headers == [] then [] else [headers[0].key] + Keys(headers[1..])
  }

  /** PHP's `(int)` cast of a scalar. */
  function IntCast(v: Scalar): (n: int)
    ensures v.Int? ==> n == v.i
    ensures v.Null? || v == Bool(false) ==> n == 0
  {
    match v
    case Int(i) => i
    case Str(s) => IntOfString(s)
    case Bool(b) => if b then 1 else 0
    case Null => 0
  }
}
