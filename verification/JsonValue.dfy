/** JSON values: what a document means once object key order is forgotten. */
module JsonValue {

  predicate NumberChar(c: char) {
    '0' <= c <= '9' || c == '-' || c == '+' || c == '.' || c == 'e'
  }

  /** A number is represented by its printed form, so number printing is injective. */
  type NumToken = t: string |
    t != "" && ('0' <= t[0] <= '9' || t[0] == '-') && forall i :: 0 <= i < |t| ==> NumberChar(t[i])
    witness "0"

  datatype Json =
    | Null
    | Bool(b: bool)
    | Num(token: NumToken)
    | Str(s: string)
    | Arr(items: seq<Json>)
    | Obj(fields: map<string, Json>)
}
