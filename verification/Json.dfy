/** JSON trees as `JSON.parse` returns them and `JSON.stringify` writes them. */
module Json {
  import opened Sequences

  /** A number literal too large for a double reads as an infinity. */
  datatype Number = Finite(value: real) | Infinite

  datatype Json =
    | Null
    | Bool(flag: bool)
    | Num(number: Number)
    | Str(text: string)
    | Arr(items: seq<Json>)
    | Obj(fields: map<string, Json>)

  type Record = map<string, Json>

  function Field(record: Record, key: string): Option<Json> { if key in record then Some(record[key]) else None }

  /** `readString` and `readNullableString`, which agree: anything but a string is null. */
  function ReadString(record: Record, key: string): Option<string> {
    match Field(record, key) case Some(Str(text)) => Some(text) case _ => None
  }

  /** `readNumber` and `readNullableNumber`. */
  function ReadNumber(record: Record, key: string): Option<real> {
    match Field(record, key) case Some(Num(Finite(value))) => Some(value) case _ => None
  }

  function ReadBool(record: Record, key: string): Option<bool> {
    match Field(record, key) case Some(Bool(b)) => Some(b) case _ => None
  }

  function StringOrNull(s: Option<string>): Json { match s case None => Null case Some(text) => Str(text) }

  function NumberOrNull(n: Option<real>): Json { match n case None => Null case Some(value) => Num(Finite(value)) }

  function WriteNumber(n: real): Json { Num(Finite(n)) }

  function ToStr(s: string): Json { Str(s) }

  function WriteStrings(xs: seq<string>): Json { Arr(Map(xs, ToStr)) }

  /** `value.filter(item => typeof item === "string")`, and nothing for other values. */
  function Strings(items: seq<Json>): seq<string> {
    if items == [] then []
    else (match items[0] case Str(text) => [text] case _ => []) + Strings(items[1..])
  }

  function ReadStrings(record: Record, key: string): seq<string> {
    match Field(record, key) case Some(Arr(items)) => Strings(items) case _ => []
  }

  /** A written list of strings reads back whole. */
  lemma {:induction false} StringsReadBack(xs: seq<string>)
    ensures Strings(Map(xs, ToStr)) == xs
  {
    if xs != [] {
      StringsReadBack(xs[1..]);
      assert Map(xs, ToStr)[1..] == Map(xs[1..], ToStr);
    }
  }
}
