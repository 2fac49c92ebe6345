/** JSON values as trees; the text codec is abstract. */
module JsonTree {
  datatype Json =
    | Null
    | Boolean(flag: bool)
    | Integer(n: int)
    | Decimal(r: real)
    | Text(text: string)
    | Array(items: seq<Json>)
    | Object(fields: map<string, Json>)
}
