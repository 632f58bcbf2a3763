/** What is passed to methods and returned by them. */
module Data {
  datatype Datum = Atom(id: int) | Tup(vals: seq<Datum>) | RefTo(val: Datum)
}
