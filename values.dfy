/** The Ruby values that attribute inputs and stored attribute values are
    drawn from, the hash keys an input may use, and the two wrappers used for
    optional values and for operations that raise. */
module Values {

  datatype Option<+T> = None | Some(value: T)

  /** `Err` stands for a Ruby exception raised out of the operation. */
  datatype Result<+T, +E> = Ok(value: T) | Err(error: E)

  /** A key of a Ruby hash: `'sample'` is a String key, `:sample` a Symbol key.
      Both spell an attribute by its name. */
  datatype Key = StringKey(name: string) | SymbolKey(name: string)

  /** The kinds of value the attribute machinery is exercised with:
      `nil`, an Integer, a String, a `Date` (a plain year/month/day triple) and
      a Hash. */
  datatype Value =
    | Nil
    | Int(i: int)
    | Str(s: string)
    | Date(year: int, month: int, day: int)
    | Hash(entries: map<Key, Value>)
}
