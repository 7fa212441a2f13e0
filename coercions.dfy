/** The coercions an attribute may declare with `coerce:`. The model knows the
    two forms the example types use: a Symbol naming a private instance method
    (`coerce: :input_to_date`) and a free-standing Proc
    (`coerce: proc{|s| s.upcase }`). */
module Coercions {
  import opened Values

  /** What a coercion may raise. */
  datatype Raised =
    | TypeError      // `Date.new` given something that is not an Integer
    | NoMethodError  // `upcase` sent to a value that is not a String

  datatype Coercion =
    | NoCoerce  // no `coerce:` option: the value is stored as given
    | ToDate    // `coerce: :input_to_date`
    | Upcase    // `coerce: proc{|s| s.upcase }`

  /** `input[k]` on a Ruby hash: the value under the Symbol key, nil when absent. */
  function Fetch(entries: map<Key, Value>, k: string): Value {
    if SymbolKey(k) in entries then entries[SymbolKey(k)] else Nil
  }

  /** `Date.new(year, month, day)`: every part must be an Integer, otherwise
      Ruby raises a TypeError. Calendar validity is not modelled. */
  function NewDate(year: Value, month: Value, day: Value): Result<Value, Raised> {
    if year.Int? && month.Int? && day.Int? then Ok(Date(year.i, month.i, day.i))
    else Err(TypeError)
  }

  /** The `input_to_date` method of `Example`: nil stays nil, a Date is kept, a
      Hash is turned into `Date.new(input[:year], input[:month], input[:day])`,
      and anything else falls through the `if` without an `else` to nil. */
  function InputToDate(input: Value): (r: Result<Value, Raised>)
    ensures input.Nil? ==> r == Ok(Nil)
    ensures input.Date? ==> r == Ok(input)
    ensures input.Int? || input.Str? ==> r == Ok(Nil)
    ensures input.Hash? ==>
              (r.Ok? <==> Fetch(input.entries, "year").Int? && Fetch(input.entries, "month").Int? &&
                          Fetch(input.entries, "day").Int?)
    ensures input.Hash? && r.Ok? ==>
              r.value == Date(Fetch(input.entries, "year").i, Fetch(input.entries, "month").i,
                              Fetch(input.entries, "day").i)
    ensures input.Hash? && r.Err? ==> r.error == TypeError
    ensures r.Ok? ==> r.value.Nil? || r.value.Date?
  {
    match input
    case Nil => Ok(Nil)
    case Date(_, _, _) => Ok(input)
    case Hash(entries) =>
      NewDate(Fetch(entries, "year"), Fetch(entries, "month"), Fetch(entries, "day"))
    case _ => Ok(Nil)
  }

  /** The `{year:, month:, day:}` hash that `input_to_date` reads. */
  function DateHash(year: int, month: int, day: int): Value {
    Hash(map[SymbolKey("year") := Int(year), SymbolKey("month") := Int(month),
             SymbolKey("day") := Int(day)])
  }

  /** `String#upcase`, on the ASCII letters. */
  function UpcaseChar(c: char): (u: char)
    ensures 'a' <= c <= 'z' ==> u as int == c as int - 32
    ensures !('a' <= c <= 'z') ==> u == c
    ensures !('a' <= u <= 'z')
  {
    if 'a' <= c <= 'z' then (c as int - 32) as char else c
  }

  function UpcaseString(s: string): (r: string)
    ensures |r| == |s|
    ensures forall i :: 0 <= i < |s| ==> r[i] == UpcaseChar(s[i])
  {
    if s == [] then [] else [UpcaseChar(s[0])] + UpcaseString(s[1..])
  }

  /** The Proc `proc{|s| s.upcase }`: only a String answers `upcase`. */
  function UpcaseProc(v: Value): (r: Result<Value, Raised>)
    ensures r.Ok? <==> v.Str?
    ensures r.Ok? ==> r.value == Str(UpcaseString(v.s)) && |r.value.s| == |v.s|
    ensures r.Err? ==> r.error == NoMethodError
  {
    if v.Str? then Ok(Str(UpcaseString(v.s))) else Err(NoMethodError)
  }

  /** Runs the declared coercion on a raw input value (nil included). */
  function Apply(c: Coercion, v: Value): (r: Result<Value, Raised>)
    ensures c == NoCoerce ==> r == Ok(v)
    ensures c == ToDate ==> r == InputToDate(v)
    ensures c == Upcase ==> r == UpcaseProc(v)
  {
    match c
    case NoCoerce => Ok(v)
    case ToDate => InputToDate(v)
    case Upcase => UpcaseProc(v)
  }

  /** A coercion leaves what it produced unchanged when run again: its
      results are fixed points, so a stored value survives re-construction. */
  lemma ApplyIdempotent(c: Coercion, v: Value)
    requires Apply(c, v).Ok?
    ensures Apply(c, Apply(c, v).value) == Apply(c, v)
  {
    if c == Upcase {
      UpcaseIdempotent(v.s);
    }
  }

  lemma UpcaseIdempotent(s: string)
    ensures UpcaseString(UpcaseString(s)) == UpcaseString(s)
  {
    var u := UpcaseString(s);
    var uu := UpcaseString(u);
    assert |uu| == |u|;
    forall i | 0 <= i < |u| ensures uu[i] == u[i] {
      assert u[i] == UpcaseChar(s[i]);
    }
  }

  /** `input_to_date` turns the hash `{year: y, month: m, day: d}` into that Date. */
  lemma DateHashToDate(y: int, m: int, d: int)
    ensures InputToDate(DateHash(y, m, d)) == Ok(Date(y, m, d))
  {
  }

  /** A Hash whose parts are read under String keys yields nil parts, which
      `Date.new` refuses. */
  lemma StringKeyedHashRaises(y: int, m: int, d: int)
    ensures InputToDate(Hash(map[StringKey("year") := Int(y), StringKey("month") := Int(m),
                                 StringKey("day") := Int(d)])) == Err(TypeError)
  {
  }

  /** The test's proc coercion: `"hello".upcase == "HELLO"`. */
  lemma UpcaseHello()
    ensures UpcaseProc(Str("hello")) == Ok(Str("HELLO"))
  {
    var r := UpcaseString("hello");
    assert r == "HELLO";
  }
}
