/** Construction of an instance from an input hash (`Example.new(input)`),
    the accessors of the instance, and its `to_hash` projection. */
module Construction {
  import opened Values
  import opened Coercions
  import opened Declarations

  /** Why `new` raises. A coercion's own exception propagates unchanged; the
      other two are ArgumentErrors. */
  datatype Error =
    | CoercionRaised(attribute: string, raised: Raised)
    | MissingRequired(attributes: seq<string>)
    | UndeclaredAttributes(keys: set<string>)

  predicate IsArgumentError(e: Error) {
    e.MissingRequired? || e.UndeclaredAttributes?
  }

  /** One stored attribute: its name and its (coerced or defaulted) value. */
  datatype Field = Field(name: string, value: Value)

  /** An instance holds one field per declared attribute, in declaration order;
      it has an accessor for those names and for no other. */
  datatype Instance = Instance(fields: seq<Field>)

  /** The value the input gives for attribute `n`, whichever spelling of the
      key it uses; a Symbol key is taken when both spellings are present. */
  function Lookup(input: map<Key, Value>, n: string): Option<Value> {
    if SymbolKey(n) in input then Some(input[SymbolKey(n)])
    else if StringKey(n) in input then Some(input[StringKey(n)])
    else None
  }

  /** What construction stores for one declared attribute: the coerced input
      value when the key is present (even when its value is nil), and
      otherwise the default, which is never coerced. */
  function Stored(d: AttrDef, input: map<Key, Value>): (r: Result<Value, Error>)
    ensures Lookup(input, d.name).None? ==> r == Ok(d.default)
    ensures Lookup(input, d.name).Some? && d.coerce == NoCoerce ==>
              r == Ok(Lookup(input, d.name).value)
    ensures Lookup(input, d.name).Some? ==>
              (r.Ok? <==> Apply(d.coerce, Lookup(input, d.name).value).Ok?) &&
              (r.Ok? ==> r.value == Apply(d.coerce, Lookup(input, d.name).value).value)
    ensures r.Err? ==> r.error.CoercionRaised? && r.error.attribute == d.name
  {
    match Lookup(input, d.name)
    case None => Ok(d.default)
    case Some(raw) =>
      match Apply(d.coerce, raw)
      case Ok(v) => Ok(v)
      case Err(x) => Err(CoercionRaised(d.name, x))
  }

  /** Every declared attribute in declaration order; the first coercion that
      raises aborts construction. */
  function Resolve(defs: seq<AttrDef>, input: map<Key, Value>): (r: Result<seq<Field>, Error>)
    ensures r.Ok? ==> |r.value| == |defs|
    ensures r.Err? ==> r.error.CoercionRaised?
  {
    if defs == [] then Ok([])
    else
      match Stored(defs[0], input)
      case Err(e) => Err(e)
      case Ok(v) =>
        match Resolve(defs[1..], input)
        case Err(e) => Err(e)
        case Ok(rest) => Ok([Field(defs[0].name, v)] + rest)
  }

  /** The names of the required attributes that resolve to nil, in
      declaration order. */
  function Missing(defs: seq<AttrDef>, input: map<Key, Value>): (r: seq<string>)
    ensures |r| <= |defs|
  {
    if defs == [] then []
    else
      var rest := Missing(defs[1..], input);
      if defs[0].required && Stored(defs[0], input) == Ok(Nil) then [defs[0].name] + rest
      else rest
  }

  /** The names of the input keys that match no declared attribute. */
  function Undeclared(defs: seq<AttrDef>, input: map<Key, Value>): (r: set<string>)
    ensures forall n :: n in r ==> n !in Names(defs) && (StringKey(n) in input || SymbolKey(n) in input)
  {
    set k | k in input && k.name !in Names(defs) :: k.name
  }

  /** `new(input)`: resolve every declared attribute, then reject a nil
      required attribute, then, under `:raise`, reject undeclared keys; under
      `:ignore` they are dropped. */
  function Construct(s: Schema, input: map<Key, Value>): (r: Result<Instance, Error>)
    ensures r.Ok? ==> Resolve(s.defs, input) == Ok(r.value.fields)
    ensures r.Ok? ==> Missing(s.defs, input) == []
    ensures r.Ok? && s.policy == Raise ==> Undeclared(s.defs, input) == {}
    ensures Resolve(s.defs, input).Err? ==> r == Err(Resolve(s.defs, input).error)
  {
    match Resolve(s.defs, input)
    case Err(e) => Err(e)
    case Ok(fields) =>
      var missing := Missing(s.defs, input);
      var extra := Undeclared(s.defs, input);
      if missing != [] then Err(MissingRequired(missing))
      else if s.policy == Raise && extra != {} then Err(UndeclaredAttributes(extra))
      else Ok(Instance(fields))
  }

  /** The first field called `n`. */
  function FieldValue(fields: seq<Field>, n: string): (r: Option<Value>)
    ensures r.None? <==> forall i :: 0 <= i < |fields| ==> fields[i].name != n
    ensures r.Some? ==> exists i :: 0 <= i < |fields| && fields[i] == Field(n, r.value)
  {
    if fields == [] then None
    else if fields[0].name == n then Some(fields[0].value)
    else FieldValue(fields[1..], n)
  }

  /** The reader `inst.n`; `None` is the NoMethodError of a name with no accessor. */
  function Get(inst: Instance, n: string): (r: Option<Value>)
    ensures r.None? <==> forall f :: f in inst.fields ==> f.name != n
    ensures r.Some? ==> Field(n, r.value) in inst.fields
  {
    FieldValue(inst.fields, n)
  }

  /** `to_hash`: Symbol keys, one per field, in declaration order. It only
      reads the instance. */
  function ToHash(inst: Instance): (h: seq<(Key, Value)>)
    ensures |h| == |inst.fields|
    ensures forall i :: 0 <= i < |h| ==> h[i].0 == SymbolKey(inst.fields[i].name)
    ensures forall i :: 0 <= i < |h| ==> h[i].1 == inst.fields[i].value
    decreases |inst.fields|
  {
    if inst.fields == [] then []
    else [(SymbolKey(inst.fields[0].name), inst.fields[0].value)] + ToHash(Instance(inst.fields[1..]))
  }

  /** A Ruby Hash built from ordered pairs, as passed back to `new`; a later
      pair wins over an earlier one with the same key (`Properties.AsInputLast`). */
  function AsInput(h: seq<(Key, Value)>): (m: map<Key, Value>)
    ensures m.Keys == set i | 0 <= i < |h| :: h[i].0
  {
    if h == [] then map[] else map[h[0].0 := h[0].1] + AsInput(h[1..])
  }
}
