/** What construction and `to_hash` promise for every type and every input. */
module Properties {
  import opened Values
  import opened Coercions
  import opened Declarations
  import opened Construction

  /** Resolution succeeds exactly when no attribute's coercion raises, and
      then stores one field per declared attribute, in declaration order. */
  lemma {:induction false} ResolveOk(defs: seq<AttrDef>, input: map<Key, Value>)
    ensures Resolve(defs, input).Ok? <==> forall i :: 0 <= i < |defs| ==> Stored(defs[i], input).Ok?
    ensures Resolve(defs, input).Ok? ==>
              && |Resolve(defs, input).value| == |defs|
              && forall i :: 0 <= i < |defs| ==>
                   Resolve(defs, input).value[i] == Field(defs[i].name, Stored(defs[i], input).value)
  {
    if defs != [] {
      ResolveOk(defs[1..], input);
      if Stored(defs[0], input).Ok? && Resolve(defs[1..], input).Ok? {
        var r := Resolve(defs, input).value;
        forall i | 0 <= i < |defs| ensures r[i] == Field(defs[i].name, Stored(defs[i], input).value) {
          if i > 0 { assert defs[1..][i - 1] == defs[i]; }
        }
      }
      if !Stored(defs[0], input).Ok? {
        assert !(forall i :: 0 <= i < |defs| ==> Stored(defs[i], input).Ok?);
      }
      if Stored(defs[0], input).Ok? && (forall i :: 0 <= i < |defs| ==> Stored(defs[i], input).Ok?) {
        forall i | 0 <= i < |defs[1..]| ensures Stored(defs[1..][i], input).Ok? {
          assert defs[1..][i] == defs[i + 1];
        }
      }
    }
  }

  /** When resolution fails, it reports the first attribute, in declaration
      order, whose coercion raised. */
  lemma {:induction false} ResolveErr(defs: seq<AttrDef>, input: map<Key, Value>)
    requires Resolve(defs, input).Err?
    ensures exists i :: 0 <= i < |defs| && Stored(defs[i], input) == Err(Resolve(defs, input).error) &&
                        forall j :: 0 <= j < i ==> Stored(defs[j], input).Ok?
  {
    if Stored(defs[0], input).Ok? {
      ResolveErr(defs[1..], input);
      var i :| 0 <= i < |defs[1..]| && Stored(defs[1..][i], input) == Err(Resolve(defs, input).error) &&
                forall j :: 0 <= j < i ==> Stored(defs[1..][j], input).Ok?;
      assert defs[1..][i] == defs[i + 1];
      forall j | 0 <= j < i + 1 ensures Stored(defs[j], input).Ok? {
        if j > 0 { assert defs[1..][j - 1] == defs[j]; }
      }
    }
  }

  /** The missing list names exactly the required attributes that resolve to nil. */
  lemma {:induction false} MissingNames(defs: seq<AttrDef>, input: map<Key, Value>)
    ensures forall n :: n in Missing(defs, input) <==>
              exists i :: 0 <= i < |defs| && defs[i].name == n && defs[i].required &&
                          Stored(defs[i], input) == Ok(Nil)
  {
    if defs != [] {
      MissingNames(defs[1..], input);
      forall n ensures n in Missing(defs, input) <==>
              exists i :: 0 <= i < |defs| && defs[i].name == n && defs[i].required &&
                          Stored(defs[i], input) == Ok(Nil)
      {
        if n in Missing(defs[1..], input) {
          var i :| 0 <= i < |defs[1..]| && defs[1..][i].name == n && defs[1..][i].required &&
                   Stored(defs[1..][i], input) == Ok(Nil);
          assert defs[1..][i] == defs[i + 1];
        }
        if exists i :: 0 <= i < |defs| && defs[i].name == n && defs[i].required &&
                       Stored(defs[i], input) == Ok(Nil) {
          var i :| 0 <= i < |defs| && defs[i].name == n && defs[i].required &&
                   Stored(defs[i], input) == Ok(Nil);
          if i > 0 { assert defs[1..][i - 1] == defs[i]; }
        }
      }
    }
  }

  /** Field names of a constructed instance that are distinct find their own field. */
  lemma {:induction false} FieldValueAt(fields: seq<Field>, i: int)
    requires 0 <= i < |fields|
    requires forall a, b :: 0 <= a < b < |fields| ==> fields[a].name != fields[b].name
    ensures FieldValue(fields, fields[i].name) == Some(fields[i].value)
  {
    if i > 0 {
      assert fields[0].name != fields[i].name;
      var tail := fields[1..];
      assert tail[i - 1] == fields[i];
      FieldValueAt(tail, i - 1);
    }
  }

  /** A successful construction stores, under every declared name, what
      `Stored` resolves for it, and has a reader for the declared names only. */
  lemma ConstructedFields(s: Schema, input: map<Key, Value>, inst: Instance)
    requires UniqueNames(s.defs)
    requires Construct(s, input) == Ok(inst)
    ensures |inst.fields| == |s.defs|
    ensures forall i :: 0 <= i < |s.defs| ==>
              Stored(s.defs[i], input).Ok? &&
              Get(inst, s.defs[i].name) == Some(Stored(s.defs[i], input).value)
    ensures forall n :: Get(inst, n).Some? <==> n in Names(s.defs)
  {
    var fields := inst.fields;
    assert Resolve(s.defs, input) == Ok(fields);
    ResolveOk(s.defs, input);
    forall i | 0 <= i < |s.defs|
      ensures Stored(s.defs[i], input).Ok? &&
              Get(inst, s.defs[i].name) == Some(Stored(s.defs[i], input).value)
    {
      assert fields[i].name == s.defs[i].name;
      FieldValueAt(fields, i);
    }
    forall n ensures Get(inst, n).Some? <==> n in Names(s.defs) {
      if n in Names(s.defs) {
        var i :| 0 <= i < |s.defs| && Names(s.defs)[i] == n;
        assert fields[i].name == n;
      }
    }
  }

  /** The value an accessor returns: for a key that is absent, the declared
      default (not coerced); for a key that is present, even with nil, the
      declared coercion of the given value, which is the value itself when no
      coercion is declared; a required attribute is never nil. */
  lemma ConstructedValue(s: Schema, input: map<Key, Value>, inst: Instance, d: AttrDef)
    requires UniqueNames(s.defs) && d in s.defs
    requires Construct(s, input) == Ok(inst)
    ensures Lookup(input, d.name).None? ==> Get(inst, d.name) == Some(d.default)
    ensures Lookup(input, d.name).Some? ==>
              Apply(d.coerce, Lookup(input, d.name).value).Ok? &&
              Get(inst, d.name) == Some(Apply(d.coerce, Lookup(input, d.name).value).value)
    ensures Lookup(input, d.name).Some? && d.coerce == NoCoerce ==>
              Get(inst, d.name) == Lookup(input, d.name)
    ensures d.required ==> Get(inst, d.name).Some? && Get(inst, d.name).value != Nil
  {
    ConstructedFields(s, input, inst);
    MissingNames(s.defs, input);
    var i :| 0 <= i < |s.defs| && s.defs[i] == d;
    assert Stored(d, input).Ok?;
    if d.required {
      assert d.name !in Missing(s.defs, input);
    }
  }

  /** `new` succeeds exactly when no coercion raises, no required attribute
      resolves to nil, and, under `:raise`, every key names a declared
      attribute. */
  lemma ConstructSucceeds(s: Schema, input: map<Key, Value>)
    ensures Construct(s, input).Ok? <==>
      && (forall i :: 0 <= i < |s.defs| ==> Stored(s.defs[i], input).Ok?)
      && (forall i :: 0 <= i < |s.defs| && s.defs[i].required ==> Stored(s.defs[i], input) != Ok(Nil))
      && (s.policy == Raise ==> forall k :: k in input ==> k.name in Names(s.defs))
  {
    ResolveOk(s.defs, input);
    MissingNames(s.defs, input);
    var ms := Missing(s.defs, input);
    if ms != [] {
      assert ms[0] in ms;
    }
    forall i | 0 <= i < |s.defs| && s.defs[i].required && Stored(s.defs[i], input) == Ok(Nil)
      ensures s.defs[i].name in ms
    {
    }
    if s.policy == Raise {
      if Undeclared(s.defs, input) == {} {
        forall k | k in input ensures k.name in Names(s.defs) {
          assert k.name !in Names(s.defs) ==> k.name in Undeclared(s.defs, input);
        }
      } else {
        var n :| n in Undeclared(s.defs, input);
        var k :| k in input && k.name !in Names(s.defs) && k.name == n;
      }
    }
  }

  /** A required attribute that resolves to nil makes `new` raise; when no
      coercion raised first, it is the ArgumentError naming that attribute. */
  lemma RequiredNilRaises(s: Schema, input: map<Key, Value>, d: AttrDef)
    requires d in s.defs && d.required && Stored(d, input) == Ok(Nil)
    ensures Construct(s, input).Err?
    ensures Resolve(s.defs, input).Ok? ==>
              Construct(s, input).error.MissingRequired? &&
              d.name in Construct(s, input).error.attributes
  {
    ResolveOk(s.defs, input);
    MissingNames(s.defs, input);
    var i :| 0 <= i < |s.defs| && s.defs[i] == d;
    assert d.name in Missing(s.defs, input);
  }

  /** Every input key that names no declared attribute is reported, so none is
      reported exactly when every key is declared. */
  lemma UndeclaredComplete(defs: seq<AttrDef>, input: map<Key, Value>)
    ensures forall k :: k in input && k.name !in Names(defs) ==> k.name in Undeclared(defs, input)
    ensures Undeclared(defs, input) == {} <==> forall k :: k in input ==> k.name in Names(defs)
  {
    forall k | k in input && k.name !in Names(defs) ensures k.name in Undeclared(defs, input) {
    }
  }

  /** Under `:raise`, an input key that names no declared attribute makes `new`
      raise; when nothing else failed first, it is the ArgumentError that
      lists that key. */
  lemma UndeclaredKeyRaises(s: Schema, input: map<Key, Value>, k: Key)
    requires s.policy == Raise && k in input && k.name !in Names(s.defs)
    ensures Construct(s, input).Err?
    ensures Resolve(s.defs, input).Ok? && Missing(s.defs, input) == [] ==>
              Construct(s, input) == Err(UndeclaredAttributes(Undeclared(s.defs, input))) &&
              k.name in Undeclared(s.defs, input)
  {
    assert k.name in Undeclared(s.defs, input);
  }

  /** Two inputs that resolve every declared attribute alike construct alike,
      up to the undeclared keys. */
  lemma {:induction false} ResolveAlike(defs: seq<AttrDef>, a: map<Key, Value>, b: map<Key, Value>)
    requires forall i :: 0 <= i < |defs| ==> Stored(defs[i], a) == Stored(defs[i], b)
    ensures Resolve(defs, a) == Resolve(defs, b)
    ensures Missing(defs, a) == Missing(defs, b)
  {
    if defs != [] {
      ResolveAlike(defs[1..], a, b);
    }
  }

  /** The input restricted to the keys that name a declared attribute. */
  function DeclaredOnly(defs: seq<AttrDef>, input: map<Key, Value>): map<Key, Value> {
    map k | k in input && k.name in Names(defs) :: input[k]
  }

  /** Under `:ignore`, undeclared keys are dropped: the result is what the
      declared keys alone give, under either policy. */
  lemma IgnoreDropsUndeclared(defs: seq<AttrDef>, input: map<Key, Value>)
    ensures Construct(Schema(defs, Ignore), input) == Construct(Schema(defs, Ignore), DeclaredOnly(defs, input))
    ensures Construct(Schema(defs, Ignore), input) == Construct(Schema(defs, Raise), DeclaredOnly(defs, input))
  {
    var clean := DeclaredOnly(defs, input);
    forall i | 0 <= i < |defs| ensures Stored(defs[i], input) == Stored(defs[i], clean) {
      assert defs[i].name in Names(defs);
      assert Lookup(input, defs[i].name) == Lookup(clean, defs[i].name);
    }
    ResolveAlike(defs, input, clean);
    assert Undeclared(defs, clean) == {};
  }

  /** Only the attribute names an input spells matter, not whether it spells
      them with String or Symbol keys. */
  lemma SpellingIrrelevant(s: Schema, a: map<Key, Value>, b: map<Key, Value>)
    requires forall n :: Lookup(a, n) == Lookup(b, n)
    ensures Construct(s, a) == Construct(s, b)
  {
    forall i | 0 <= i < |s.defs| ensures Stored(s.defs[i], a) == Stored(s.defs[i], b) {
      assert Lookup(a, s.defs[i].name) == Lookup(b, s.defs[i].name);
    }
    ResolveAlike(s.defs, a, b);
    UndeclaredAlike(s.defs, a, b);
    UndeclaredAlike(s.defs, b, a);
    assert Undeclared(s.defs, a) == Undeclared(s.defs, b);
  }

  lemma UndeclaredAlike(defs: seq<AttrDef>, a: map<Key, Value>, b: map<Key, Value>)
    requires forall n :: Lookup(a, n) == Lookup(b, n)
    ensures Undeclared(defs, a) <= Undeclared(defs, b)
  {
    forall n | n in Undeclared(defs, a) ensures n in Undeclared(defs, b) {
      var k :| k in a && k.name !in Names(defs) && k.name == n;
      assert Lookup(a, n).Some?;
      if StringKey(n) in b {
        assert StringKey(n).name == n;
      } else {
        assert SymbolKey(n) in b && SymbolKey(n).name == n;
      }
    }
  }

  /** `'sample' => v` and `sample: v` construct the same instance. */
  lemma StringKeyEqualsSymbolKey(s: Schema, n: string, v: Value)
    ensures Construct(s, map[StringKey(n) := v]) == Construct(s, map[SymbolKey(n) := v])
  {
    SpellingIrrelevant(s, map[StringKey(n) := v], map[SymbolKey(n) := v]);
  }

  /** The instance `new` builds from an empty input: every attribute at its default. */
  function Defaults(defs: seq<AttrDef>): seq<Field> {
    seq(|defs|, i requires 0 <= i < |defs| => Field(defs[i].name, defs[i].default))
  }

  /** `new` with no input succeeds exactly when no required attribute has a
      nil default, and then stores the defaults (nil where none is declared). */
  lemma EmptyInput(s: Schema)
    ensures Construct(s, map[]).Ok? <==>
              forall i :: 0 <= i < |s.defs| && s.defs[i].required ==> s.defs[i].default != Nil
    ensures Construct(s, map[]).Ok? ==> Construct(s, map[]).value == Instance(Defaults(s.defs))
  {
    ConstructSucceeds(s, map[]);
    ResolveOk(s.defs, map[]);
    var r := Resolve(s.defs, map[]);
    assert r.Ok?;
    assert r.value == Defaults(s.defs);
  }

  /** `to_hash` of a constructed instance maps exactly the declared names, in
      declaration order, to their stored values. */
  lemma ToHashOfConstructed(s: Schema, input: map<Key, Value>, inst: Instance)
    requires Construct(s, input) == Ok(inst)
    ensures |ToHash(inst)| == |s.defs|
    ensures forall i :: 0 <= i < |s.defs| ==>
              Stored(s.defs[i], input).Ok? &&
              ToHash(inst)[i] == (SymbolKey(s.defs[i].name), Stored(s.defs[i], input).value)
  {
    assert Resolve(s.defs, input) == Ok(inst.fields);
    ResolveOk(s.defs, input);
  }

  /** In the map built from pairs, a key takes the value of its last pair. */
  lemma {:induction false} AsInputLast(h: seq<(Key, Value)>, i: int)
    requires 0 <= i < |h|
    requires forall j :: i < j < |h| ==> h[j].0 != h[i].0
    ensures h[i].0 in AsInput(h) && AsInput(h)[h[i].0] == h[i].1
  {
    var tail := h[1..];
    if i == 0 {
      forall j | 0 <= j < |tail| ensures tail[j].0 != h[0].0 {
        assert tail[j] == h[j + 1];
      }
    } else {
      assert tail[i - 1] == h[i];
      forall j | i - 1 < j < |tail| ensures tail[j].0 != tail[i - 1].0 {
        assert tail[j] == h[j + 1];
      }
      AsInputLast(tail, i - 1);
    }
  }

  /** With distinct keys, every pair of the hash is found in the map built from it. */
  lemma AsInputAt(h: seq<(Key, Value)>, i: int)
    requires 0 <= i < |h|
    requires forall a, b :: 0 <= a < b < |h| ==> h[a].0 != h[b].0
    ensures h[i].0 in AsInput(h) && AsInput(h)[h[i].0] == h[i].1
  {
    AsInputLast(h, i);
  }

  /** Every stored value is left as it is by its attribute's coercion. */
  predicate Settled(defs: seq<AttrDef>, inst: Instance) {
    |inst.fields| == |defs| &&
    forall i :: 0 <= i < |defs| ==> Apply(defs[i].coerce, inst.fields[i].value) == Ok(inst.fields[i].value)
  }

  /** The keys of `to_hash` of a built instance are distinct and name the
      declared attributes in order. */
  lemma ToHashKeys(s: Schema, input: map<Key, Value>, inst: Instance)
    requires UniqueNames(s.defs)
    requires Construct(s, input) == Ok(inst)
    ensures |ToHash(inst)| == |s.defs|
    ensures forall i :: 0 <= i < |s.defs| ==> ToHash(inst)[i].0 == SymbolKey(s.defs[i].name)
    ensures forall a, b :: 0 <= a < b < |ToHash(inst)| ==> ToHash(inst)[a].0 != ToHash(inst)[b].0
  {
    assert Resolve(s.defs, input) == Ok(inst.fields);
    ResolveOk(s.defs, input);
  }

  /** Passing `to_hash` back to `new` gives every declared attribute its
      stored value again. */
  lemma RoundTripStored(s: Schema, input: map<Key, Value>, inst: Instance)
    requires UniqueNames(s.defs)
    requires Construct(s, input) == Ok(inst)
    requires Settled(s.defs, inst)
    ensures forall i :: 0 <= i < |s.defs| ==>
              Stored(s.defs[i], AsInput(ToHash(inst))) == Ok(inst.fields[i].value)
  {
    var h := ToHash(inst);
    ToHashKeys(s, input, inst);
    forall i | 0 <= i < |s.defs| ensures Stored(s.defs[i], AsInput(h)) == Ok(inst.fields[i].value) {
      AsInputAt(h, i);
      assert Lookup(AsInput(h), s.defs[i].name) == Some(inst.fields[i].value);
    }
  }

  /** Resolving `to_hash` again stores the same fields. */
  lemma RoundTripResolves(s: Schema, input: map<Key, Value>, inst: Instance)
    requires UniqueNames(s.defs)
    requires Construct(s, input) == Ok(inst)
    requires Settled(s.defs, inst)
    ensures Resolve(s.defs, AsInput(ToHash(inst))) == Ok(inst.fields)
  {
    var again := AsInput(ToHash(inst));
    assert Resolve(s.defs, input) == Ok(inst.fields);
    ResolveOk(s.defs, input);
    RoundTripStored(s, input, inst);
    ResolveOk(s.defs, again);
    var r := Resolve(s.defs, again).value;
    assert |r| == |inst.fields|;
    forall i | 0 <= i < |r| ensures r[i] == inst.fields[i] {
      assert r[i] == Field(s.defs[i].name, inst.fields[i].value);
    }
    assert r == inst.fields;
  }

  /** Nothing is missing when no required attribute resolves to nil. */
  lemma {:induction false} MissingEmpty(defs: seq<AttrDef>, input: map<Key, Value>)
    requires forall i :: 0 <= i < |defs| && defs[i].required ==> Stored(defs[i], input) != Ok(Nil)
    ensures Missing(defs, input) == []
  {
    if defs != [] {
      forall i | 0 <= i < |defs[1..]| && defs[1..][i].required
        ensures Stored(defs[1..][i], input) != Ok(Nil)
      {
        assert defs[1..][i] == defs[i + 1];
      }
      MissingEmpty(defs[1..], input);
    }
  }

  /** No required attribute is nil after resolving `to_hash` again. */
  lemma RoundTripNothingMissing(s: Schema, input: map<Key, Value>, inst: Instance)
    requires UniqueNames(s.defs)
    requires Construct(s, input) == Ok(inst)
    requires Settled(s.defs, inst)
    ensures Missing(s.defs, AsInput(ToHash(inst))) == []
  {
    var again := AsInput(ToHash(inst));
    assert Resolve(s.defs, input) == Ok(inst.fields);
    assert Missing(s.defs, input) == [];
    ResolveOk(s.defs, input);
    RoundTripStored(s, input, inst);
    MissingNames(s.defs, input);
    forall i | 0 <= i < |s.defs| && s.defs[i].required
      ensures Stored(s.defs[i], again) != Ok(Nil)
    {
      assert Stored(s.defs[i], again) == Ok(inst.fields[i].value);
      assert Stored(s.defs[i], input) == Ok(inst.fields[i].value);
      assert s.defs[i].name !in Missing(s.defs, input);
    }
    MissingEmpty(s.defs, again);
  }

  /** `to_hash` only carries declared names. */
  lemma RoundTripNothingUndeclared(s: Schema, input: map<Key, Value>, inst: Instance)
    requires UniqueNames(s.defs)
    requires Construct(s, input) == Ok(inst)
    ensures Undeclared(s.defs, AsInput(ToHash(inst))) == {}
  {
    var h := ToHash(inst);
    ToHashKeys(s, input, inst);
    forall k | k in AsInput(h) ensures k.name in Names(s.defs) {
      var i :| 0 <= i < |h| && h[i].0 == k;
      assert Names(s.defs)[i] == k.name;
    }
  }

  /** Constructing again from `to_hash` gives the same instance, when every
      stored value is a fixed point of its coercion. */
  lemma RoundTrip(s: Schema, input: map<Key, Value>, inst: Instance)
    requires UniqueNames(s.defs)
    requires Construct(s, input) == Ok(inst)
    requires Settled(s.defs, inst)
    ensures Construct(s, AsInput(ToHash(inst))) == Ok(inst)
  {
    RoundTripResolves(s, input, inst);
    RoundTripNothingMissing(s, input, inst);
    RoundTripNothingUndeclared(s, input, inst);
  }

  /** A stored value is settled whenever it came from a coercion, and
      constructing from an input that gives every attribute is then undone by
      `to_hash`. */
  lemma FullInputSettled(s: Schema, input: map<Key, Value>, inst: Instance)
    requires Construct(s, input) == Ok(inst)
    requires forall i :: 0 <= i < |s.defs| ==> Lookup(input, s.defs[i].name).Some?
    ensures Settled(s.defs, inst)
  {
    assert Resolve(s.defs, input) == Ok(inst.fields);
    ResolveOk(s.defs, input);
    forall i | 0 <= i < |s.defs|
      ensures Apply(s.defs[i].coerce, inst.fields[i].value) == Ok(inst.fields[i].value)
    {
      var raw := Lookup(input, s.defs[i].name).value;
      assert Apply(s.defs[i].coerce, raw).Ok?;
      ApplyIdempotent(s.defs[i].coerce, raw);
    }
  }
}
