/** The example classes of the attribute tests, declared through the registry
    as their class bodies do, and the behaviour each test fixes. */
module Examples {
  import opened Values
  import opened Coercions
  import opened Declarations
  import opened Construction
  import opened Properties

  /** `class Example`: `sample`, `a_date` coerced by `input_to_date`, and
      `a_string` coerced by the upcasing proc. */
  function ExampleSchema(): Schema {
    Schema([AttrDef("sample", NoCoerce, false, Nil),
            AttrDef("a_date", ToDate, false, Nil),
            AttrDef("a_string", Upcase, false, Nil)], Raise)
  }

  method DeclareExample() returns (r: Registry)
    ensures fresh(r) && r.Valid() && r.Snapshot() == ExampleSchema()
  {
    r := new Registry();
    r.Attribute("sample");
    assert r.defs == ExampleSchema().defs[..1];
    r.Attribute("a_date", coerce := ToDate);
    assert r.defs == ExampleSchema().defs[..2];
    var last := AttrDef("a_string", Upcase, false, Nil);
    assert Declare(r.defs[1..], last) == ExampleSchema().defs[1..];
    r.Attribute("a_string", coerce := Upcase);
  }

  /** `class Example2`: an optional and a required attribute. */
  function Example2Schema(): Schema {
    Schema([AttrDef("an_optional", NoCoerce, false, Nil),
            AttrDef("a_required", NoCoerce, true, Nil)], Raise)
  }

  method DeclareExample2() returns (r: Registry)
    ensures fresh(r) && r.Valid() && r.Snapshot() == Example2Schema()
  {
    r := new Registry();
    r.Attribute("an_optional");
    r.Attribute("a_required", required := true);
  }

  /** `class Example3`: a plain attribute and one with `default: "foo"`. */
  function Example3Schema(): Schema {
    Schema([AttrDef("a_normal", NoCoerce, false, Nil),
            AttrDef("a_default", NoCoerce, false, Str("foo"))], Raise)
  }

  method DeclareExample3() returns (r: Registry)
    ensures fresh(r) && r.Valid() && r.Snapshot() == Example3Schema()
  {
    r := new Registry();
    r.Attribute("a_normal");
    r.Attribute("a_default", default := Str("foo"));
  }

  /** One attribute `a_thing` under the given policy: `DefOnly` and
      `DefOnlyExplicit` have `:raise`, `UndefOk` has `:ignore`. */
  function ThingSchema(p: Policy): Schema {
    Schema([AttrDef("a_thing", NoCoerce, false, Nil)], p)
  }

  /** `class DefOnly`: the policy is left at its default. */
  method DeclareDefOnly() returns (r: Registry)
    ensures fresh(r) && r.Valid() && r.Snapshot() == ThingSchema(Raise)
  {
    r := new Registry();
    r.Attribute("a_thing");
  }

  /** `class DefOnlyExplicit`: `undefined_attributes :raise` before the attribute. */
  method DeclareDefOnlyExplicit() returns (r: Registry)
    ensures fresh(r) && r.Valid() && r.Snapshot() == ThingSchema(Raise)
  {
    r := new Registry();
    r.UndefinedAttributes(Raise);
    r.Attribute("a_thing");
  }

  /** `class UndefOk`: `undefined_attributes :ignore`. */
  method DeclareUndefOk() returns (r: Registry)
    ensures fresh(r) && r.Valid() && r.Snapshot() == ThingSchema(Ignore)
  {
    r := new Registry();
    r.UndefinedAttributes(Ignore);
    r.Attribute("a_thing");
  }

  /** "should work with nil input": every attribute of `Example.new` is nil. */
  lemma NilInput()
    ensures Construct(ExampleSchema(), map[]).Ok?
    ensures var inst := Construct(ExampleSchema(), map[]).value;
            Get(inst, "sample") == Some(Nil) && Get(inst, "a_date") == Some(Nil) &&
            Get(inst, "a_string") == Some(Nil)
  {
    EmptyInput(ExampleSchema());
  }

  /** "should work with string attrs": `'sample' => 'foo'` sets `sample`. */
  lemma StringAttrs()
    ensures var r := Construct(ExampleSchema(), map[StringKey("sample") := Str("foo")]);
            r.Ok? && Get(r.value, "sample") == Some(Str("foo"))
  {
  }

  /** "should noop without coercion": an Integer and a String pass unchanged. */
  lemma NoopWithoutCoercion()
    ensures var r := Construct(ExampleSchema(), map[SymbolKey("sample") := Int(1)]);
            r.Ok? && Get(r.value, "sample") == Some(Int(1))
    ensures var r := Construct(ExampleSchema(), map[SymbolKey("sample") := Str("abc")]);
            r.Ok? && Get(r.value, "sample") == Some(Str("abc"))
  {
  }

  /** "should parse on coercion": the date hash becomes a Date. */
  lemma ParseOnCoercion()
    ensures var r := Construct(ExampleSchema(), map[SymbolKey("a_date") := DateHash(2015, 1, 1)]);
            r.Ok? && Get(r.value, "a_date") == Some(Date(2015, 1, 1))
  {
    DateHashToDate(2015, 1, 1);
  }

  /** "should return a hash of coerced values": `to_hash` gives the coerced
      date, and nil for the absent `a_string`, whose proc is not run. */
  lemma HashOfCoercedValues()
    ensures var r := Construct(ExampleSchema(),
                               map[SymbolKey("sample") := Str("Hello"),
                                   SymbolKey("a_date") := DateHash(2015, 1, 1)]);
            r.Ok? && ToHash(r.value) == CoercedHash()
  {
    DateHashToDate(2015, 1, 1);
  }

  /** "should call proc to coerce": `a_string: "hello"` is stored as "HELLO". */
  lemma CallProcToCoerce()
    ensures var r := Construct(ExampleSchema(), map[SymbolKey("a_string") := Str("hello")]);
            r.Ok? && Get(r.value, "a_string") == Some(Str("HELLO"))
  {
    UpcaseHello();
  }

  /** "should allow nil for optional attributes". */
  lemma OptionalMayBeNil()
    ensures var r := Construct(Example2Schema(), map[SymbolKey("a_required") := Str("foo")]);
            r.Ok? && Get(r.value, "an_optional") == Some(Nil) &&
            Get(r.value, "a_required") == Some(Str("foo"))
  {
  }

  /** "should not allow nil for required attributes": an ArgumentError about
      the missing required attribute. */
  lemma RequiredMayNotBeNil()
    ensures Construct(Example2Schema(), map[SymbolKey("an_optional") := Str("foo")]) ==
            Err(MissingRequired(["a_required"]))
    ensures IsArgumentError(Construct(Example2Schema(), map[SymbolKey("an_optional") := Str("foo")]).error)
  {
    var input := map[SymbolKey("an_optional") := Str("foo")];
    assert Missing(Example2Schema().defs[1..], input) == ["a_required"];
  }

  /** "should have a default value" and "should not have default unless set". */
  lemma DefaultValues()
    ensures var r := Construct(Example3Schema(), map[]);
            r.Ok? && Get(r.value, "a_default") == Some(Str("foo")) &&
            Get(r.value, "a_normal") == Some(Nil)
  {
    EmptyInput(Example3Schema());
  }

  /** "should raise ArgumentError when unspecified attributes are given", for
      `DefOnly` and `DefOnlyExplicit` alike. */
  lemma UnspecifiedRaises()
    ensures Construct(ThingSchema(Raise), map[SymbolKey("foo") := Int(1)]) ==
            Err(UndeclaredAttributes({"foo"}))
  {
    var input := map[SymbolKey("foo") := Int(1)];
    UndeclaredKeyRaises(ThingSchema(Raise), input, SymbolKey("foo"));
    assert Undeclared(ThingSchema(Raise).defs, input) == {"foo"};
  }

  /** "should ignore unspecified attributes when so configured": `a_thing` is
      nil and there is no reader `foo`. */
  lemma UnspecifiedIgnored()
    ensures var r := Construct(ThingSchema(Ignore), map[SymbolKey("foo") := Int(1)]);
            r.Ok? && Get(r.value, "a_thing") == Some(Nil) && Get(r.value, "foo") == None
  {
  }

  /** `Example.new` with all three attributes given. */
  lemma ExampleFullInput()
    ensures Construct(ExampleSchema(),
                      map[SymbolKey("sample") := Str("Hello"),
                          SymbolKey("a_date") := DateHash(2015, 1, 1),
                          SymbolKey("a_string") := Str("hello")]) ==
            Ok(Instance([Field("sample", Str("Hello")), Field("a_date", Date(2015, 1, 1)),
                         Field("a_string", Str("HELLO"))]))
  {
    UpcaseHello();
    DateHashToDate(2015, 1, 1);
    var defs := ExampleSchema().defs;
    var input := map[SymbolKey("sample") := Str("Hello"),
                     SymbolKey("a_date") := DateHash(2015, 1, 1),
                     SymbolKey("a_string") := Str("hello")];
    var f0, f1, f2 := Field("sample", Str("Hello")), Field("a_date", Date(2015, 1, 1)),
                      Field("a_string", Str("HELLO"));
    assert Stored(defs[0], input) == Ok(f0.value);
    assert Stored(defs[1], input) == Ok(f1.value);
    assert Stored(defs[2], input) == Ok(f2.value);
    assert defs[1..][1..] == defs[2..] && defs[2..][1..] == [];
    assert [f2] + [] == [f2] && [f1] + [f2] == [f1, f2] && [f0] + [f1, f2] == [f0, f1, f2];
    assert Resolve(defs[2..], input) == Ok([f2]);
    assert Resolve(defs[1..], input) == Ok([f1, f2]);
    assert Resolve(defs, input) == Ok([f0, f1, f2]);
  }

  /** Constructing `Example` from its own `to_hash` gives the instance back
      when every attribute was given. */
  lemma ExampleRoundTrip()
    ensures var r := Construct(ExampleSchema(),
                               map[SymbolKey("sample") := Str("Hello"),
                                   SymbolKey("a_date") := DateHash(2015, 1, 1),
                                   SymbolKey("a_string") := Str("hello")]);
            r.Ok? &&
            ToHash(r.value) == [(SymbolKey("sample"), Str("Hello")),
                                (SymbolKey("a_date"), Date(2015, 1, 1)),
                                (SymbolKey("a_string"), Str("HELLO"))] &&
            Construct(ExampleSchema(), AsInput(ToHash(r.value))) == r
  {
    var input := map[SymbolKey("sample") := Str("Hello"),
                     SymbolKey("a_date") := DateHash(2015, 1, 1),
                     SymbolKey("a_string") := Str("hello")];
    var inst := Instance([Field("sample", Str("Hello")), Field("a_date", Date(2015, 1, 1)),
                          Field("a_string", Str("HELLO"))]);
    ExampleFullInput();
    assert Construct(ExampleSchema(), input) == Ok(inst);
    ExampleFullInputSettled(inst);
    ExampleToHash(inst);
    assert UniqueNames(ExampleSchema().defs);
    RoundTrip(ExampleSchema(), input, inst);
  }

  /** The `to_hash` of the fully given instance. */
  lemma ExampleToHash(inst: Instance)
    requires inst == Instance([Field("sample", Str("Hello")), Field("a_date", Date(2015, 1, 1)),
                               Field("a_string", Str("HELLO"))])
    ensures ToHash(inst) == [(SymbolKey("sample"), Str("Hello")),
                             (SymbolKey("a_date"), Date(2015, 1, 1)),
                             (SymbolKey("a_string"), Str("HELLO"))]
  {
  }

  /** Every value stored from the full input is a fixed point of its coercion. */
  lemma ExampleFullInputSettled(inst: Instance)
    requires inst == Instance([Field("sample", Str("Hello")), Field("a_date", Date(2015, 1, 1)),
                               Field("a_string", Str("HELLO"))])
    ensures Settled(ExampleSchema().defs, inst)
  {
    UpcaseHello();
    UpcaseIdempotent("hello");
    var defs := ExampleSchema().defs;
    assert Apply(defs[0].coerce, inst.fields[0].value) == Ok(inst.fields[0].value);
    assert Apply(defs[1].coerce, inst.fields[1].value) == Ok(inst.fields[1].value);
    assert Apply(defs[2].coerce, inst.fields[2].value) == Ok(inst.fields[2].value);
    forall i | 0 <= i < |defs| ensures Apply(defs[i].coerce, inst.fields[i].value) == Ok(inst.fields[i].value) {
      if i == 0 {} else if i == 1 {} else {}
    }
  }

  /** The `to_hash` of the "hash of coerced values" test. */
  function CoercedHash(): seq<(Key, Value)> {
    [(SymbolKey("sample"), Str("Hello")), (SymbolKey("a_date"), Date(2015, 1, 1)),
     (SymbolKey("a_string"), Nil)]
  }

  /** The round trip does not hold for every instance: the `to_hash` of the
      "hash of coerced values" test carries `a_string: nil`, and passing it
      back to `new` runs the proc on nil, which raises NoMethodError. */
  lemma AbsentUpcaseBreaksRoundTrip()
    ensures Construct(ExampleSchema(), AsInput(CoercedHash())) ==
            Err(CoercionRaised("a_string", NoMethodError))
  {
    var s := ExampleSchema();
    var h := CoercedHash();
    var again := AsInput(h);
    assert h[2..] == [h[2]] && h[1..][1..] == h[2..];
    assert AsInput(h[2..]) == map[SymbolKey("a_string") := Nil];
    assert Lookup(again, "a_string") == Some(Nil);
    assert Stored(s.defs[2], again) == Err(CoercionRaised("a_string", NoMethodError));
  }
}
