# NForm::Attributes — a Dafny model

`NForm::Attributes` lets a Ruby class declare named attributes. Each one can
have a coercion, a `required` flag and a default. The class also gets a
policy for input keys that match no attribute. Instances are built from an
unordered input hash and project back into a hash with `to_hash`. The
behaviour modelled is the one that `test/nform/attributes_test.rb` fixes.
The implementation file `lib/nform/attributes.rb` is
not part of this model.

The model has six modules:

- `Values`: the Ruby values the tests use (nil, Integer, String, a Date
  triple, Hash). It also has hash keys, where a String key `'sample'` and a
  Symbol key `:sample` both spell a name, plus `Option` and `Result`.
- `Coercions`: the two coercions the example types declare. One is
  `coerce: :input_to_date`, a private instance method. The other is
  `coerce: proc{|s| s.upcase }`. Each returns a `Result`, because Ruby can
  raise while coercing.
- `Declarations`: the per-class registry, a `class Registry` with an ordered
  `seq` of definitions and a policy field. `Attribute` (`attribute ...`)
  declares a definition. `UndefinedAttributes` (`undefined_attributes ...`)
  overwrites the policy. The invariant `Valid()` says names are unique.
- `Construction`: `Construct` is `new(input)`. For each declared attribute,
  in declaration order, it stores the coerced input value if the key is
  present (even when the value is nil), otherwise the default, uncoerced. It
  then rejects a nil required attribute. Under `:raise` it also rejects
  undeclared keys; under `:ignore` it drops them. `Get` is the generated
  reader, and `None` means there is no reader. `ToHash` is `to_hash`.
- `Properties` holds the lemmas that hold for every type and input.
  `Examples` declares the test classes `Example`, `Example2`, `Example3`,
  `DefOnly`, `DefOnlyExplicit` and `UndefOk` through the registry methods,
  with one lemma per test, except that `DefaultValues` covers both tests of
  default values and `UnspecifiedRaises` both tests of the `:raise` policy.

Choices where the tests are silent:

- A key given in both spellings resolves to the Symbol one.
- Errors are reported in this order:
  1. the first coercion that raises, in declaration order;
  2. then missing required attributes, all of them, in declaration order;
  3. then undeclared keys.
- Declaring a name again replaces its definition in place, so the name keeps
  its first position. This is how a registry keyed by name behaves.

One might expect `to_hash` fed back to `new` to rebuild the same instance
whenever coercions are idempotent. `Properties.RoundTrip` proves this only when
every stored value is a fixed point of its coercion. It does not hold for
the instance of the "hash of coerced values" test
(`Examples.AbsentUpcaseBreaksRoundTrip`): that instance stores `a_string: nil`,
and the upcasing proc raises on nil.

## Model

| member | source | states |
|---|---|---|
| `Coercions.InputToDate` | test/nform/attributes_test.rb:12-20 | nil gives nil, a Date gives itself, an Integer or String gives nil; a Hash succeeds exactly when its `:year`, `:month` and `:day` entries are Integers, and then gives the Date of those three Integers, otherwise TypeError; a success is always nil or a Date |
| `Coercions.UpcaseString` | test/nform/attributes_test.rb:9 | the upcased string has the same length, and each character is the upcase of the character at the same position |
| `Coercions.UpcaseChar` | test/nform/attributes_test.rb:9 | lower-case ASCII letters move to upper case, every other character is unchanged, and no result is a lower-case letter |
| `Coercions.UpcaseProc` | test/nform/attributes_test.rb:9 | the proc succeeds exactly on Strings, giving the upcased String of the same length; any other value raises NoMethodError |
| `Coercions.Apply` | test/nform/attributes_test.rb:7-9 | an attribute without `coerce:` stores the value it was given; `coerce: :input_to_date` is `InputToDate` and the upcasing proc is `UpcaseProc` |
| `Coercions.ApplyIdempotent` | test/nform/attributes_test.rb:8-20 | running a coercion again on its own result gives that result back |
| `Coercions.UpcaseIdempotent` | test/nform/attributes_test.rb:9 | upcasing twice equals upcasing once |
| `Coercions.DateHashToDate` | test/nform/attributes_test.rb:41-44 | `input_to_date({year: y, month: m, day: d})` is `Date(y, m, d)` |
| `Coercions.StringKeyedHashRaises` | test/nform/attributes_test.rb:17-18 | a hash whose parts use String keys yields nil parts, so `Date.new` raises |
| `Coercions.UpcaseHello` | test/nform/attributes_test.rb:52-55 | the proc turns "hello" into "HELLO" |
| `Declarations.Declare` | test/nform/attributes_test.rb:7-9 | the new definition is among the result, which grows by at most one; with `DeclareNames`, `DeclareFind` and `DeclareUnique` it appends a new name, replaces a known one in place and keeps names distinct |
| `Declarations.Names` | test/nform/attributes_test.rb:7-9 | the declared names, one per definition, in declaration order |
| `Declarations.Find` | test/nform/attributes_test.rb:7-9 | a name resolves to a definition exactly when it is declared, and to a definition carrying that name |
| `Declarations.DeclareNames` | test/nform/attributes_test.rb:7-9 | `attribute` appends a new name at the end and keeps a known name in its place |
| `Declarations.DeclareFind` | test/nform/attributes_test.rb:7-9 | after `attribute`, the name resolves to the new definition and every other name resolves as before |
| `Declarations.DeclareUnique` | test/nform/attributes_test.rb:7-9 | declaring keeps the declared names distinct |
| `Declarations.Registry.constructor` | test/nform/attributes_test.rb:6 | `extend NForm::Attributes` starts with no attributes and the `:raise` policy |
| `Declarations.Registry.Attribute` | test/nform/attributes_test.rb:7-9 | the definitions become `Declare(old definitions, new one)`, with options defaulting to no coercion, not required, nil default; the policy is unchanged; names stay unique |
| `Declarations.Registry.UndefinedAttributes` | test/nform/attributes_test.rb:102-111 | the policy is overwritten and the definitions are unchanged |
| `Construction.Stored` | test/nform/attributes_test.rb:22-55 | an absent attribute stores its default, uncoerced; a present one (String or Symbol key) stores exactly what its coercion gives, and fails exactly when that coercion raises, the failure naming that attribute |
| `Construction.Resolve` | test/nform/attributes_test.rb:22-55 | a success has one field per declared attribute and a failure is a coercion that raised; `Properties.ResolveOk` and `Properties.ResolveErr` state the fields and the first raising attribute |
| `Construction.Missing` | test/nform/attributes_test.rb:71-76 | at most one name per declared attribute; `Properties.MissingNames` states that it names exactly the required attributes stored as nil |
| `Construction.Undeclared` | test/nform/attributes_test.rb:113-119 | every reported name is undeclared and spelled by an input key; `Properties.UndeclaredComplete` states that every undeclared key is reported, and `Properties.UndeclaredKeyRaises` that `new` then raises |
| `Construction.Construct` | test/nform/attributes_test.rb:22-127 | a built instance holds the resolved fields, nothing is missing and, under `:raise`, nothing is undeclared; a raising coercion is the error; `Properties.ConstructSucceeds`, `Properties.ConstructedFields` and `Properties.ConstructedValue` state when `new` succeeds and what it stores |
| `Construction.FieldValue` | test/nform/attributes_test.rb:124-126 | a field name has a reader exactly when some field carries it, and the reader returns that field's value |
| `Construction.Get` | test/nform/attributes_test.rb:124-126 | an instance has a reader for `n` exactly when some field is called `n`, and the reader gives that field's value |
| `Construction.ToHash` | test/nform/attributes_test.rb:46-50 | `to_hash` has one pair per stored field, in order, with the field name as a Symbol key and the stored value |
| `Construction.AsInput` | test/nform/attributes_test.rb:46-50 | the hash built from pairs has exactly the pairs' keys |
| `Properties.ResolveOk` | test/nform/attributes_test.rb:22-55 | resolution succeeds exactly when no coercion raises, and then stores one field per declared attribute, in declaration order, with its stored value |
| `Properties.ResolveErr` | test/nform/attributes_test.rb:22-55 | a failed resolution reports the first attribute, in declaration order, whose coercion raised |
| `Properties.MissingNames` | test/nform/attributes_test.rb:71-76 | the missing list names exactly the required attributes whose stored value is nil |
| `Properties.ConstructedFields` | test/nform/attributes_test.rb:22-55 | a built instance has one field per declared attribute with its stored value, and a reader for the declared names and no other |
| `Properties.ConstructedValue` | test/nform/attributes_test.rb:34-55 | an absent key gives the default, a present key (even nil) gives the coerced value, no coercion passes it through, a required attribute is never nil |
| `Properties.ConstructSucceeds` | test/nform/attributes_test.rb:65-127 | `new` succeeds iff no coercion raises, no required attribute is nil, and under `:raise` every key is declared |
| `Properties.RequiredNilRaises` | test/nform/attributes_test.rb:71-76 | a nil required attribute makes `new` raise: the ArgumentError naming it, unless a coercion raised first |
| `Properties.UndeclaredComplete` | test/nform/attributes_test.rb:113-127 | every input key that names no attribute is reported, so nothing is reported exactly when every key is declared |
| `Properties.UndeclaredKeyRaises` | test/nform/attributes_test.rb:113-119 | under `:raise`, an undeclared key makes `new` raise, and the ArgumentError lists it when nothing failed first |
| `Properties.ResolveAlike` | test/nform/attributes_test.rb:22-55 | inputs that resolve every declared attribute alike give the same fields and the same missing list |
| `Properties.IgnoreDropsUndeclared` | test/nform/attributes_test.rb:121-127 | under `:ignore`, `new` gives the same result as the declared keys alone, under either policy |
| `Properties.SpellingIrrelevant` | test/nform/attributes_test.rb:29-32 | inputs that agree on every name under either key spelling construct alike |
| `Properties.StringKeyEqualsSymbolKey` | test/nform/attributes_test.rb:29-32 | `'n' => v` and `n: v` construct the same result |
| `Properties.EmptyInput` | test/nform/attributes_test.rb:86-94 | `new` with no input succeeds iff no required attribute has a nil default, and stores exactly the defaults |
| `Properties.ToHashOfConstructed` | test/nform/attributes_test.rb:46-50 | `to_hash` of a built instance maps exactly the declared names, in order, to their stored values |
| `Properties.AsInputLast` | test/nform/attributes_test.rb:46-50 | in the hash built from pairs, a key maps to the value of its last pair |
| `Properties.ToHashKeys` | test/nform/attributes_test.rb:46-50 | the keys of `to_hash` are distinct and are the declared names, as Symbols, in order |
| `Properties.MissingEmpty` | test/nform/attributes_test.rb:65-69 | nothing is missing when no required attribute resolves to nil |
| `Properties.RoundTripResolves` | test/nform/attributes_test.rb:46-50 | resolving `to_hash` again stores the same fields, when every stored value is a fixed point of its coercion |
| `Properties.RoundTrip` | test/nform/attributes_test.rb:46-50 | `new(to_hash)` rebuilds the instance when every stored value is a fixed point of its coercion |
| `Properties.FullInputSettled` | test/nform/attributes_test.rb:8-20 | when the input gives every attribute, every stored value is a fixed point of its coercion |
| `Examples.DeclareExample` | test/nform/attributes_test.rb:5-10 | the class body of `Example` builds a registry with `sample`, `a_date` (`input_to_date`) and `a_string` (proc), policy `:raise` |
| `Examples.DeclareExample2` | test/nform/attributes_test.rb:59-63 | `Example2` has `an_optional` and a required `a_required` |
| `Examples.DeclareExample3` | test/nform/attributes_test.rb:80-84 | `Example3` has `a_normal` and `a_default` with default "foo" |
| `Examples.DeclareDefOnly` | test/nform/attributes_test.rb:98-101 | `DefOnly` has `a_thing` under the default `:raise` |
| `Examples.DeclareDefOnlyExplicit` | test/nform/attributes_test.rb:102-106 | `undefined_attributes :raise` before `a_thing` gives the same registry as `DefOnly` |
| `Examples.DeclareUndefOk` | test/nform/attributes_test.rb:107-111 | `UndefOk` has `a_thing` under `:ignore` |
| `Examples.NilInput` | test/nform/attributes_test.rb:22-27 | `Example.new` succeeds with every attribute nil |
| `Examples.StringAttrs` | test/nform/attributes_test.rb:29-32 | `'sample' => 'foo'` sets `sample` to "foo" |
| `Examples.NoopWithoutCoercion` | test/nform/attributes_test.rb:34-39 | `sample: 1` and `sample: "abc"` are stored unchanged |
| `Examples.ParseOnCoercion` | test/nform/attributes_test.rb:41-44 | the date hash is stored as `Date(2015, 1, 1)` |
| `Examples.HashOfCoercedValues` | test/nform/attributes_test.rb:46-50 | `to_hash` is `{sample: "Hello", a_date: Date(2015,1,1), a_string: nil}` in that order |
| `Examples.CallProcToCoerce` | test/nform/attributes_test.rb:52-55 | `a_string: "hello"` is stored as "HELLO" |
| `Examples.OptionalMayBeNil` | test/nform/attributes_test.rb:65-69 | with `a_required` given, construction succeeds and `an_optional` is nil |
| `Examples.RequiredMayNotBeNil` | test/nform/attributes_test.rb:71-76 | without `a_required`, `new` raises the ArgumentError for missing required `a_required` |
| `Examples.DefaultValues` | test/nform/attributes_test.rb:86-94 | `Example3.new` has `a_default == "foo"` and `a_normal == nil` |
| `Examples.UnspecifiedRaises` | test/nform/attributes_test.rb:113-119 | `new(foo: 1)` under `:raise` raises the ArgumentError listing `foo` |
| `Examples.UnspecifiedIgnored` | test/nform/attributes_test.rb:121-127 | under `:ignore`, `new(foo: 1)` succeeds, `a_thing` is nil and there is no reader `foo` |
| `Examples.ExampleFullInput` | test/nform/attributes_test.rb:46-55 | `sample: "Hello"`, the date hash and `a_string: "hello"` store "Hello", `Date(2015, 1, 1)` and "HELLO" |
| `Examples.ExampleToHash` | test/nform/attributes_test.rb:46-55 | `to_hash` of that instance is `{sample: "Hello", a_date: Date(2015,1,1), a_string: "HELLO"}` in that order |
| `Examples.ExampleFullInputSettled` | test/nform/attributes_test.rb:46-55 | each value of that instance is a fixed point of its attribute's coercion |
| `Examples.ExampleRoundTrip` | test/nform/attributes_test.rb:46-55 | with all three attributes given, `to_hash` is the coerced triple and `new(to_hash)` rebuilds the instance |
| `Examples.AbsentUpcaseBreaksRoundTrip` | test/nform/attributes_test.rb:46-50 | feeding that test's `to_hash` back to `new` raises NoMethodError in the `a_string` proc |

## Left out

- The implementation file `lib/nform/attributes.rb` is not part of this model. The behaviour is taken from the tests.
- Ruby metaprogramming is not modelled: `extend`, the generated readers, and the `NoMethodError` raised for a missing reader. A missing reader is `Get` returning `None`.
- Coercions.InputToDate: does not check calendar validity, which Ruby's `Date.new` does (an invalid date raises there); a Date is a plain triple.
- Coercions.UpcaseChar: upcases ASCII letters only, while Ruby's `String#upcase` also maps non-ASCII letters. So `Coercions.UpcaseString` and `Coercions.UpcaseProc` always keep the length, while in Ruby `"ß".upcase` is `"SS"`.
- Only the two coercions the tests declare are modelled, the `input_to_date` method and the upcasing proc. Other procs and methods are not.
- Error messages are modelled by their kind and the names they carry, not their wording.
- Which error wins when several apply is not fixed by the tests. The order chosen is stated above.
- What happens when an input gives both spellings of a key, and what re-declaring a name does, are not fixed by the tests. The choices are stated above.
- `to_hash` is a pure function of the instance, so calling it twice gives the same result and changes nothing. This needs no separate statement.
- The minitest harness and `test_helper` loading are not modelled.
