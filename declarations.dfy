/** The per-type registry that `extend NForm::Attributes` gives a class: the
    ordered attribute definitions that `attribute` appends and the
    undefined-key policy that `undefined_attributes` sets. */
module Declarations {
  import opened Values
  import opened Coercions

  /** One `attribute name, coerce:, required:, default:` declaration. */
  datatype AttrDef = AttrDef(name: string, coerce: Coercion, required: bool, default: Value)

  /** `undefined_attributes :raise` (the default) or `undefined_attributes :ignore`. */
  datatype Policy = Raise | Ignore

  /** What construction reads of a type: its definitions in declaration order
      and its policy. */
  datatype Schema = Schema(defs: seq<AttrDef>, policy: Policy)

  /** The declared names, in declaration order. */
  function Names(defs: seq<AttrDef>): (ns: seq<string>)
    ensures |ns| == |defs|
    ensures forall i :: 0 <= i < |defs| ==> ns[i] == defs[i].name
  {
    if defs == [] then [] else [defs[0].name] + Names(defs[1..])
  }

  /** No name is declared twice. */
  predicate UniqueNames(defs: seq<AttrDef>) {
    forall i, j :: 0 <= i < j < |defs| ==> defs[i].name != defs[j].name
  }

  /** The definition declared under `n`, if any. */
  function Find(defs: seq<AttrDef>, n: string): (r: Option<AttrDef>)
    ensures r.None? <==> n !in Names(defs)
    ensures r.Some? ==> r.value in defs && r.value.name == n
  {
    if defs == [] then None
    else if defs[0].name == n then Some(defs[0])
    else Find(defs[1..], n)
  }

  /** `attribute`: a new name is appended at the end; a name declared again
      has its definition replaced where it stands (the registry is keyed by
      name). */
  function Declare(defs: seq<AttrDef>, d: AttrDef): (r: seq<AttrDef>)
    ensures d in r
    ensures |r| == |defs| || |r| == |defs| + 1
  {
    if defs == [] then [d]
    else if defs[0].name == d.name then [d] + defs[1..]
    else [defs[0]] + Declare(defs[1..], d)
  }

  /** Declaring keeps the declaration order: a new name goes last, a known
      name keeps its place. */
  lemma {:induction false} DeclareNames(defs: seq<AttrDef>, d: AttrDef)
    ensures Names(Declare(defs, d)) ==
      if d.name in Names(defs) then Names(defs) else Names(defs) + [d.name]
  {
    if defs != [] && defs[0].name != d.name {
      DeclareNames(defs[1..], d);
      assert Names(defs) == [defs[0].name] + Names(defs[1..]);
    }
  }

  /** After `attribute`, the name resolves to the new definition, and every
      other name to what it resolved to before. */
  lemma {:induction false} DeclareFind(defs: seq<AttrDef>, d: AttrDef, n: string)
    ensures Find(Declare(defs, d), n) == if n == d.name then Some(d) else Find(defs, n)
  {
    if defs != [] && defs[0].name != d.name {
      DeclareFind(defs[1..], d, n);
    }
  }

  /** Declaring never makes a name ambiguous. */
  lemma {:induction false} DeclareUnique(defs: seq<AttrDef>, d: AttrDef)
    requires UniqueNames(defs)
    ensures UniqueNames(Declare(defs, d))
  {
    var r := Declare(defs, d);
    DeclareNames(defs, d);
    var ns := Names(r);
    forall i, j | 0 <= i < j < |r| ensures r[i].name != r[j].name {
      var old_ns := Names(defs);
      assert ns[i] == r[i].name && ns[j] == r[j].name;
      if d.name in old_ns {
        assert ns == old_ns;
        assert |r| == |defs|;
        assert defs[i].name == old_ns[i] && defs[j].name == old_ns[j];
      } else {
        assert ns == old_ns + [d.name];
        if j < |defs| {
          assert defs[i].name == old_ns[i] && defs[j].name == old_ns[j];
        } else {
          assert ns[j] == d.name && ns[i] == old_ns[i];
        }
      }
    }
  }

  /** The registry of one class. Declarations mutate it step by step while the
      class body runs; construction then only reads it. */
  class Registry {
    var defs: seq<AttrDef>
    var policy: Policy

    ghost predicate Valid()
      reads this
    {
      UniqueNames(defs)
    }

    /** What construction sees of this registry. */
    function Snapshot(): Schema
      reads this
    {
      Schema(defs, policy)
    }

    /** `extend NForm::Attributes`: no attributes yet, policy `:raise`. */
    constructor ()
      ensures Valid()
      ensures defs == [] && policy == Raise
    {
      defs := [];
      policy := Raise;
    }

    /** `attribute name, coerce: c, required: req, default: dflt`; the options
        default to no coercion, not required and a nil default. */
    method Attribute(name: string, coerce: Coercion := NoCoerce, required: bool := false,
                     default: Value := Nil)
      requires Valid()
      modifies this
      ensures Valid()
      ensures defs == Declare(old(defs), AttrDef(name, coerce, required, default))
      ensures policy == old(policy)
    {
      DeclareUnique(defs, AttrDef(name, coerce, required, default));
      defs := Declare(defs, AttrDef(name, coerce, required, default));
    }

    /** `undefined_attributes p`: overwrites the policy, whenever it is called. */
    method UndefinedAttributes(p: Policy)
      requires Valid()
      modifies this
      ensures Valid()
      ensures policy == p && defs == old(defs)
    {
      policy := p;
    }
  }
}
