/** The inline-style object (library/features/style-object.js): CSS
    properties and variables assigned in bulk, and the list of declarations
    `toString` hands to the inline-style serialiser. A property may hold a
    function, which is called each time the declarations are computed. */
module StyleObjects {
  import opened Common
  import opened Values
  import opened Assoc

  /** A property value: a plain value, or a function whose call returns
      `result`. */
  datatype StyleValue = Plain(v: Value) | Thunk(result: Value)

  /** `Object.entries(src).slice(0, n).forEach(([k, v]) => obj[prefix + k] = v)`. */
  function Assigned<V>(d: Dict<V>, src: Dict<V>, prefix: string, n: nat): Dict<V>
    requires n <= |src|
  {
    if n == 0 then d else Put(Assigned(d, src, prefix, n - 1), prefix + src[n - 1].0, src[n - 1].1)
  }

  /** The value of the last of the first `n` entries whose prefixed key is
      `q`, if any. */
  function LastAssigned<V>(src: Dict<V>, prefix: string, q: string, n: nat): (r: Option<V>)
    requires n <= |src|
    ensures r.None? <==> forall j :: 0 <= j < n ==> prefix + src[j].0 != q
    ensures r.Some? ==> exists j :: 0 <= j < n && prefix + src[j].0 == q && src[j].1 == r.value
  {
    if n == 0 then None
    else if prefix + src[n - 1].0 == q then Some(src[n - 1].1)
    else LastAssigned(src, prefix, q, n - 1)
  }

  /** After the assignments a key reads the last value assigned to it; a
      key nothing was assigned to reads what it read before. */
  lemma {:induction false} LookupAssigned<V>(d: Dict<V>, src: Dict<V>, prefix: string, n: nat, q: string)
    requires n <= |src|
    ensures Lookup(Assigned(d, src, prefix, n), q)
      == if LastAssigned(src, prefix, q, n).Some? then LastAssigned(src, prefix, q, n) else Lookup(d, q)
  {
    if n > 0 {
      LookupAssigned(d, src, prefix, n - 1, q);
      LookupPut(Assigned(d, src, prefix, n - 1), prefix + src[n - 1].0, src[n - 1].1, q);
    }
  }

  lemma {:induction false} AssignedDistinct<V>(d: Dict<V>, src: Dict<V>, prefix: string, n: nat)
    requires n <= |src|
    requires DistinctKeys(d)
    ensures DistinctKeys(Assigned(d, src, prefix, n))
  {
    if n > 0 {
      AssignedDistinct(d, src, prefix, n - 1);
      PutDistinct(Assigned(d, src, prefix, n - 1), prefix + src[n - 1].0, src[n - 1].1);
    }
  }

  /** `value.filter(x => x !== null)` with each survivor as `join` writes
      it: `undefined` as the empty string, anything else as its string. */
  function ArrayPieces(items: seq<Value>): (r: seq<string>)
    ensures |r| <= |items|
    ensures (forall i :: 0 <= i < |items| ==> !items[i].Null?) ==> |r| == |items|
  {
    if items == [] then []
    else if items[0].Null? then ArrayPieces(items[1..])
    else [if items[0].Undefined? then "" else Key(items[0])] + ArrayPieces(items[1..])
  }

  /** The value `toString` computes for one property: a function is
      called, and an array becomes the `', '`-joined text of its non-null
      elements. */
  function Computed(sv: StyleValue): (r: Value)
    ensures !r.Arr?
    ensures var called := if sv.Thunk? then sv.result else sv.v;
      !called.Arr? ==> r == called
  {
    var called := if sv.Thunk? then sv.result else sv.v;
    if called.Arr? then Str(Join(ArrayPieces(called.items), ", ")) else called
  }

  /** The declarations `toString` serialises: each property with its
      computed value, in property order, dropping those that compute to
      `null` or `undefined`. */
  function Declarations(props: Dict<StyleValue>): (r: Dict<Value>)
    ensures |r| <= |props|
    ensures forall e :: e in r ==> !e.1.Undefined? && !e.1.Null?
  {
    if props == [] then []
    else
      var c := Computed(props[0].1);
      (if c.Undefined? || c.Null? then [] else [(props[0].0, c)]) + Declarations(props[1..])
  }

  /** Declarations are computed property by property: the declarations of
      two runs of properties are those of each, in order. */
  lemma {:induction false} DeclarationsConcat(a: Dict<StyleValue>, b: Dict<StyleValue>)
    ensures Declarations(a + b) == Declarations(a) + Declarations(b)
  {
    if a != [] {
      assert (a + b)[0] == a[0] && (a + b)[1..] == a[1..] + b;
      DeclarationsConcat(a[1..], b);
    } else {
      assert a + b == b;
    }
  }

  /** A declaration is emitted for a property exactly when its computed
      value is neither `null` nor `undefined`, and carries that value. */
  lemma {:induction false} DeclarationsMembers(props: Dict<StyleValue>, k: string, v: Value)
    ensures (k, v) in Declarations(props) <==>
      exists sv :: (k, sv) in props && v == Computed(sv) && !v.Undefined? && !v.Null?
  {
    if props != [] {
      DeclarationsMembers(props[1..], k, v);
      assert forall e :: e in props <==> e == props[0] || e in props[1..];
    }
  }

  class StyleObject {
    /** The object's own properties, in the order first assigned. */
    var props: Dict<StyleValue>

    predicate Valid()
      reads this
    {
      DistinctKeys(props)
    }

    /** `new StyleObject(initial)`: the properties of `initial`, if given. */
    constructor (initial: Option<Dict<StyleValue>>)
      ensures Valid()
      ensures initial.None? ==> props == []
      ensures initial.Some? ==> props == Assigned([], initial.value, "", |initial.value|)
    {
      props := [];
      new;
      if initial.Some? {
        Set(initial.value);
      }
    }

    /** `set(obj)`: copy every entry of `obj` onto the object, in order. */
    method Set(obj: Dict<StyleValue>)
      requires Valid()
      modifies this
      ensures Valid()
      ensures props == Assigned(old(props), obj, "", |obj|)
      ensures forall q ::
        Lookup(props, q) == (if LastAssigned(obj, "", q, |obj|).Some? then LastAssigned(obj, "", q, |obj|) else old(Lookup(props, q)))
    {
      AssignAll(obj, "");
    }

    /** `setVariables(obj)`: the same, each key prefixed with `--`. */
    method SetVariables(obj: Dict<StyleValue>)
      requires Valid()
      modifies this
      ensures Valid()
      ensures props == Assigned(old(props), obj, "--", |obj|)
      ensures forall q ::
        Lookup(props, q) == (if LastAssigned(obj, "--", q, |obj|).Some? then LastAssigned(obj, "--", q, |obj|) else old(Lookup(props, q)))
    {
      AssignAll(obj, "--");
    }

    /** The `forEach` both bulk setters run. */
    method AssignAll(obj: Dict<StyleValue>, prefix: string)
      requires Valid()
      modifies this
      ensures Valid()
      ensures props == Assigned(old(props), obj, prefix, |obj|)
      ensures forall q ::
        Lookup(props, q) == (if LastAssigned(obj, prefix, q, |obj|).Some? then LastAssigned(obj, prefix, q, |obj|) else old(Lookup(props, q)))
    {
      ghost var start := props;
      var i := 0;
      while i < |obj|
        invariant 0 <= i <= |obj|
        invariant props == Assigned(start, obj, prefix, i)
      {
        props := Put(props, prefix + obj[i].0, obj[i].1);
        i := i + 1;
      }
      AssignedDistinct(start, obj, prefix, |obj|);
      forall q {
        LookupAssigned(start, obj, prefix, |obj|, q);
      }
    }

    /** `toString()` up to the serialiser: the declarations it serialises. */
    function ToDeclarations(): (r: Dict<Value>)
      reads this
      ensures r == Declarations(props)
    {
      Declarations(props)
    }
  }

  /** Setting a variable never touches a property whose name does not
      start with `--`. */
  lemma VariablesArePrefixed(d: Dict<StyleValue>, obj: Dict<StyleValue>, q: string)
    requires |q| < 2 || q[..2] != "--"
    ensures Lookup(Assigned(d, obj, "--", |obj|), q) == Lookup(d, q)
  {
    LookupAssigned(d, obj, "--", |obj|, q);
  }
}
