/** Path-based updates of a nested object (library/features/update-object.js
    and its older form library/functions/update-object.js). An update is a
    `[path, value]` pair: every key of the path but the last is followed
    from the root (`object = object[key]`), then the last key of the object
    reached is assigned, or, in the dotted form, deleted when the value is
    `undefined`. The source mutates the object graph in place; here the
    graph is a tree of values and a write rebuilds the spine from the
    changed container back to the root. */
module ObjectPaths {
  import opened Common
  import opened Values

  /** Which of the two `updateObject` functions: the dotted one accepts
      `'a.b.c'` strings and deletes on `undefined`; the array one spreads
      any path and always assigns. */
  datatype Dialect = DotPaths | ArrayPaths

  /** What `updateObject` leaves behind: the object as the completed
      updates made it, and the exception of the update that threw, if one
      did. The source mutates in place, so the updates before a throw stay
      applied. */
  datatype Outcome = Outcome(person: Value, thrown: Option<string>)

  /** `object[k1][k2]...`: following a key list from `root`; reading through
      `undefined` or `null` throws. */
  function ReadPath(root: Value, keys: seq<string>): Result<Value>
    decreases |keys|
  {
    if keys == [] then Ok(root)
    else
      match Member(root, keys[0])
      case Err(m) => Err(m)
      case Ok(child) => ReadPath(child, keys[1..])
  }

  /** `object[key] = value` (`delete object[key]` when `del`) on the
      container reached. An object takes or loses the property; an array
      takes an element at an existing index or one past its end, and any
      other key written on it is dropped (named array properties are not
      modelled); a write to a string, number or boolean has no effect;
      `undefined` and `null` throw. */
  function Write(target: Value, key: string, value: Value, del: bool): (r: Result<Value>)
    ensures r.Err? <==> target.Undefined? || target.Null?
    ensures target.Obj? && !del ==> r == Ok(Obj(target.fields[key := value]))
    ensures target.Obj? && del ==> r == Ok(Obj(target.fields - {key}))
  {
    match target
    case Undefined =>
      Err(if del then "TypeError: Cannot convert undefined or null to object"
          else "TypeError: Cannot set properties of undefined (setting '" + key + "')")
    case Null =>
      Err(if del then "TypeError: Cannot convert undefined or null to object"
          else "TypeError: Cannot set properties of null (setting '" + key + "')")
    case Obj(f) => Ok(Obj(if del then f - {key} else f[key := value]))
    case Arr(items) =>
      var i := Slot(|items| + 1, key);
      if i.Some? && i.value < |items| then Ok(Arr(items[i.value := if del then Undefined else value]))
      else if i.Some? && !del then Ok(Arr(items + [value]))
      else Ok(target)
    case _ => Ok(target)
  }

  /** The container `root` after its child under `key` became `child`: the
      in-place change of a nested object seen from its parent. */
  function Replace(root: Value, key: string, child: Value): Value {
    match root
    case Obj(f) => Obj(f[key := child])
    case Arr(items) =>
      var i := Slot(|items|, key);
      if i.Some? then Arr(items[i.value := child]) else root
    case _ => root
  }

  /** One update on the tree: walk `keys` from the root, write `finalKey`
      on the container reached, rebuild the spine. */
  function SetPath(root: Value, keys: seq<string>, finalKey: string, value: Value, del: bool): Result<Value>
    decreases |keys|
  {
    if keys == [] then Write(root, finalKey, value, del)
    else
      match Member(root, keys[0])
      case Err(m) => Err(m)
      case Ok(child) =>
        match SetPath(child, keys[1..], finalKey, value, del)
        case Err(m) => Err(m)
        case Ok(c) => Ok(Replace(root, keys[0], c))
  }

  /** `String(k)` of every element of a spread path. */
  function KeysOf(items: seq<Value>): (ks: seq<string>)
    ensures |ks| == |items|
    ensures forall i :: 0 <= i < |items| ==> ks[i] == Key(items[i])
  {
    if items == [] then [] else [Key(items[0])] + KeysOf(items[1..])
  }

  /** The key list an input path names: a string is split on `.` in the
      dotted form; otherwise the path is spread, which fails for anything
      but an array or a string. */
  function PathKeys(d: Dialect, inputPath: Value): (r: Result<seq<string>>)
    ensures d.DotPaths? && inputPath.Str? ==> r == Ok(Split(inputPath.s, '.'))
    ensures d.ArrayPaths? || !inputPath.Str? ==>
      r.Ok? <==> SpreadItems(inputPath).Ok?
    ensures d.ArrayPaths? || !inputPath.Str? ==>
      r.Ok? ==> r.value == KeysOf(SpreadItems(inputPath).value)
  {
    if d.DotPaths? && inputPath.Str? then Ok(Split(inputPath.s, '.'))
    else
      match SpreadItems(inputPath)
      case Err(m) => Err(m)
      case Ok(items) => Ok(KeysOf(items))
  }

  /** `path.pop()`: the keys walked and the key written. Popping an empty
      path gives `undefined`, whose property key is "undefined". */
  function Walked(keys: seq<string>): seq<string> {
    if keys == [] then [] else keys[..|keys| - 1]
  }

  function FinalKey(keys: seq<string>): string {
    if keys == [] then "undefined" else keys[|keys| - 1]
  }

  /** A non-empty path is the keys walked followed by the key written. */
  lemma WalkedThenFinal(keys: seq<string>)
    requires keys != []
    ensures Walked(keys) + [FinalKey(keys)] == keys
  {
    assert keys[..|keys| - 1] + [keys[|keys| - 1]] == keys;
  }

  /** Whether the update deletes rather than assigns. */
  predicate Deletes(d: Dialect, value: Value) {
    d.DotPaths? && value.Undefined?
  }

  /** One element of the updates list, applied to the tree. */
  function Step(d: Dialect, root: Value, update: Value): Result<Value> {
    match Destructure(update)
    case Err(m) => Err(m)
    case Ok((inputPath, value)) =>
      match PathKeys(d, inputPath)
      case Err(m) => Err(m)
      case Ok(keys) => SetPath(root, Walked(keys), FinalKey(keys), value, Deletes(d, value))
  }

  /** How one update is applied to a tree, as a value the list fold is
      parameterised by. */
  type Stepper = (Value, Value) -> Result<Value>

  /** One more update after `before`: skipped once an earlier one threw,
      otherwise applied, recording its exception if it throws. */
  function Advance(step: Stepper, before: Outcome, update: Value): Outcome {
    if before.thrown.Some? then before
    else
      match step(before.person, update)
      case Err(m) => Outcome(before.person, Some(m))
      case Ok(r) => Outcome(r, None)
  }

  /** The updates applied in list order, each to the result of the ones
      before it, up to the first one that throws. */
  function Run(step: Stepper, root: Value, updates: seq<Value>): (o: Outcome)
    ensures o.thrown.None? ==> |updates| > 0 || o.person == root
  {
    if updates == [] then Outcome(root, None)
    else Advance(step, Run(step, root, updates[..|updates| - 1]), updates[|updates| - 1])
  }

  /** `Step` in one of the two dialects. */
  function Stepping(d: Dialect): Stepper {
    (root, update) => Step(d, root, update)
  }

  /** What `updateObject` does with the whole list in dialect `d`. */
  function Fold(d: Dialect, root: Value, updates: seq<Value>): Outcome {
    Run(Stepping(d), root, updates)
  }

  /** Running one more update is advancing by it. */
  lemma RunSnoc(step: Stepper, root: Value, init: seq<Value>, u: Value)
    ensures Run(step, root, init + [u]) == Advance(step, Run(step, root, init), u)
  {
    assert (init + [u])[..|init|] == init;
  }

  /** Keys `q` leaves `p` at some position after agreeing up to there. */
  predicate Diverges(p: seq<string>, q: seq<string>)
    decreases |p|
  {
    p != [] && q != [] && (p[0] != q[0] || Diverges(p[1..], q[1..]))
  }

  /** Following `a` then `b` is following `a + b`; a walk that throws
      along `a` throws the same way along `a + b`. */
  lemma {:induction false} ReadPathConcat(root: Value, a: seq<string>, b: seq<string>)
    ensures ReadPath(root, a + b) ==
      if ReadPath(root, a).Err? then ReadPath(root, a) else ReadPath(ReadPath(root, a).value, b)
    decreases |a|
  {
    if a == [] {
      assert [] + b == b;
    } else {
      assert (a + b)[0] == a[0];
      assert (a + b)[1..] == a[1..] + b;
      match Member(root, a[0]) {
        case Err(m) =>
        case Ok(child) => ReadPathConcat(child, a[1..], b);
      }
    }
  }

  /** One more key of a walk that has not thrown is one more property
      read; once a walk throws, the rest of the keys are not read. */
  lemma ReadPathNext(root: Value, keys: seq<string>, i: nat)
    requires i < |keys|
    ensures ReadPath(root, keys[..i]).Ok? ==>
      ReadPath(root, keys[..i + 1]) == Member(ReadPath(root, keys[..i]).value, keys[i])
    ensures ReadPath(root, keys[..i + 1]).Err? ==> ReadPath(root, keys) == ReadPath(root, keys[..i + 1])
  {
    assert keys[..i] + [keys[i]] == keys[..i + 1];
    ReadPathConcat(root, keys[..i], [keys[i]]);
    if ReadPath(root, keys[..i]).Ok? {
      ReadPathOne(ReadPath(root, keys[..i]).value, keys[i]);
    }
    assert keys[..i + 1] + keys[i + 1..] == keys;
    ReadPathConcat(root, keys[..i + 1], keys[i + 1..]);
  }

  /** A one-key walk is a property read. */
  lemma ReadPathOne(root: Value, k: string)
    ensures ReadPath(root, [k]) == Member(root, k)
  {
    assert [k][1..] == [];
  }

  /** An update throws exactly when the walk throws or reaches `undefined`
      or `null`; a throwing walk throws its own error. */
  lemma {:induction false} SetPathFails(root: Value, keys: seq<string>, finalKey: string, value: Value, del: bool)
    ensures SetPath(root, keys, finalKey, value, del).Err? <==>
      ReadPath(root, keys).Err? || ReadPath(root, keys).value.Undefined? || ReadPath(root, keys).value.Null?
    ensures ReadPath(root, keys).Err? ==> SetPath(root, keys, finalKey, value, del) == Err(ReadPath(root, keys).error)
    ensures ReadPath(root, keys).Ok? && SetPath(root, keys, finalKey, value, del).Err? ==>
      SetPath(root, keys, finalKey, value, del) == Write(ReadPath(root, keys).value, finalKey, value, del)
    decreases |keys|
  {
    if keys != [] {
      match Member(root, keys[0]) {
        case Err(m) =>
        case Ok(child) => SetPathFails(child, keys[1..], finalKey, value, del);
      }
    }
  }

  /** A write below a string, number or boolean changes nothing. */
  lemma PrimitiveUnchanged(root: Value, keys: seq<string>, finalKey: string, value: Value, del: bool)
    requires !root.Obj? && !root.Arr?
    requires SetPath(root, keys, finalKey, value, del).Ok?
    ensures SetPath(root, keys, finalKey, value, del).value == root
  {
  }

  /** Reading the key back from the rebuilt parent gives the rebuilt child. */
  lemma ReplaceReads(root: Value, key: string, child: Value, c: Value)
    requires Member(root, key) == Ok(child)
    requires root.Obj? || (root.Arr? && Slot(|root.items|, key).Some?) || c == child
    ensures Member(Replace(root, key, c), key) == Ok(c)
  {
  }

  /** After an update, the container at the end of the walk is the written
      container: the change happens at the path and the tree above it only
      carries it. */
  lemma {:induction false} SetPathTarget(root: Value, keys: seq<string>, finalKey: string, value: Value, del: bool)
    requires SetPath(root, keys, finalKey, value, del).Ok?
    ensures ReadPath(root, keys).Ok?
    ensures ReadPath(SetPath(root, keys, finalKey, value, del).value, keys)
      == Write(ReadPath(root, keys).value, finalKey, value, del)
    decreases |keys|
  {
    if keys != [] {
      var child := Member(root, keys[0]).value;
      var c := SetPath(child, keys[1..], finalKey, value, del).value;
      SetPathTarget(child, keys[1..], finalKey, value, del);
      if !child.Obj? && !child.Arr? {
        PrimitiveUnchanged(child, keys[1..], finalKey, value, del);
      }
      if root.Arr? && Slot(|root.items|, keys[0]).None? {
        assert child == Undefined;
        SetPathFails(child, keys[1..], finalKey, value, del);
      }
      ReplaceReads(root, keys[0], child, c);
    }
  }

  /** Writing one key leaves every other key of the container as it was. */
  lemma WriteOffKey(target: Value, key: string, value: Value, del: bool, k: string)
    requires Write(target, key, value, del).Ok? && k != key
    ensures Member(Write(target, key, value, del).value, k) == Member(target, k)
  {
    if target.Arr? {
      var n := |target.items|;
      if Slot(n + 1, key) == Some(n) && !del {
        assert Slot(n + 1, k) == Slot(n, k);
      }
    }
  }

  /** Rebuilding the parent under one key leaves its other keys alone. */
  lemma ReplaceOffKey(root: Value, key: string, c: Value, k: string)
    requires k != key
    ensures Member(Replace(root, key, c), k) == Member(root, k)
  {
  }

  /** Every path that leaves the updated path reads the same before and
      after the update: keys off the update path are unchanged. */
  lemma {:induction false} SetPathOffPath(root: Value, keys: seq<string>, finalKey: string, value: Value, del: bool, q: seq<string>)
    requires SetPath(root, keys, finalKey, value, del).Ok?
    requires Diverges(keys + [finalKey], q)
    ensures ReadPath(SetPath(root, keys, finalKey, value, del).value, q) == ReadPath(root, q)
    decreases |keys|
  {
    var r := SetPath(root, keys, finalKey, value, del).value;
    var p := keys + [finalKey];
    if keys == [] {
      assert p == [finalKey] && p[1..] == [];
      WriteOffKey(root, finalKey, value, del, q[0]);
    } else if q[0] != keys[0] {
      ReplaceOffKey(root, keys[0], SetPath(Member(root, keys[0]).value, keys[1..], finalKey, value, del).value, q[0]);
    } else {
      var child := Member(root, keys[0]).value;
      var c := SetPath(child, keys[1..], finalKey, value, del).value;
      DivergesTail(keys, finalKey, q);
      SetPathOffPath(child, keys[1..], finalKey, value, del, q[1..]);
      DescendOffPath(root, keys, finalKey, value, del, q, child, c);
    }
  }

  /** Paths that diverge below a shared first key diverge in their tails. */
  lemma DivergesTail(keys: seq<string>, finalKey: string, q: seq<string>)
    requires keys != [] && Diverges(keys + [finalKey], q) && q[0] == keys[0]
    ensures Diverges(keys[1..] + [finalKey], q[1..])
  {
    assert (keys + [finalKey])[1..] == keys[1..] + [finalKey];
  }

  /** The step of `SetPathOffPath` below the first key: a path through the
      rebuilt child reads as it did when the child's own reads did not
      change. */
  lemma DescendOffPath(root: Value, keys: seq<string>, finalKey: string, value: Value, del: bool,
                       q: seq<string>, child: Value, c: Value)
    requires keys != [] && q != [] && q[0] == keys[0]
    requires Member(root, keys[0]) == Ok(child)
    requires SetPath(child, keys[1..], finalKey, value, del) == Ok(c)
    requires ReadPath(c, q[1..]) == ReadPath(child, q[1..])
    ensures SetPath(root, keys, finalKey, value, del) == Ok(Replace(root, keys[0], c))
    ensures ReadPath(Replace(root, keys[0], c), q) == ReadPath(root, q)
  {
    assert root.Obj? || (root.Arr? && Slot(|root.items|, keys[0]).Some?) || c == child by {
      if !child.Obj? && !child.Arr? {
        PrimitiveUnchanged(child, keys[1..], finalKey, value, del);
      }
      if root.Arr? && Slot(|root.items|, keys[0]).None? {
        SetPathFails(child, keys[1..], finalKey, value, del);
      }
    }
    ReplaceReads(root, keys[0], child, c);
  }

  /** An assignment through an object makes the full path read the value;
      a deletion removes the key from the container, so it reads
      `undefined`. */
  lemma SetPathReadsBack(root: Value, keys: seq<string>, finalKey: string, value: Value, del: bool)
    requires SetPath(root, keys, finalKey, value, del).Ok?
    requires ReadPath(root, keys).Ok? && ReadPath(root, keys).value.Obj?
    ensures var r := SetPath(root, keys, finalKey, value, del).value;
      && ReadPath(r, keys).Ok? && ReadPath(r, keys).value.Obj?
      && (del ==> finalKey !in ReadPath(r, keys).value.fields)
      && ReadPath(r, keys + [finalKey]) == Ok(if del then Undefined else value)
  {
    var r := SetPath(root, keys, finalKey, value, del).value;
    SetPathTarget(root, keys, finalKey, value, del);
    ReadPathConcat(r, keys, [finalKey]);
    ReadPathOne(ReadPath(r, keys).value, finalKey);
  }

  /** Applying a list in two parts is applying the first part, then the
      second to what it left, unless the first part threw. */
  lemma {:induction false} RunConcat(step: Stepper, root: Value, a: seq<Value>, b: seq<Value>)
    ensures Run(step, root, a + b) ==
      if Run(step, root, a).thrown.Some? then Run(step, root, a) else Run(step, Run(step, root, a).person, b)
    decreases |b|
  {
    if b == [] {
      assert a + b == a;
    } else {
      var init, last := b[..|b| - 1], b[|b| - 1];
      RunConcat(step, root, a, init);
      assert a + b == (a + init) + [last] by {
        assert b == init + [last];
      }
      RunSnoc(step, root, a + init, last);
      RunSnoc(step, Run(step, root, a).person, init, last);
      assert init + [last] == b;
    }
  }

  /** An update that succeeds after the ones before it all did extends
      the run by its result. */
  lemma RunNext(step: Stepper, root: Value, updates: seq<Value>, i: nat, r: Result<Value>)
    requires i < |updates|
    requires Run(step, root, updates[..i]).thrown.None?
    requires r == step(Run(step, root, updates[..i]).person, updates[i]) && r.Ok?
    ensures Run(step, root, updates[..i + 1]) == Outcome(r.value, None)
  {
    assert updates[..i + 1] == updates[..i] + [updates[i]];
    RunSnoc(step, root, updates[..i], updates[i]);
  }

  /** Once an update throws, the later ones are not applied: the run ends
      with the tree as the earlier updates left it and the exception. */
  lemma {:induction false} RunStopsAtThrow(step: Stepper, root: Value, updates: seq<Value>, i: nat)
    requires i < |updates|
    requires Run(step, root, updates[..i]).thrown.None?
    requires step(Run(step, root, updates[..i]).person, updates[i]).Err?
    ensures Run(step, root, updates) ==
      Outcome(Run(step, root, updates[..i]).person, Some(step(Run(step, root, updates[..i]).person, updates[i]).error))
  {
    var front := updates[..i + 1];
    assert front == updates[..i] + [updates[i]];
    RunSnoc(step, root, updates[..i], updates[i]);
    RunConcat(step, root, front, updates[i + 1..]);
    assert front + updates[i + 1..] == updates;
  }

  /** `path.forEach(key => object = object[key])`. */
  method Walk(root: Value, keys: seq<string>) returns (reached: Result<Value>)
    ensures reached == ReadPath(root, keys)
  {
    reached := Ok(root);
    var i := 0;
    while i < |keys|
      invariant 0 <= i <= |keys|
      invariant reached.Ok? && reached == ReadPath(root, keys[..i])
    {
      ReadPathNext(root, keys, i);
      var next := Member(reached.value, keys[i]);
      if next.Err? {
        return next;
      }
      reached := next;
      i := i + 1;
    }
    assert keys[..i] == keys;
  }

  /** One iteration of the outer `forEach`: destructure, take the key list,
      pop the final key, walk, then assign or delete. */
  method ApplyUpdate(d: Dialect, root: Value, update: Value) returns (r: Result<Value>)
    ensures r == Step(d, root, update)
  {
    var pair := Destructure(update);
    if pair.Err? {
      return Err(pair.error);
    }
    var (inputPath, value) := pair.value;
    var path := PathKeys(d, inputPath);
    if path.Err? {
      return Err(path.error);
    }
    var keys, finalKey, del := Walked(path.value), FinalKey(path.value), Deletes(d, value);
    var reached := Walk(root, keys);
    SetPathFails(root, keys, finalKey, value, del);
    if reached.Err? {
      return Err(reached.error);
    }
    var written := Write(reached.value, finalKey, value, del);
    if written.Err? {
      return written;
    }
    r := SetPath(root, keys, finalKey, value, del);
  }
}

/** library/features/update-object.js: paths may be dotted strings, and an
    `undefined` value deletes the final key. */
module FeatureUpdateObject {
  import opened Common
  import opened Values
  import opened ObjectPaths

  /** `updateObject(person, updates)`. */
  method UpdateObject(person: Value, updates: seq<Value>) returns (o: Outcome)
    ensures o == Fold(DotPaths, person, updates)
  {
    o := Outcome(person, None);
    var i := 0;
    while i < |updates|
      invariant 0 <= i <= |updates|
      invariant o == Fold(DotPaths, person, updates[..i]) && o.thrown.None?
    {
      var r := ApplyUpdate(DotPaths, o.person, updates[i]);
      if r.Err? {
        RunStopsAtThrow(Stepping(DotPaths), person, updates, i);
        return Outcome(o.person, Some(r.error));
      }
      RunNext(Stepping(DotPaths), person, updates, i, r);
      o := Outcome(r.value, None);
      i := i + 1;
    }
    assert updates[..i] == updates;
  }

  /** The update `['a.b.c', value]`. */
  function DotUpdate(path: string, value: Value): Value {
    Arr([Str(path), value])
  }

  /** A dotted path names the keys between its dots: they join back into the
      path, none holds a dot, and there is always a final key. */
  lemma DottedKeys(path: string)
    ensures PathKeys(DotPaths, Str(path)).Ok?
    ensures var keys := PathKeys(DotPaths, Str(path)).value;
      && keys != []
      && Join(keys, ".") == path
      && (forall i :: 0 <= i < |keys| ==> '.' !in keys[i])
      && Walked(keys) + [FinalKey(keys)] == keys
  {
    JoinSplit(path, '.');
    WalkedThenFinal(Split(path, '.'));
  }

  /** A dotted update throws exactly when following all but its last key
      throws or ends at `undefined` or `null`. */
  lemma DotUpdateThrows(root: Value, path: string, value: Value)
    ensures var keys := Split(path, '.');
      var reached := ReadPath(root, Walked(keys));
      Step(DotPaths, root, DotUpdate(path, value)).Err? <==>
        reached.Err? || reached.value.Undefined? || reached.value.Null?
  {
    var keys := Split(path, '.');
    SetPathFails(root, Walked(keys), FinalKey(keys), value, Deletes(DotPaths, value));
  }

  /** A defined value is assigned: the whole dotted path then reads it. */
  lemma DotUpdateAssigns(root: Value, path: string, value: Value)
    requires value != Undefined
    requires Step(DotPaths, root, DotUpdate(path, value)).Ok?
    requires var reached := ReadPath(root, Walked(Split(path, '.')));
      reached.Ok? && reached.value.Obj?
    ensures ReadPath(Step(DotPaths, root, DotUpdate(path, value)).value, Split(path, '.')) == Ok(value)
  {
    var keys := Split(path, '.');
    DottedKeys(path);
    SetPathReadsBack(root, Walked(keys), FinalKey(keys), value, false);
  }

  /** `undefined` deletes: the final key is gone from the object reached,
      so the path reads `undefined`. */
  lemma DotUpdateDeletes(root: Value, path: string)
    requires Step(DotPaths, root, DotUpdate(path, Undefined)).Ok?
    requires var reached := ReadPath(root, Walked(Split(path, '.')));
      reached.Ok? && reached.value.Obj?
    ensures var keys := Split(path, '.');
      var r := Step(DotPaths, root, DotUpdate(path, Undefined)).value;
      && ReadPath(r, Walked(keys)).Ok? && ReadPath(r, Walked(keys)).value.Obj?
      && FinalKey(keys) !in ReadPath(r, Walked(keys)).value.fields
      && ReadPath(r, keys) == Ok(Undefined)
  {
    var keys := Split(path, '.');
    DottedKeys(path);
    SetPathReadsBack(root, Walked(keys), FinalKey(keys), Undefined, true);
  }

  /** Every key path that leaves the dotted path reads as before. */
  lemma DotUpdateOffPath(root: Value, path: string, value: Value, q: seq<string>)
    requires Step(DotPaths, root, DotUpdate(path, value)).Ok?
    requires Diverges(Split(path, '.'), q)
    ensures ReadPath(Step(DotPaths, root, DotUpdate(path, value)).value, q) == ReadPath(root, q)
  {
    var keys := Split(path, '.');
    DottedKeys(path);
    SetPathOffPath(root, Walked(keys), FinalKey(keys), value, Deletes(DotPaths, value), q);
  }
}
