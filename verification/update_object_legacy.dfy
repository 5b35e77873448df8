/** library/functions/update-object.js, the older `updateObject`: a path is
    always spread into its keys (a string becomes its characters, with no
    splitting on dots), and the final key is always assigned, `undefined`
    included. */
module LegacyUpdateObject {
  import opened Common
  import opened Values
  import opened ObjectPaths

  /** `updateObject(person, updates)`. */
  method UpdateObject(person: Value, updates: seq<Value>) returns (o: Outcome)
    ensures o == Fold(ArrayPaths, person, updates)
  {
    o := Outcome(person, None);
    var i := 0;
    while i < |updates|
      invariant 0 <= i <= |updates|
      invariant o == Fold(ArrayPaths, person, updates[..i]) && o.thrown.None?
    {
      var r := ApplyUpdate(ArrayPaths, o.person, updates[i]);
      if r.Err? {
        RunStopsAtThrow(Stepping(ArrayPaths), person, updates, i);
        return Outcome(o.person, Some(r.error));
      }
      RunNext(Stepping(ArrayPaths), person, updates, i, r);
      o := Outcome(r.value, None);
      i := i + 1;
    }
    assert updates[..i] == updates;
  }

  /** A string path is spread into one key per character: `'a.b'` names the
      three keys "a", "." and "b". */
  lemma StringPathIsCharacters(path: string)
    ensures PathKeys(ArrayPaths, Str(path)).Ok?
    ensures var keys := PathKeys(ArrayPaths, Str(path)).value;
      |keys| == |path| && forall i :: 0 <= i < |path| ==> keys[i] == [path[i]]
  {
  }

  /** An array path names its elements' string forms; a value that is
      neither an array nor a string is not a path at all. */
  lemma ArrayPathKeys(path: Value)
    ensures path.Arr? ==> PathKeys(ArrayPaths, path) == Ok(KeysOf(path.items))
    ensures !path.Arr? && !path.Str? ==> PathKeys(ArrayPaths, path).Err?
    ensures !path.Arr? && !path.Str? ==> Step(ArrayPaths, Obj(map[]), Arr([path, Undefined])).Err?
  {
  }

  /** An update whose path is an array is the write of its last key at
      the end of the rest. */
  lemma ArrayStep(root: Value, path: seq<Value>, value: Value)
    ensures Step(ArrayPaths, root, Arr([Arr(path), value])) ==
      SetPath(root, Walked(KeysOf(path)), FinalKey(KeysOf(path)), value, false)
  {
  }

  /** The final key is assigned whatever the value, `undefined` included:
      the key is then present in the object reached and the path reads the
      value. */
  lemma AssignsEvenUndefined(root: Value, path: seq<Value>, value: Value)
    requires path != []
    requires Step(ArrayPaths, root, Arr([Arr(path), value])).Ok?
    requires var reached := ReadPath(root, Walked(KeysOf(path)));
      reached.Ok? && reached.value.Obj?
    ensures var keys := KeysOf(path);
      var r := Step(ArrayPaths, root, Arr([Arr(path), value])).value;
      && ReadPath(r, Walked(keys)).Ok? && ReadPath(r, Walked(keys)).value.Obj?
      && FinalKey(keys) in ReadPath(r, Walked(keys)).value.fields
      && ReadPath(r, keys) == Ok(value)
  {
    var keys := KeysOf(path);
    ArrayStep(root, path, value);
    WalkedThenFinal(keys);
    SetPathReadsBack(root, Walked(keys), FinalKey(keys), value, false);
    SetPathTarget(root, Walked(keys), FinalKey(keys), value, false);
  }

  /** An array-path update throws exactly when following all but its last
      key throws or ends at `undefined` or `null`. */
  lemma ArrayUpdateThrows(root: Value, path: seq<Value>, value: Value)
    ensures var keys := KeysOf(path);
      var reached := ReadPath(root, Walked(keys));
      Step(ArrayPaths, root, Arr([Arr(path), value])).Err? <==>
        reached.Err? || reached.value.Undefined? || reached.value.Null?
  {
    var keys := KeysOf(path);
    ArrayStep(root, path, value);
    SetPathFails(root, Walked(keys), FinalKey(keys), value, false);
  }

  /** An empty path pops `undefined`: the root itself takes the key
      "undefined". */
  lemma EmptyPathWritesUndefinedKey(root: Fields, value: Value)
    ensures Step(ArrayPaths, Obj(root), Arr([Arr([]), value])) == Ok(Obj(root["undefined" := value]))
  {
  }

  /** Every key path that leaves the update's path reads as before. */
  lemma ArrayUpdateOffPath(root: Value, path: seq<Value>, value: Value, q: seq<string>)
    requires path != []
    requires Step(ArrayPaths, root, Arr([Arr(path), value])).Ok?
    requires Diverges(KeysOf(path), q)
    ensures ReadPath(Step(ArrayPaths, root, Arr([Arr(path), value])).value, q) == ReadPath(root, q)
  {
    var keys := KeysOf(path);
    ArrayStep(root, path, value);
    WalkedThenFinal(keys);
    SetPathOffPath(root, Walked(keys), FinalKey(keys), value, false, q);
  }
}
