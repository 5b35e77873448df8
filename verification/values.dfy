/** The JavaScript values the core passes around (JSON bodies, log payloads,
    person records), with the few coercions the source relies on: truthiness
    (`if (x)`, `!x`, `x || y`), conversion of a value to a property key
    (`obj[v]`), loose equality with a string (`v == "text"`), and object spread
    (`{...v}`). Numbers are integers here. */
module Values {
  import opened Common

  datatype Value =
    | Undefined
    | Null
    | Bool(b: bool)
    | Num(n: int)
    | Str(s: string)
    | Arr(items: seq<Value>)
    | Obj(fields: map<string, Value>)

  /** The own properties of a plain object. */
  type Fields = map<string, Value>

  /** JavaScript truthiness: `undefined`, `null`, `false`, `0` and `""` are falsy. */
  predicate Truthy(v: Value) {
    match v
    case Undefined => false
    case Null => false
    case Bool(b) => b
    case Num(n) => n != 0
    case Str(s) => s != ""
    case Arr(_) => true
    case Obj(_) => true
  }

  /** `obj.k` on a plain object: `undefined` when the key is missing. */
  function Get(f: Fields, k: string): Value {
    if k in f then f[k] else Undefined
  }

  /** `x.toLowerCase()` for ASCII letters. */
  function LowerChar(c: char): char {
    if 'A' <= c <= 'Z' then (c as int - 'A' as int + 'a' as int) as char else c
  }

  function Lower(s: string): (r: string)
    ensures |r| == |s| && forall i :: 0 <= i < |s| ==> r[i] == LowerChar(s[i])
  {
    if s == [] then [] else [LowerChar(s[0])] + Lower(s[1..])
  }

  /** `v.k` where the source does not guard `v`: reading a property of
      `undefined` or `null` throws a TypeError; an array or a string has
      its indices as properties (its `length` is not modelled); a boolean
      or a number has none. */
  function Member(v: Value, k: string): (r: Result<Value>)
    ensures r.Err? <==> v.Undefined? || v.Null?
    ensures v.Obj? ==> r == Ok(Get(v.fields, k))
  {
    match v
    case Undefined => Err("TypeError: Cannot read properties of undefined (reading '" + k + "')")
    case Null => Err("TypeError: Cannot read properties of null (reading '" + k + "')")
    case Obj(f) => Ok(Get(f, k))
    case Arr(items) =>
      var i := Slot(|items|, k);
      Ok(if i.Some? then items[i.value] else Undefined)
    case Str(s) =>
      var i := Slot(|s|, k);
      Ok(if i.Some? then Str([s[i.value]]) else Undefined)
    case _ => Ok(Undefined)
  }

  /** The index below `n` whose numeral is `k`, if any: the position an
      array or a string reads for the property key `k`. */
  function Slot(n: nat, k: string): (r: Option<nat>)
    ensures r.Some? ==> r.value < n && Decimal(r.value) == k
    ensures r.None? ==> forall i :: 0 <= i < n ==> Decimal(i) != k
  {
    if n == 0 then None
    else if Decimal(n - 1) == k then Some(n - 1)
    else Slot(n - 1, k)
  }

  /** The digit for `d` in bases up to 36: `0`-`9`, then `a`-`z`. */
  function Digit(d: nat): (c: char)
    requires d < 36
    ensures d < 10 ==> '0' <= c <= '9'
  {
    if d < 10 then ('0' as int + d) as char else ('a' as int + d - 10) as char
  }

  /** The digits of `n` in base `radix`, most significant first, with no
      leading zero. */
  function Numeral(n: nat, radix: nat): (s: string)
    requires 2 <= radix <= 36
    ensures s != []
    ensures radix <= 10 ==> '0' <= s[0] <= '9'
  {
    if n < radix then [Digit(n)]
    else Numeral(n / radix, radix) + [Digit(n % radix)]
  }

  /** `n.toString(radix)` for an integer. */
  function IntToString(n: int, radix: nat): (s: string)
    requires 2 <= radix <= 36
    ensures s != []
  {
    if n < 0 then "-" + Numeral(-n, radix) else Numeral(n, radix)
  }

  function Decimal(n: int): string {
    IntToString(n, 10)
  }

  /** `parts.join(sep)`. */
  function Join(parts: seq<string>, sep: string): string {
    if parts == [] then ""
    else if |parts| == 1 then parts[0]
    else parts[0] + sep + Join(parts[1..], sep)
  }

  /** `String(v)`, which is also the key `obj[v]` uses. */
  function Key(v: Value): string
    decreases v, 1
  {
    match v
    case Undefined => "undefined"
    case Null => "null"
    case Bool(b) => if b then "true" else "false"
    case Num(n) => Decimal(n)
    case Str(s) => s
    case Arr(items) => ItemKeys(items)
    case Obj(_) => "[object Object]"
  }

  /** `items.join(",")`, where `null` and `undefined` elements become empty
      strings. */
  function ItemKeys(items: seq<Value>): string
    decreases items, 0
  {
    if items == [] then ""
    else
      var head := if items[0].Undefined? || items[0].Null? then "" else Key(items[0]);
      if |items| == 1 then head else head + "," + ItemKeys(items[1..])
  }

  /** `v == s` with `s` a string that does not spell a number: a string
      compares by content, an object or array through its string form, a
      number through the canonical decimal form; `undefined`, `null` and
      booleans never equal such a string. */
  predicate LooseEqStr(v: Value, s: string) {
    match v
    case Str(t) => t == s
    case Num(_) => Key(v) == s
    case Arr(_) => Key(v) == s
    case Obj(_) => Key(v) == s
    case _ => false
  }

  /** Own enumerable properties of an indexed collection: keys "0", "1", ... */
  function Indexed(items: seq<Value>): Fields {
    if items == [] then map[]
    else Indexed(items[..|items| - 1])[Decimal(|items| - 1) := items[|items| - 1]]
  }

  /** The keys of an indexed collection are numerals: none of them is a
      name such as `attributes`. */
  lemma {:induction false} IndexedKeysAreNumerals(items: seq<Value>)
    ensures forall k :: k in Indexed(items) ==> k != "" && '0' <= k[0] <= '9'
  {
    if items != [] {
      IndexedKeysAreNumerals(items[..|items| - 1]);
    }
  }

  /** Spreading an array copies exactly what reading its properties gives. */
  lemma {:induction false} IndexedReadsSlots(items: seq<Value>, k: string)
    ensures Get(Indexed(items), k) == if Slot(|items|, k).Some? then items[Slot(|items|, k).value] else Undefined
  {
    if items != [] {
      var init := items[..|items| - 1];
      IndexedReadsSlots(init, k);
      if Decimal(|items| - 1) != k && Slot(|init|, k).Some? {
        assert items[Slot(|init|, k).value] == init[Slot(|init|, k).value];
      }
    }
  }

  /** `[a, b] = u`: the first two elements of an array or the first two
      characters of a string; anything else is not iterable. */
  function Destructure(u: Value): Result<(Value, Value)> {
    match u
    case Arr(xs) =>
      Ok((if |xs| > 0 then xs[0] else Undefined, if |xs| > 1 then xs[1] else Undefined))
    case Str(s) =>
      Ok((if |s| > 0 then Str([s[0]]) else Undefined, if |s| > 1 then Str([s[1]]) else Undefined))
    case _ => Err("TypeError: value is not iterable")
  }

  /** `[...v]`: an array's elements or a string's characters; anything else
      is not iterable. */
  function SpreadItems(v: Value): (r: Result<seq<Value>>)
    ensures r.Ok? <==> v.Arr? || v.Str?
    ensures v.Arr? ==> r == Ok(v.items)
    ensures v.Str? ==> |r.value| == |v.s| && forall i :: 0 <= i < |v.s| ==> r.value[i] == Str([v.s[i]])
  {
    match v
    case Arr(xs) => Ok(xs)
    case Str(s) => Ok(seq(|s|, i requires 0 <= i < |s| => Str([s[i]])))
    case _ => Err("TypeError: value is not iterable")
  }

  /** `s.split(sep)` for a one-character separator: the pieces between the
      separators, in order; an empty string gives one empty piece. */
  function Split(s: string, sep: char): (r: seq<string>)
    ensures |r| >= 1
    ensures forall i :: 0 <= i < |r| ==> sep !in r[i]
  {
    if s == [] then [""]
    else
      var rest := Split(s[1..], sep);
      if s[0] == sep then [""] + rest
      else [[s[0]] + rest[0]] + rest[1..]
  }

  /** Joining the pieces of a split with the separator gives back the string. */
  lemma {:induction false} JoinSplit(s: string, sep: char)
    ensures Join(Split(s, sep), [sep]) == s
  {
    if s != [] {
      var rest := Split(s[1..], sep);
      JoinSplit(s[1..], sep);
      if s[0] == sep {
        assert Split(s, sep) == [""] + rest;
      } else {
        var r := Split(s, sep);
        assert r == [[s[0]] + rest[0]] + rest[1..];
        if |rest| == 1 {
          assert Join(rest, [sep]) == rest[0];
        } else {
          assert Join(rest, [sep]) == rest[0] + [sep] + Join(rest[1..], [sep]);
          assert r[1..] == rest[1..];
        }
      }
    }
  }

  /** `{...v}`: an object's properties, an array's or a string's indices,
      and nothing for any other value. */
  function Spread(v: Value): Fields {
    match v
    case Obj(f) => f
    case Arr(items) => Indexed(items)
    case Str(s) => Indexed(seq(|s|, i requires 0 <= i < |s| => Str([s[i]])))
    case _ => map[]
  }

  function ErrorBody(message: string): Value {
    Obj(map["error" := Str(message)])
  }

  function OkBody(): Value {
    Obj(map["ok" := Bool(true)])
  }
}
