/** JavaScript values as the handlers see them after `res.json()`, and the few
    built-in operations on them the handlers rely on (truthiness, `??`,
    property reads, `Object.entries`, `String(...)`). */
module Js {

  /** A JS value. Objects keep their fields in `Object.entries` order.
      Numbers are integers (fractions are not modelled). */
  datatype Json =
    | Undefined
    | Null
    | Bool(b: bool)
    | Num(n: int)
    | Str(s: string)
    | Arr(items: seq<Json>)
    | Obj(fields: seq<Field>)

  datatype Field = Field(key: string, value: Json)

  /** A computation that either returns a value or throws an `Error` with a message. */
  datatype Result<T> = Ok(value: T) | Err(message: string)

  datatype Option<T> = None | Some(value: T)

  const TypeErrorMessage: string := "TypeError: cannot read properties of null or undefined"

  /** `v === null || v === undefined` */
  predicate IsNullish(v: Json) {
    v.Undefined? || v.Null?
  }

  /** `!!v` */
  predicate IsTruthy(v: Json) {
    match v
    case Undefined => false
    case Null => false
    case Bool(b) => b
    case Num(n) => n != 0
    case Str(s) => s != ""
    case Arr(_) => true
    case Obj(_) => true
  }

  /** `v ?? d` */
  function Coalesce(v: Json, d: Json): (r: Json)
    ensures IsNullish(v) ==> r == d
    ensures !IsNullish(v) ==> r == v
  {
    if IsNullish(v) then d else v
  }

  /** `typeof v === "object"` for a non-null value (arrays are objects). */
  predicate IsObjectLike(v: Json) {
    v.Arr? || v.Obj?
  }

  /** The value of key `k` among `fields`, or `undefined`. */
  function Lookup(fields: seq<Field>, k: string): (r: Json)
    ensures r != Undefined ==> exists i :: 0 <= i < |fields| && fields[i] == Field(k, r)
    ensures (forall i :: 0 <= i < |fields| ==> fields[i].key != k) ==> r == Undefined
  {
    if fields == [] then Undefined
    else if fields[0].key == k then fields[0].value
    else Lookup(fields[1..], k)
  }

  /** `v.k`: throws on `null`/`undefined`; arrays and strings answer only `length`. */
  function Prop(v: Json, k: string): (r: Result<Json>)
    ensures r.Err? <==> IsNullish(v)
  {
    match v
    case Undefined => Err(TypeErrorMessage)
    case Null => Err(TypeErrorMessage)
    case Obj(fields) => Ok(Lookup(fields, k))
    case Arr(items) => Ok(if k == "length" then Num(|items|) else Undefined)
    case Str(s) => Ok(if k == "length" then Num(|s|) else Undefined)
    case _ => Ok(Undefined)
  }

  /** `v?.k` */
  function Get(v: Json, k: string): (r: Json)
    ensures IsNullish(v) ==> r == Undefined
    ensures v.Obj? ==> r == Lookup(v.fields, k)
  {
    if IsNullish(v) then Undefined else Prop(v, k).value
  }

  /** The decimal digits of a natural number. */
  function Digits(n: nat): (r: string)
    ensures |r| >= 1
    ensures forall i :: 0 <= i < |r| ==> '0' <= r[i] <= '9'
    decreases n
  {
    if n < 10 then [(n + '0' as int) as char]
    else Digits(n / 10) + [((n % 10) + '0' as int) as char]
  }

  /** `String(n)` for an integer. */
  function Decimal(n: int): string {
    if n < 0 then "-" + Digits(-n) else Digits(n)
  }

  /** `Object.entries(v)`: own fields of an object, index-keyed elements of an
      array or characters of a string, nothing for other values. */
  function Entries(v: Json): (r: seq<Field>)
    ensures v.Obj? ==> r == v.fields
    ensures v.Arr? ==> |r| == |v.items|
    ensures !v.Obj? && !v.Arr? && !v.Str? ==> r == []
  {
    match v
    case Obj(fields) => fields
    case Arr(items) => seq(|items|, i requires 0 <= i < |items| => Field(Decimal(i), items[i]))
    case Str(s) => seq(|s|, i requires 0 <= i < |s| => Field(Decimal(i), Str([s[i]])))
    case _ => []
  }

  /** `v?.[i]` */
  function Index(v: Json, i: nat): Json {
    match v
    case Arr(items) => if i < |items| then items[i] else Undefined
    case Str(s) => if i < |s| then Str([s[i]]) else Undefined
    case Obj(fields) => Lookup(fields, Decimal(i))
    case _ => Undefined
  }

  /** `xs.join(sep)` over strings. */
  function Join(xs: seq<string>, sep: string): (r: string)
    ensures xs == [] ==> r == ""
    ensures |xs| == 1 ==> r == xs[0]
  {
    if xs == [] then ""
    else if |xs| == 1 then xs[0]
    else xs[0] + sep + Join(xs[1..], sep)
  }

  /** `String(v)` */
  function ToStr(v: Json): string {
    match v
    case Undefined => "undefined"
    case Null => "null"
    case Bool(b) => if b then "true" else "false"
    case Num(n) => Decimal(n)
    case Str(s) => s
    case Arr(items) => Join(ArrayElementStrings(items), ",")
    case Obj(_) => "[object Object]"
  }

  /** The element strings `Array.prototype.join` uses: "" for null and undefined. */
  function ArrayElementStrings(items: seq<Json>): (r: seq<string>)
    ensures |r| == |items|
    decreases items
  {
    if items == [] then []
    else [if IsNullish(items[0]) then "" else ToStr(items[0])] + ArrayElementStrings(items[1..])
  }

  /** `s.includes(sub)` */
  predicate Contains(s: string, sub: string)
    decreases |s|
  {
    StartsWith(s, sub) || (s != [] && Contains(s[1..], sub))
  }

  /** `s.includes(c)` for a single character, decided by a scan. */
  function HasChar(s: string, c: char): (r: bool)
    ensures r <==> c in s
  {
    if s == [] then false else s[0] == c || HasChar(s[1..], c)
  }

  /** `s.startsWith(p)` */
  predicate StartsWith(s: string, p: string) {
    |p| <= |s| && s[..|p|] == p
  }

  /** The number of values in `v`, counting `v` itself; decreases toward the leaves. */
  function Size(v: Json): (r: nat)
    ensures r >= 1
    ensures v.Arr? ==> r == 1 + SizeOfItems(v.items)
    ensures v.Obj? ==> r == 1 + SizeOfFields(v.fields)
  {
    match v
    case Arr(items) => 1 + SizeOfItems(items)
    case Obj(fields) => 1 + SizeOfFields(fields)
    case _ => 1
  }

  /** The summed size of a list of values, peeled from the back. */
  function SizeOfItems(items: seq<Json>): (r: nat)
    ensures items != [] ==> r == SizeOfItems(items[..|items| - 1]) + Size(items[|items| - 1])
    decreases items
  {
    if items == [] then 0 else SizeOfItems(items[..|items| - 1]) + Size(items[|items| - 1])
  }

  function SizeOfFields(fields: seq<Field>): nat
    decreases fields
  {
    if fields == [] then 0 else Size(fields[0].value) + SizeOfFields(fields[1..])
  }

  /** A field value is smaller than the fields holding it. */
  lemma {:induction false} LookupSize(fields: seq<Field>, k: string)
    requires Lookup(fields, k) != Undefined
    ensures Size(Lookup(fields, k)) <= SizeOfFields(fields)
  {
    if fields[0].key != k {
      LookupSize(fields[1..], k);
    }
  }

  /** Replace the value of every field named `k` (`obj.k = v`, `{...obj, k: v}`
      on an object that has the key). */
  function SetField(fields: seq<Field>, k: string, v: Json): (r: seq<Field>)
    ensures |r| == |fields|
    ensures forall i :: 0 <= i < |r| ==> r[i].key == fields[i].key
    ensures forall i :: 0 <= i < |r| ==> r[i].value == if fields[i].key == k then v else fields[i].value
    ensures forall k' :: k' != k ==> Lookup(r, k') == Lookup(fields, k')
    ensures Lookup(fields, k) != Undefined ==> Lookup(r, k) == v
  {
    if fields == [] then []
    else [if fields[0].key == k then Field(k, v) else fields[0]] + SetField(fields[1..], k, v)
  }

  /** Drop every field named `k` (`const {k, ...rest} = obj`). */
  function RemoveField(fields: seq<Field>, k: string): (r: seq<Field>)
    ensures forall i :: 0 <= i < |r| ==> r[i].key != k
    ensures forall k' :: k' != k ==> Lookup(r, k') == Lookup(fields, k')
  {
    if fields == [] then []
    else if fields[0].key == k then RemoveField(fields[1..], k)
    else [fields[0]] + RemoveField(fields[1..], k)
  }

  /** Some field is named `k`. */
  predicate HasKey(fields: seq<Field>, k: string) {
    exists i :: 0 <= i < |fields| && fields[i].key == k
  }

  /** No two fields share a name (as in every parsed or built object). */
  predicate DistinctKeys(fields: seq<Field>) {
    forall i, j :: 0 <= i < j < |fields| ==> fields[i].key != fields[j].key
  }

  function Min(a: nat, b: nat): nat { if a < b then a else b }

  /** The key whose assignment runs the inherited `Object.prototype` setter. */
  const ProtoKey: string := "__proto__"

  /** `obj[k] = v`: an existing own key keeps its place; `__proto__` that is
      not an own key goes to the prototype setter and adds no own key; any
      other new key goes last. */
  function Assign(fields: seq<Field>, k: string, v: Json): (r: seq<Field>)
    ensures HasKey(fields, k) ==> r == SetField(fields, k, v)
    ensures !HasKey(fields, k) && k == ProtoKey ==> r == fields
    ensures !HasKey(fields, k) && k != ProtoKey ==> r == fields + [Field(k, v)]
  {
    if HasKey(fields, k) then SetField(fields, k, v)
    else if k == ProtoKey then fields
    else fields + [Field(k, v)]
  }

  /** Assigning the last field of an object with distinct keys to the
      object without it gives the object back. */
  lemma AssignLast(fields: seq<Field>)
    requires fields != [] && DistinctKeys(fields) && fields[|fields| - 1].key != ProtoKey
    ensures var f := fields[|fields| - 1];
      Assign(fields[..|fields| - 1], f.key, f.value) == fields
  {
    var init := fields[..|fields| - 1];
    var f := fields[|fields| - 1];
    assert !HasKey(init, f.key) by {
      forall i | 0 <= i < |init| ensures init[i].key != f.key {
        assert init[i] == fields[i];
      }
    }
    assert fields == init + [f];
  }
}
