/** The recursive JSON cleaners that shrink API replies before they are
    returned. Two variants exist:
    - filter-then-slice (MGnify super-studies, PDBe validation): empties become
      null, nulls are dropped, arrays are cut to a depth-dependent limit;
    - slice-then-map (ChEBI): arrays are cut first and keep their nulls. */
module Cleaners {
  import opened Js

  // ---------------------------------------------------------------
  // Filter-then-slice cleaner
  // ---------------------------------------------------------------

  /** What distinguishes the copies of the filter-then-slice cleaner:
      `residueHeavy` (PDBe validation) cuts nested arrays to one element, and
      `dropImageKeys` (MGnify) removes `image_url`/`image-url` fields. */
  datatype Policy = Policy(residueHeavy: bool, dropImageKeys: bool)

  const TopLimit: nat := 3
  const NestedLimit: nat := 3
  const ResidueLimit: nat := 1

  /** The MGnify super-studies cleaner. */
  const SuperStudies: Policy := Policy(false, true)

  /** The PDBe validation cleaner for one action. */
  function Validation(residueHeavy: bool): Policy {
    Policy(residueHeavy, false)
  }

  /** The array limit at `depth`. */
  function Limit(p: Policy, depth: nat): (r: nat)
    ensures r == 1 <==> p.residueHeavy && depth > 0
    ensures r >= 1
  {
    if p.residueHeavy && depth > 0 then ResidueLimit else NestedLimit
  }

  /** A field name the cleaner keeps. */
  predicate KeptKey(p: Policy, k: string) {
    !(p.dropImageKeys && (k == "image_url" || k == "image-url"))
  }


  /** `clean(value, depth)` */
  function Clean(v: Json, depth: nat, p: Policy): (r: Json)
    ensures v.Undefined? || v == Str("") ==> r == Null
    ensures v.Null? || v.Bool? || v.Num? || (v.Str? && v.s != "") ==> r == v
    ensures r != Undefined
    decreases v
  {
    match v
    case Arr(items) =>
      var kept := CleanItems(items, depth + 1, p);
      if kept == [] then Null else Arr(kept[..Min(|kept|, Limit(p, depth))])
    case Obj(fields) =>
      var o := CleanFields(fields, depth + 1, p);
      if o == [] then Null else Obj(o)
    case Undefined => Null
    case Str(s) => if s == "" then Null else v
    case _ => v
  }

  /** `items.map((v) => clean(v, depth)).filter((v) => v !== null)` */
  function CleanItems(items: seq<Json>, depth: nat, p: Policy): (r: seq<Json>)
    ensures |r| <= |items|
    decreases items
  {
    if items == [] then []
    else
      var c := Clean(items[|items| - 1], depth, p);
      CleanItems(items[..|items| - 1], depth, p) + if c == Null then [] else [c]
  }

  /** The object the loop builds: each kept key whose cleaned value is not null. */
  function CleanFields(fields: seq<Field>, depth: nat, p: Policy): (r: seq<Field>)
    decreases fields
  {
    if fields == [] then []
    else
      var acc := CleanFields(fields[..|fields| - 1], depth, p);
      var f := fields[|fields| - 1];
      if !KeptKey(p, f.key) then acc
      else
        var c := Clean(f.value, depth, p);
        if c == Null then acc else Assign(acc, f.key, c)
  }

  /** The shape of a cleaned value at `depth`: no undefined and no empty
      string; arrays non-empty, within the limit, without nulls; objects
      non-empty, with distinct kept keys other than `__proto__` and no null
      value. */
  predicate IsClean(v: Json, depth: nat, p: Policy)
    decreases v
  {
    match v
    case Undefined => false
    case Str(s) => s != ""
    case Arr(items) =>
      && 1 <= |items| <= Limit(p, depth)
      && forall i :: 0 <= i < |items| ==> items[i] != Null && IsClean(items[i], depth + 1, p)
    case Obj(fields) =>
      && fields != []
      && DistinctKeys(fields)
      && forall i :: 0 <= i < |fields| ==>
           && KeptKey(p, fields[i].key) && fields[i].key != ProtoKey
           && fields[i].value != Null && IsClean(fields[i].value, depth + 1, p)
    case _ => true
  }

  /** Every value of a list or object is clean and not null. */
  predicate AllClean(items: seq<Json>, depth: nat, p: Policy) {
    forall i :: 0 <= i < |items| ==> items[i] != Null && IsClean(items[i], depth, p)
  }

  predicate FieldsClean(fields: seq<Field>, depth: nat, p: Policy) {
    && DistinctKeys(fields)
    && forall i :: 0 <= i < |fields| ==>
         && KeptKey(p, fields[i].key) && fields[i].key != ProtoKey
         && fields[i].value != Null && IsClean(fields[i].value, depth, p)
  }

  /** The cleaner's output always has the cleaned shape. */
  lemma {:induction false} CleanIsClean(v: Json, depth: nat, p: Policy)
    ensures IsClean(Clean(v, depth, p), depth, p)
    decreases v, 1
  {
    match v
    case Arr(items) =>
      var kept := CleanItems(items, depth + 1, p);
      CleanItemsClean(items, depth + 1, p);
    case Obj(fields) =>
      CleanFieldsClean(fields, depth + 1, p);
    case _ =>
  }

  lemma {:induction false} CleanItemsClean(items: seq<Json>, depth: nat, p: Policy)
    ensures AllClean(CleanItems(items, depth, p), depth, p)
    decreases items, 0
  {
    if items != [] {
      CleanItemsClean(items[..|items| - 1], depth, p);
      CleanIsClean(items[|items| - 1], depth, p);
    }
  }

  lemma {:induction false} CleanFieldsClean(fields: seq<Field>, depth: nat, p: Policy)
    ensures FieldsClean(CleanFields(fields, depth, p), depth, p)
    decreases fields, 0
  {
    if fields != [] {
      var acc := CleanFields(fields[..|fields| - 1], depth, p);
      var f := fields[|fields| - 1];
      CleanFieldsClean(fields[..|fields| - 1], depth, p);
      if KeptKey(p, f.key) {
        CleanIsClean(f.value, depth, p);
      }
    }
  }

  /** A value already in the cleaned shape is left as it is. */
  lemma {:induction false} CleanFixed(v: Json, depth: nat, p: Policy)
    requires IsClean(v, depth, p)
    ensures Clean(v, depth, p) == v
    decreases v, 1
  {
    if v.Arr? {
      assert AllClean(v.items, depth + 1, p);
      CleanArrFixed(v.items, depth, p);
    } else if v.Obj? {
      CleanObjFixed(v, depth, p);
    }
  }

  lemma {:induction false} CleanArrFixed(items: seq<Json>, depth: nat, p: Policy)
    requires 1 <= |items| <= Limit(p, depth) && AllClean(items, depth + 1, p)
    ensures Clean(Arr(items), depth, p) == Arr(items)
    decreases items, 1
  {
    CleanItemsFixed(items, depth + 1, p);
    assert items[..Min(|items|, Limit(p, depth))] == items;
  }

  lemma {:induction false} CleanObjFixed(v: Json, depth: nat, p: Policy)
    requires v.Obj? && IsClean(v, depth, p)
    ensures Clean(v, depth, p) == v
    decreases v, 0
  {
    assert FieldsClean(v.fields, depth + 1, p);
    CleanFieldsFixed(v.fields, depth + 1, p);
  }

  lemma {:induction false} CleanItemsFixed(items: seq<Json>, depth: nat, p: Policy)
    requires AllClean(items, depth, p)
    ensures CleanItems(items, depth, p) == items
    decreases items, 0
  {
    if items != [] {
      var init := items[..|items| - 1];
      assert AllClean(init, depth, p) by {
        forall i | 0 <= i < |init| ensures init[i] != Null && IsClean(init[i], depth, p) {
          assert init[i] == items[i];
        }
      }
      CleanItemsFixed(init, depth, p);
      CleanFixed(items[|items| - 1], depth, p);
      assert init + [items[|items| - 1]] == items;
    }
  }

  lemma {:induction false} CleanFieldsFixed(fields: seq<Field>, depth: nat, p: Policy)
    requires FieldsClean(fields, depth, p)
    ensures CleanFields(fields, depth, p) == fields
    decreases fields, 0
  {
    if fields != [] {
      var init := fields[..|fields| - 1];
      var f := fields[|fields| - 1];
      assert FieldsClean(init, depth, p) by {
        forall i | 0 <= i < |init|
          ensures && KeptKey(p, init[i].key) && init[i].key != ProtoKey
                  && init[i].value != Null && IsClean(init[i].value, depth, p)
        {
          assert init[i] == fields[i];
        }
      }
      CleanFieldsFixed(init, depth, p);
      CleanFixed(f.value, depth, p);
      assert KeptKey(p, f.key) && f.value != Null;
      AssignLast(fields);
    }
  }

  /** A `__proto__` field, which parsing keeps as an own key, is not copied:
      assigning it runs the prototype setter, so an object holding only that
      field cleans to null in both cleaners. */
  lemma ProtoKeyDropped(v: Json, depth: nat, p: Policy, limit: nat)
    ensures Clean(Obj([Field(ProtoKey, v)]), depth, p) == Null
    ensures ChebiClean(Obj([Field(ProtoKey, v)]), limit) == Null
  {
    var fs := [Field(ProtoKey, v)];
    assert fs[..|fs| - 1] == [] && fs[|fs| - 1] == Field(ProtoKey, v);
    assert !HasKey([], ProtoKey);
    var c := Clean(v, depth + 1, p);
    assert CleanFields(fs, depth + 1, p) == (if c == Null then [] else Assign([], ProtoKey, c));
    var d := ChebiClean(v, limit);
    assert ChebiFields(fs, limit) == (if d == Null || d == Undefined then [] else Assign([], ProtoKey, d));
  }

  /** Cleaning twice at the same depth is cleaning once. */
  lemma CleanIdempotent(v: Json, depth: nat, p: Policy)
    ensures Clean(Clean(v, depth, p), depth, p) == Clean(v, depth, p)
  {
    CleanIsClean(v, depth, p);
    CleanFixed(Clean(v, depth, p), depth, p);
  }

  /** The cleaner as the handlers run it: a recursive walk whose object case
      fills a fresh object key by key. */
  method CleanValue(v: Json, depth: nat, p: Policy) returns (r: Json)
    ensures r == Clean(v, depth, p)
    decreases v
  {
    match v {
      case Arr(items) =>
        var kept: seq<Json> := [];
        var i := 0;
        while i < |items|
          invariant 0 <= i <= |items|
          invariant kept == CleanItems(items[..i], depth + 1, p)
        {
          var c := CleanValue(items[i], depth + 1, p);
          assert items[..i + 1][..i] == items[..i];
          if c != Null {
            kept := kept + [c];
          }
          i := i + 1;
        }
        assert items[..|items|] == items;
        var limit := Limit(p, depth);
        r := if |kept| > 0 then Arr(kept[..Min(|kept|, limit)]) else Null;
      case Obj(fields) =>
        var obj: seq<Field> := [];
        var i := 0;
        while i < |fields|
          invariant 0 <= i <= |fields|
          invariant obj == CleanFields(fields[..i], depth + 1, p)
        {
          var f := fields[i];
          assert fields[..i + 1][..i] == fields[..i];
          if KeptKey(p, f.key) {
            var c := CleanValue(f.value, depth + 1, p);
            if c != Null {
              obj := Assign(obj, f.key, c);
            }
          }
          i := i + 1;
        }
        assert fields[..|fields|] == fields;
        r := if |obj| > 0 then Obj(obj) else Null;
      case Undefined =>
        r := Null;
      case Str(s) =>
        r := if s == "" then Null else v;
      case _ =>
        r := v;
    }
  }

  /** One top-level item of a handler's reply, `{id, payload}`. */
  datatype Item = Item(id: string, payload: Json)

  /** `items.map(({id, payload}) => ({id, payload: clean(payload, 0)})).filter((x) => x.payload !== null)` */
  function CleanKept(items: seq<Item>, p: Policy): (r: seq<Item>)
    ensures |r| <= |items|
  {
    if items == [] then []
    else
      var x := items[|items| - 1];
      var c := Clean(x.payload, 0, p);
      CleanKept(items[..|items| - 1], p) + if c == Null then [] else [Item(x.id, c)]
  }

  /** The handlers' top-level pipeline: clean, drop null payloads, keep the first `TopLimit`. */
  function CleanTop(items: seq<Item>, p: Policy): seq<Item> {
    var kept := CleanKept(items, p);
    kept[..Min(|kept|, TopLimit)]
  }

  /** `.map(({id, payload}) => ({id, payload: clean(payload, 0)}))` */
  function CleanEach(items: seq<Item>, p: Policy): (r: seq<Item>)
    ensures |r| == |items|
  {
    seq(|items|, i requires 0 <= i < |items| => Item(items[i].id, Clean(items[i].payload, 0, p)))
  }

  /** `.filter((x) => x.payload !== null)`: the items with a non-null payload, in order. */
  function NonNull(items: seq<Item>): (r: seq<Item>)
    ensures |r| <= |items|
    ensures forall y <- r :: y.payload != Null && y in items
    ensures forall x <- items :: x.payload != Null ==> x in r
  {
    if items == [] then []
    else NonNull(items[..|items| - 1]) + (if items[|items| - 1].payload == Null then [] else [items[|items| - 1]])
  }

  /** The kept items are exactly the cleaned items whose payload is not null,
      in input order; each is an input item with its payload cleaned into the
      cleaned shape. */
  lemma {:induction false} CleanKeptSpec(items: seq<Item>, p: Policy)
    ensures CleanKept(items, p) == NonNull(CleanEach(items, p))
    ensures forall y <- CleanKept(items, p) ::
      && y.payload != Null
      && IsClean(y.payload, 0, p)
      && exists x <- items :: y == Item(x.id, Clean(x.payload, 0, p))
  {
    if items != [] {
      var init := items[..|items| - 1];
      var x := items[|items| - 1];
      var each := CleanEach(items, p);
      CleanKeptSpec(init, p);
      CleanIsClean(x.payload, 0, p);
      assert each[..|items| - 1] == CleanEach(init, p);
      assert each[|items| - 1] == Item(x.id, Clean(x.payload, 0, p));
      forall y <- CleanKept(items, p)
        ensures exists x' <- items :: y == Item(x'.id, Clean(x'.payload, 0, p))
      {
        if y in CleanKept(init, p) {
          var x' :| x' in init && y == Item(x'.id, Clean(x'.payload, 0, p));
          assert x' in items;
        } else {
          assert x in items;
        }
      }
    }
  }

  /** The first `TopLimit` of the kept items, in order: at most three items,
      each a cleaned input item with a non-null payload. */
  lemma CleanTopSpec(items: seq<Item>, p: Policy)
    ensures var kept := NonNull(CleanEach(items, p));
      && CleanTop(items, p) == kept[..Min(|kept|, TopLimit)]
      && |CleanTop(items, p)| == Min(|kept|, TopLimit)
    ensures forall y <- CleanTop(items, p) ::
      && y.payload != Null
      && IsClean(y.payload, 0, p)
      && exists x <- items :: y == Item(x.id, Clean(x.payload, 0, p))
  {
    CleanKeptSpec(items, p);
    var kept := CleanKept(items, p);
    forall y <- CleanTop(items, p) ensures y in kept {
      var j :| 0 <= j < |CleanTop(items, p)| && CleanTop(items, p)[j] == y;
      assert kept[j] == y;
    }
  }

  // ---------------------------------------------------------------
  // Slice-then-map cleaner (ChEBI)
  // ---------------------------------------------------------------

  const ChebiDefaultLimit: nat := 5

  /** ChEBI's `clean(value, limit)` */
  function ChebiClean(v: Json, limit: nat): (r: Json)
    ensures v.Arr? ==> r.Arr? && |r.items| == Min(|v.items|, limit)
    ensures v.Undefined? ==> r == Null
    ensures !v.Arr? && !v.Obj? && !v.Undefined? ==> r == v
    ensures r != Undefined
    decreases v
  {
    match v
    case Arr(items) => Arr(ChebiItems(items, Min(|items|, limit), limit))
    case Obj(fields) =>
      var o := ChebiFields(fields, limit);
      if o == [] then Null else Obj(o)
    case Undefined => Null
    case _ => v
  }

  /** `value.slice(0, limit).map((v) => clean(v, limit))`: the first `n` elements, cleaned. */
  function ChebiItems(items: seq<Json>, n: nat, limit: nat): (r: seq<Json>)
    requires n <= |items|
    ensures |r| == n
    ensures forall i :: 0 <= i < n ==> r[i] == ChebiClean(items[i], limit)
    decreases items, n
  {
    if n == 0 then [] else ChebiItems(items, n - 1, limit) + [ChebiClean(items[n - 1], limit)]
  }

  /** The object the loop builds: each key whose cleaned value is not null. */
  function ChebiFields(fields: seq<Field>, limit: nat): (r: seq<Field>)
    decreases fields
  {
    if fields == [] then []
    else
      var acc := ChebiFields(fields[..|fields| - 1], limit);
      var f := fields[|fields| - 1];
      var c := ChebiClean(f.value, limit);
      if c == Null || c == Undefined then acc else Assign(acc, f.key, c)
  }

  /** The shape of a ChEBI-cleaned value: no undefined anywhere, every array
      within `limit` (nulls allowed), objects non-empty with distinct keys
      other than `__proto__` and no null value. */
  predicate IsChebiClean(v: Json, limit: nat)
    decreases v
  {
    match v
    case Undefined => false
    case Arr(items) => |items| <= limit && forall i :: 0 <= i < |items| ==> IsChebiClean(items[i], limit)
    case Obj(fields) =>
      && fields != []
      && DistinctKeys(fields)
      && forall i :: 0 <= i < |fields| ==>
           fields[i].key != ProtoKey && fields[i].value != Null && IsChebiClean(fields[i].value, limit)
    case _ => true
  }

  predicate ChebiFieldsClean(fields: seq<Field>, limit: nat) {
    && DistinctKeys(fields)
    && forall i :: 0 <= i < |fields| ==>
         fields[i].key != ProtoKey && fields[i].value != Null && IsChebiClean(fields[i].value, limit)
  }

  /** The output has the ChEBI-cleaned shape: the same limit holds at every depth. */
  lemma {:induction false} ChebiCleanIsClean(v: Json, limit: nat)
    ensures IsChebiClean(ChebiClean(v, limit), limit)
    decreases v, 1
  {
    match v
    case Arr(items) =>
      var r := ChebiClean(v, limit);
      forall i | 0 <= i < |r.items| ensures IsChebiClean(r.items[i], limit) {
        ChebiCleanIsClean(items[i], limit);
      }
    case Obj(fields) =>
      ChebiFieldsIsClean(fields, limit);
    case _ =>
  }

  lemma {:induction false} ChebiFieldsIsClean(fields: seq<Field>, limit: nat)
    ensures ChebiFieldsClean(ChebiFields(fields, limit), limit)
    decreases fields, 0
  {
    if fields != [] {
      var f := fields[|fields| - 1];
      var c := ChebiClean(f.value, limit);
      ChebiFieldsIsClean(fields[..|fields| - 1], limit);
      ChebiCleanIsClean(f.value, limit);
      if c != Null {
        AssignChebiClean(ChebiFields(fields[..|fields| - 1], limit), f.key, c, limit);
      }
    }
  }

  /** Assigning a ChEBI-clean value keeps the fields ChEBI-clean. */
  lemma AssignChebiClean(acc: seq<Field>, k: string, c: Json, limit: nat)
    requires ChebiFieldsClean(acc, limit) && c != Null && IsChebiClean(c, limit)
    ensures ChebiFieldsClean(Assign(acc, k, c), limit)
  {
    var r := Assign(acc, k, c);
    if HasKey(acc, k) {
      assert r == SetField(acc, k, c);
      forall i | 0 <= i < |r|
        ensures r[i].key != ProtoKey && r[i].value != Null && IsChebiClean(r[i].value, limit)
      {
        assert r[i].key == acc[i].key;
      }
    } else if k != ProtoKey {
      assert r == acc + [Field(k, c)];
      forall i | 0 <= i < |r|
        ensures r[i].key != ProtoKey && r[i].value != Null && IsChebiClean(r[i].value, limit)
      {
        if i < |acc| { assert r[i] == acc[i]; }
      }
      forall i, j | 0 <= i < j < |r| ensures r[i].key != r[j].key {
        if j == |acc| { assert r[i] == acc[i]; } else { assert r[i] == acc[i] && r[j] == acc[j]; }
      }
    }
  }

  /** A value in the ChEBI-cleaned shape is left as it is. */
  lemma {:induction false} ChebiFixed(v: Json, limit: nat)
    requires IsChebiClean(v, limit)
    ensures ChebiClean(v, limit) == v
    decreases v, 1
  {
    match v
    case Arr(items) =>
      var r := ChebiClean(v, limit).items;
      forall i | 0 <= i < |items| ensures r[i] == items[i] {
        ChebiFixed(items[i], limit);
      }
    case Obj(fields) =>
      ChebiFieldsFixed(fields, limit);
    case _ =>
  }

  lemma {:induction false} ChebiFieldsFixed(fields: seq<Field>, limit: nat)
    requires ChebiFieldsClean(fields, limit)
    ensures ChebiFields(fields, limit) == fields
    decreases fields, 0
  {
    if fields != [] {
      var init := fields[..|fields| - 1];
      var f := fields[|fields| - 1];
      assert ChebiFieldsClean(init, limit) by {
        forall i | 0 <= i < |init|
          ensures init[i].key != ProtoKey && init[i].value != Null && IsChebiClean(init[i].value, limit)
        {
          assert init[i] == fields[i];
        }
      }
      ChebiFieldsFixed(init, limit);
      ChebiFixed(f.value, limit);
      assert f.value != Null && f.value != Undefined;
      AssignLast(fields);
    }
  }

  /** Cleaning twice with the same limit is cleaning once. */
  lemma ChebiIdempotent(v: Json, limit: nat)
    ensures ChebiClean(ChebiClean(v, limit), limit) == ChebiClean(v, limit)
  {
    ChebiCleanIsClean(v, limit);
    ChebiFixed(ChebiClean(v, limit), limit);
  }

  /** ChEBI's cleaner as it runs: slice, map, and a key-by-key object loop. */
  method ChebiCleanValue(v: Json, limit: nat) returns (r: Json)
    ensures r == ChebiClean(v, limit)
    decreases v
  {
    match v {
      case Arr(items) =>
        var n := Min(|items|, limit);
        var out: seq<Json> := [];
        var i := 0;
        while i < n
          invariant 0 <= i <= n
          invariant out == ChebiItems(items, i, limit)
        {
          var c := ChebiCleanValue(items[i], limit);
          out := out + [c];
          i := i + 1;
        }
        r := Arr(out);
      case Obj(fields) =>
        var o: seq<Field> := [];
        var i := 0;
        while i < |fields|
          invariant 0 <= i <= |fields|
          invariant o == ChebiFields(fields[..i], limit)
        {
          var c := ChebiCleanValue(fields[i].value, limit);
          assert fields[..i + 1][..i] == fields[..i];
          if c != Null && c != Undefined {
            o := Assign(o, fields[i].key, c);
          }
          i := i + 1;
        }
        assert fields[..|fields|] == fields;
        r := if |o| > 0 then Obj(o) else Null;
      case Undefined =>
        r := Null;
      case _ =>
        r := v;
    }
  }
}
