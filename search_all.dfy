/** Search across all EBI domains (`EBISearchAllHandler`) and the post-processing
    of the domain hierarchy it returns: depth pruning, zero-hit removal and
    preorder flattening. Tree nodes are JSON objects whose children, when
    present, are the array under `subdomains`. */
module SearchAll {
  import opened Js
  import opened Net

  /** The children of a node: its `subdomains` array, or nothing. Only an
      object can carry a `subdomains` property. */
  predicate HasChildren(node: Json) {
    node.Obj? && Lookup(node.fields, "subdomains").Arr?
  }

  function Children(node: Json): (r: seq<Json>)
    ensures SizeOfItems(r) < Size(node)
  {
    if HasChildren(node) then
      LookupSize(node.fields, "subdomains");
      Lookup(node.fields, "subdomains").items
    else []
  }

  /** Each element of a list is no larger than the whole list. */
  lemma {:induction false} ItemSize(items: seq<Json>, i: int)
    requires 0 <= i < |items|
    ensures Size(items[i]) <= SizeOfItems(items)
    decreases |items|
  {
    if i < |items| - 1 {
      ItemSize(items[..|items| - 1], i);
    }
  }

  // ---------------------------------------------------------------
  // removeZeroHits
  // ---------------------------------------------------------------

  /** `removeZeroHits(node)`: null for a node whose `hitCount` is 0; otherwise
      the node with its `subdomains` array replaced by the cleaned children
      that are truthy. Reading `hitCount` of a null node throws. */
  function RemoveZeroHits(node: Json): (r: Result<Json>)
    ensures IsNullish(node) ==> r.Err?
    ensures r.Ok? ==> (r.value == Null <==> Get(node, "hitCount") == Num(0))
    ensures r.Ok? && r.value != Null ==> NoZeroHits(r.value)
    decreases Size(node), 0
  {
    if IsNullish(node) then Err(TypeErrorMessage)
    else if Get(node, "hitCount") == Num(0) then Ok(Null)
    else if HasChildren(node) then
      var kids := RemoveAllZeroHits(Children(node));
      if kids.Err? then Err(kids.message)
      else
        var n := Obj(SetField(node.fields, "subdomains", Arr(kids.value)));
        assert Children(n) == kids.value;
        assert Get(n, "hitCount") == Get(node, "hitCount");
        Ok(n)
    else Ok(node)
  }

  /** `items.map(removeZeroHits).filter(Boolean)` */
  function RemoveAllZeroHits(items: seq<Json>): (r: Result<seq<Json>>)
    ensures r.Ok? ==> |r.value| <= |items| && NoZeroHitsAll(r.value)
    decreases SizeOfItems(items), 1
  {
    if items == [] then Ok([])
    else
      var init := RemoveAllZeroHits(items[..|items| - 1]);
      if init.Err? then init
      else
        var last := RemoveZeroHits(items[|items| - 1]);
        if last.Err? then Err(last.message)
        else if IsTruthy(last.value) then Ok(init.value + [last.value])
        else init
  }

  /** What `removeZeroHits` keeps: a node it does not drop is truthy exactly
      when the node itself is; a node without a `subdomains` array comes back
      unchanged; otherwise every key but `subdomains` is unchanged and
      `subdomains` holds the cleaned children. */
  lemma RemoveZeroHitsKeeps(node: Json)
    requires RemoveZeroHits(node).Ok?
    ensures var r := RemoveZeroHits(node).value;
      && (IsTruthy(r) <==> Get(node, "hitCount") != Num(0) && IsTruthy(node))
      && (r != Null && !HasChildren(node) ==> r == node)
      && (r != Null && HasChildren(node) ==>
            && r.Obj?
            && (forall k :: k != "subdomains" ==> Lookup(r.fields, k) == Lookup(node.fields, k))
            && RemoveAllZeroHits(Children(node)).Ok?
            && Lookup(r.fields, "subdomains") == Arr(RemoveAllZeroHits(Children(node)).value))
  {
    if Get(node, "hitCount") != Num(0) && HasChildren(node) {
      var kids := RemoveAllZeroHits(Children(node)).value;
      assert Lookup(node.fields, "subdomains") != Undefined;
      assert RemoveZeroHits(node).value == Obj(SetField(node.fields, "subdomains", Arr(kids)));
    }
  }

  /** `xs.filter(Boolean)`: the truthy values, in order. */
  function Truthy(xs: seq<Json>): (r: seq<Json>)
    ensures |r| <= |xs|
    ensures forall x <- r :: IsTruthy(x) && x in xs
    ensures forall x <- xs :: IsTruthy(x) ==> x in r
  {
    if xs == [] then []
    else Truthy(xs[..|xs| - 1]) + (if IsTruthy(xs[|xs| - 1]) then [xs[|xs| - 1]] else [])
  }

  /** `items.map(removeZeroHits)`, with the value of each call that returns. */
  function CleanedEach(items: seq<Json>): (r: seq<Json>)
    ensures |r| == |items|
  {
    seq(|items|, i requires 0 <= i < |items| =>
      var c := RemoveZeroHits(items[i]); if c.Ok? then c.value else Null)
  }

  lemma CleanedEachInit(items: seq<Json>)
    requires items != []
    ensures CleanedEach(items)[..|items| - 1] == CleanedEach(items[..|items| - 1])
    ensures CleanedEach(items)[|items| - 1] ==
      var c := RemoveZeroHits(items[|items| - 1]); if c.Ok? then c.value else Null
  {
  }

  /** `removeZeroHits` over a list returns exactly when every call returns. */
  lemma {:induction false} RemoveAllZeroHitsOk(items: seq<Json>)
    ensures RemoveAllZeroHits(items).Ok? <==> forall i :: 0 <= i < |items| ==> RemoveZeroHits(items[i]).Ok?
    decreases |items|
  {
    if items != [] {
      var n := |items|;
      var init := items[..n - 1];
      RemoveAllZeroHitsOk(init);
      if RemoveAllZeroHits(items).Ok? {
        forall i | 0 <= i < n ensures RemoveZeroHits(items[i]).Ok? {
          if i < n - 1 {
            assert items[i] == init[i];
          }
        }
      } else if RemoveAllZeroHits(init).Err? {
        var j :| 0 <= j < n - 1 && RemoveZeroHits(init[j]).Err?;
        assert items[j] == init[j];
      } else {
        assert RemoveZeroHits(items[n - 1]).Err?;
      }
    }
  }

  /** `removeZeroHits` over a list is the map followed by the truthy filter:
      it returns exactly when every call returns, and then it keeps, in
      order, exactly the truthy cleaned nodes. */
  lemma {:induction false} RemoveAllZeroHitsFilter(items: seq<Json>)
    ensures RemoveAllZeroHits(items).Ok? <==> forall i :: 0 <= i < |items| ==> RemoveZeroHits(items[i]).Ok?
    ensures RemoveAllZeroHits(items).Ok? ==> RemoveAllZeroHits(items).value == Truthy(CleanedEach(items))
    decreases |items|
  {
    RemoveAllZeroHitsOk(items);
    if items != [] && RemoveAllZeroHits(items).Ok? {
      var n := |items|;
      var init := items[..n - 1];
      var ce := CleanedEach(items);
      RemoveAllZeroHitsFilter(init);
      CleanedEachInit(items);
      RemoveAllZeroHitsLast(items);
      assert Truthy(ce) == Truthy(ce[..n - 1]) + (if IsTruthy(ce[n - 1]) then [ce[n - 1]] else []);
    }
  }

  /** One step of the list removal: the kept prefix, then the last cleaned
      node when it is truthy. */
  lemma RemoveAllZeroHitsLast(items: seq<Json>)
    requires items != [] && RemoveAllZeroHits(items).Ok?
    ensures var n := |items|;
      var last := CleanedEach(items)[n - 1];
      && RemoveAllZeroHits(items[..n - 1]).Ok?
      && RemoveAllZeroHits(items).value ==
           RemoveAllZeroHits(items[..n - 1]).value + (if IsTruthy(last) then [last] else [])
  {
    CleanedEachInit(items);
  }

  /** No node of the tree has `hitCount` 0, and every child is truthy. */
  predicate NoZeroHits(node: Json)
    decreases Size(node), 0
  {
    Get(node, "hitCount") != Num(0) && NoZeroHitsAll(Children(node))
  }

  predicate NoZeroHitsAll(items: seq<Json>)
    decreases SizeOfItems(items), 1
  {
    items != [] ==>
      && NoZeroHitsAll(items[..|items| - 1])
      && IsTruthy(items[|items| - 1])
      && NoZeroHits(items[|items| - 1])
  }

  // ---------------------------------------------------------------
  // pruneTree
  // ---------------------------------------------------------------

  function Max(a: int, b: int): int { if a < b then b else a }

  /** How many `subdomains` levels hang below a node. */
  function SubDepth(node: Json): (r: nat)
    decreases Size(node), 0
  {
    if HasChildren(node) then 1 + SubDepthAll(Children(node)) else 0
  }

  function SubDepthAll(items: seq<Json>): nat
    decreases SizeOfItems(items), 1
  {
    if items == [] then 0
    else Max(SubDepthAll(items[..|items| - 1]), SubDepth(items[|items| - 1]))
  }

  /** `pruneTree(node, depth)`: at depth 0 or below, or without a `subdomains`
      array, the node's own entries without `subdomains`; otherwise a copy
      whose children are pruned at `depth - 1`. Destructuring null throws. */
  function PruneTree(node: Json, depth: int): (r: Result<Json>)
    ensures IsNullish(node) ==> r.Err?
    ensures r.Ok? ==> r.value.Obj? && SubDepth(r.value) <= Max(depth, 0)
    ensures r.Ok? && node.Obj? ==>
      forall k :: k != "subdomains" ==> Lookup(r.value.fields, k) == Lookup(node.fields, k)
    ensures r.Ok? && (depth <= 0 || !HasChildren(node)) ==> Lookup(r.value.fields, "subdomains") == Undefined
    decreases Size(node), 0
  {
    if IsNullish(node) then Err(TypeErrorMessage)
    else if depth <= 0 || !HasChildren(node) then
      var rest := RemoveField(Entries(node), "subdomains");
      assert !HasChildren(Obj(rest));
      Ok(Obj(rest))
    else
      var kids := PruneAll(Children(node), depth - 1);
      if kids.Err? then Err(kids.message)
      else Ok(Obj(SetField(node.fields, "subdomains", Arr(kids.value))))
  }

  /** `items.map((s) => pruneTree(s, depth))` */
  function PruneAll(items: seq<Json>, depth: int): (r: Result<seq<Json>>)
    ensures r.Ok? ==> |r.value| == |items| && SubDepthAll(r.value) <= Max(depth, 0)
    decreases SizeOfItems(items), 1
  {
    if items == [] then Ok([])
    else
      var init := PruneAll(items[..|items| - 1], depth);
      if init.Err? then init
      else
        var last := PruneTree(items[|items| - 1], depth);
        if last.Err? then Err(last.message)
        else
          assert (init.value + [last.value])[..|init.value|] == init.value;
          Ok(init.value + [last.value])
  }

  /** Above depth 0, a node with a `subdomains` array keeps it, holding its
      children pruned one level shallower. */
  lemma PruneTreeKeeps(node: Json, depth: int)
    requires PruneTree(node, depth).Ok? && depth > 0 && HasChildren(node)
    ensures PruneAll(Children(node), depth - 1).Ok?
    ensures Lookup(PruneTree(node, depth).value.fields, "subdomains") == Arr(PruneAll(Children(node), depth - 1).value)
  {
    assert Lookup(node.fields, "subdomains") != Undefined;
  }

  /** `items.map((s) => pruneTree(s, depth))` returns exactly when every call does. */
  lemma {:induction false} PruneAllOk(items: seq<Json>, depth: int)
    ensures PruneAll(items, depth).Ok? <==> forall i :: 0 <= i < |items| ==> PruneTree(items[i], depth).Ok?
    decreases |items|
  {
    if items != [] {
      var n := |items|;
      var init := items[..n - 1];
      PruneAllOk(init, depth);
      if PruneAll(items, depth).Ok? {
        forall i | 0 <= i < n ensures PruneTree(items[i], depth).Ok? {
          if i < n - 1 {
            assert items[i] == init[i];
          }
        }
      } else if PruneAll(init, depth).Err? {
        var j :| 0 <= j < n - 1 && PruneTree(init[j], depth).Err?;
        assert items[j] == init[j];
      } else {
        assert PruneTree(items[n - 1], depth).Err?;
      }
    }
  }

  /** `items.map((s) => pruneTree(s, depth))` returns exactly when every call
      does, and then element `i` is child `i` pruned. */
  lemma {:induction false} PruneAllElements(items: seq<Json>, depth: int)
    ensures PruneAll(items, depth).Ok? <==> forall i :: 0 <= i < |items| ==> PruneTree(items[i], depth).Ok?
    ensures PruneAll(items, depth).Ok? ==>
      forall i :: 0 <= i < |items| ==> PruneAll(items, depth).value[i] == PruneTree(items[i], depth).value
    decreases |items|
  {
    PruneAllOk(items, depth);
    if items != [] && PruneAll(items, depth).Ok? {
      var n := |items|;
      var init := items[..n - 1];
      PruneAllElements(init, depth);
      var prefix := PruneAll(init, depth).value;
      var last := PruneTree(items[n - 1], depth).value;
      assert PruneAll(items, depth).value == prefix + [last];
      forall i | 0 <= i < n
        ensures PruneAll(items, depth).value[i] == PruneTree(items[i], depth).value
      {
        if i < n - 1 {
          assert items[i] == init[i];
          assert (prefix + [last])[i] == prefix[i];
        }
      }
    }
  }

  // ---------------------------------------------------------------
  // flattenTree
  // ---------------------------------------------------------------

  /** `{id: node.id, hitCount: node.hitCount}` for a non-null node. */
  function FlatEntry(node: Json): Json
    requires !IsNullish(node)
  {
    Obj([Field("id", Get(node, "id")), Field("hitCount", Get(node, "hitCount"))])
  }

  /** The entries `flattenTree` pushes for a node: the node, then each child's
      subtree, in order. */
  function Preorder(node: Json): (r: Result<seq<Json>>)
    ensures IsNullish(node) ==> r.Err?
    ensures r.Err? ==> r == Err(TypeErrorMessage)
    ensures r.Ok? ==> |r.value| >= 1 && r.value[0] == FlatEntry(node)
    decreases Size(node), 0
  {
    if IsNullish(node) then Err(TypeErrorMessage)
    else
      var rest := PreorderAll(Children(node));
      if rest.Err? then Err(TypeErrorMessage)
      else Ok([FlatEntry(node)] + rest.value)
  }

  /** The subtrees of a list of nodes, one after another. */
  function PreorderAll(items: seq<Json>): (r: Result<seq<Json>>)
    ensures r.Ok? ==> |r.value| >= |items|
    ensures r.Err? ==> r == Err(TypeErrorMessage)
    decreases SizeOfItems(items), 1
  {
    if items == [] then Ok([])
    else
      var init := PreorderAll(items[..|items| - 1]);
      if init.Err? then init
      else
        var last := Preorder(items[|items| - 1]);
        if last.Err? then last
        else Ok(init.value + last.value)
  }

  /** `flattenTree(node, out)`: pushes the preorder entries of `node` onto `out`. */
  method FlattenTree(node: Json, out: seq<Json>) returns (r: Result<seq<Json>>)
    ensures Preorder(node).Err? ==> r == Err(TypeErrorMessage)
    ensures Preorder(node).Ok? ==> r == Ok(out + Preorder(node).value)
    decreases Size(node)
  {
    if IsNullish(node) {
      return Err(TypeErrorMessage);
    }
    var acc := out + [FlatEntry(node)];
    ghost var head := acc;
    var kids := Children(node);
    var i := 0;
    assert kids[..0] == [];
    while i < |kids|
      invariant 0 <= i <= |kids|
      invariant PreorderAll(kids[..i]).Ok?
      invariant acc == head + PreorderAll(kids[..i]).value
    {
      ChildSmaller(node, i);
      var sub := FlattenTree(kids[i], acc);
      if sub.Err? {
        FlattenFails(node, i);
        return sub;
      }
      AppendStep(head, kids, i);
      acc := sub.value;
      i := i + 1;
    }
    assert kids[..i] == kids;
    FlattenDone(node, out, acc);
    r := Ok(acc);
  }

  /** A child is smaller than its parent. */
  lemma ChildSmaller(node: Json, i: int)
    requires 0 <= i < |Children(node)|
    ensures Size(Children(node)[i]) < Size(node)
  {
    ItemSize(Children(node), i);
  }

  /** A child whose traversal throws makes the node's traversal throw. */
  lemma FlattenFails(node: Json, i: int)
    requires !IsNullish(node)
    requires 0 <= i < |Children(node)| && PreorderAll(Children(node)[..i]).Ok?
    requires Preorder(Children(node)[i]).Err?
    ensures Preorder(node) == Err(TypeErrorMessage)
  {
    PreorderAllStep(Children(node), i);
    PreorderAllPrefixErr(Children(node), i + 1);
    PreorderUnfold(node);
  }

  /** The node's entry followed by all its children's traversals is its traversal. */
  lemma FlattenDone(node: Json, out: seq<Json>, acc: seq<Json>)
    requires !IsNullish(node)
    requires PreorderAll(Children(node)).Ok?
    requires acc == (out + [FlatEntry(node)]) + PreorderAll(Children(node)).value
    ensures Preorder(node).Ok? && acc == out + Preorder(node).value
  {
    PreorderUnfold(node);
    ConcatAssoc(out, [FlatEntry(node)], PreorderAll(Children(node)).value);
  }

  /** One more child's subtree appended to the output so far. */
  lemma AppendStep(head: seq<Json>, kids: seq<Json>, i: int)
    requires 0 <= i < |kids| && PreorderAll(kids[..i]).Ok? && Preorder(kids[i]).Ok?
    ensures PreorderAll(kids[..i + 1]).Ok?
    ensures (head + PreorderAll(kids[..i]).value) + Preorder(kids[i]).value == head + PreorderAll(kids[..i + 1]).value
  {
    PreorderAllStep(kids, i);
    ConcatAssoc(head, PreorderAll(kids[..i]).value, Preorder(kids[i]).value);
  }

  lemma ConcatAssoc(a: seq<Json>, b: seq<Json>, c: seq<Json>)
    ensures (a + b) + c == a + (b + c)
  {
  }

  /** A non-null node's traversal is its entry followed by its children's. */
  lemma PreorderUnfold(node: Json)
    requires !IsNullish(node)
    ensures PreorderAll(Children(node)).Err? ==> Preorder(node) == Err(TypeErrorMessage)
    ensures PreorderAll(Children(node)).Ok? ==>
      Preorder(node) == Ok([FlatEntry(node)] + PreorderAll(Children(node)).value)
  {
  }

  /** One more child extends the traversal by that child's subtree. */
  lemma PreorderAllStep(items: seq<Json>, i: int)
    requires 0 <= i < |items|
    requires PreorderAll(items[..i]).Ok?
    ensures Preorder(items[i]).Err? ==> PreorderAll(items[..i + 1]).Err?
    ensures Preorder(items[i]).Ok? ==>
      PreorderAll(items[..i + 1]) == Ok(PreorderAll(items[..i]).value + Preorder(items[i]).value)
  {
    var s := items[..i + 1];
    assert s[..|s| - 1] == items[..i];
    assert s[|s| - 1] == items[i];
  }

  /** An error in a prefix of the children is an error of them all. */
  lemma {:induction false} PreorderAllPrefixErr(items: seq<Json>, n: int)
    requires 0 <= n <= |items|
    requires PreorderAll(items[..n]).Err?
    ensures PreorderAll(items).Err?
    decreases |items| - n
  {
    if n < |items| {
      assert items[..n + 1][..n] == items[..n];
      PreorderAllPrefixErr(items, n + 1);
    } else {
      assert items[..n] == items;
    }
  }

  /** Flattening a tree without zero-hit nodes lists no zero-hit entry. */
  lemma {:induction false} FlattenNoZeroHits(node: Json)
    requires NoZeroHits(node) && Preorder(node).Ok?
    ensures forall e <- Preorder(node).value :: Get(e, "hitCount") != Num(0)
    decreases Size(node), 0
  {
    FlattenAllNoZeroHits(Children(node));
  }

  lemma {:induction false} FlattenAllNoZeroHits(items: seq<Json>)
    requires NoZeroHitsAll(items) && PreorderAll(items).Ok?
    ensures forall e <- PreorderAll(items).value :: Get(e, "hitCount") != Num(0)
    decreases SizeOfItems(items), 1
  {
    if items != [] {
      FlattenAllNoZeroHits(items[..|items| - 1]);
      FlattenNoZeroHits(items[|items| - 1]);
    }
  }

  // ---------------------------------------------------------------
  // run
  // ---------------------------------------------------------------

  /** The arguments; `None` is an argument left out, which takes its default. */
  datatype Args = Args(query: string, size: Option<int>, start: Option<int>,
                       includeHierarchy: Option<bool>, maxDepth: Option<int>)

  function Default<T>(o: Option<T>, d: T): T {
    if o.Some? then o.value else d
  }

  const DefaultSize: int := 10
  const DefaultStart: int := 0
  const DefaultMaxDepth: int := 2

  function SearchRequest(query: string, size: int, start: int): Request {
    Request("ebisearch/allebi?query={query}&size={size}&start={start}&format=json",
            [query, Decimal(size), Decimal(start)])
  }

  /** `{query, hitCount, domains: [{domain, hitCount, subdomains?}]}`; `subdomains`
      is present only when the hierarchy was processed. */
  datatype Payload = Payload(query: string, hitCount: Json, domain: Json, domainHitCount: Json,
                             subdomains: Option<seq<Json>>)

  /** The hierarchy steps in order: prune each child of the root at `maxDepth`,
      drop zero-hit nodes, then flatten each remaining child. */
  function Hierarchy(subdomains: seq<Json>, maxDepth: int): Result<seq<Json>>
  {
    var pruned := PruneAll(subdomains, maxDepth);
    if pruned.Err? then Err(pruned.message)
    else
      var kept := RemoveAllZeroHits(pruned.value);
      if kept.Err? then Err(kept.message)
      else PreorderAll(kept.value)
  }

  /** The checks on the reply; on success the parsed body and its `domains` list. */
  function Parsed(reply: Reply): (r: Result<(Json, seq<Json>)>)
    ensures r.Ok? ==> IsOk(reply) && IsJsonContent(reply) && reply.body.Some?
    ensures reply.NetworkFailure? ==> r == Err(reply.reason)
    ensures reply.Response? && !IsOk(reply) ==> r == Err("EBI Search failed (" + Decimal(reply.status) + ")")
    ensures IsOk(reply) && !IsJsonContent(reply) ==>
      r == Err("EBI Search returned non-JSON response: " + Prefix(reply.text, 200))
    ensures IsOk(reply) && IsJsonContent(reply) && reply.body.None? ==> r == Err(SyntaxErrorMessage)
    ensures IsOk(reply) && IsJsonContent(reply) && reply.body.Some? ==>
      r == (if Get(reply.body.value, "domains").Arr? then Ok((reply.body.value, Get(reply.body.value, "domains").items))
            else if IsNullish(reply.body.value) then Err(TypeErrorMessage)
            else Err("Unexpected API response format: domains not found"))
  {
    if reply.NetworkFailure? then Err(reply.reason)
    else if !IsOk(reply) then Err("EBI Search failed (" + Decimal(reply.status) + ")")
    else if !IsJsonContent(reply) then Err("EBI Search returned non-JSON response: " + Prefix(reply.text, 200))
    else if reply.body.None? then Err(SyntaxErrorMessage)
    else
      var data := reply.body.value;
      var domains := Prop(data, "domains");
      if domains.Err? then Err(domains.message)
      else if !domains.value.Arr? then Err("Unexpected API response format: domains not found")
      else Ok((data, domains.value.items))
  }

  /** The root's processed hierarchy: `None` unless requested and present;
      `rootDomain.subdomains.map` throws when the truthy value is no array. */
  function Processed(args: Args, root: Json): Result<Option<seq<Json>>>
  {
    if Default(args.includeHierarchy, false) && IsTruthy(Get(root, "subdomains")) then
      match Get(root, "subdomains")
      case Arr(subs) =>
        var h := Hierarchy(subs, Default(args.maxDepth, DefaultMaxDepth));
        if h.Err? then Err(h.message) else Ok(Some(h.value))
      case _ => Err("TypeError: rootDomain.subdomains.map is not a function")
    else Ok(None)
  }

  /** The payload built from the parsed body, its first domain and the processed hierarchy. */
  function PayloadOf(query: string, data: Json, root: Json, processed: Option<seq<Json>>): Payload {
    Payload(query, Coalesce(Get(data, "hitCount"), Null),
            Coalesce(Get(root, "id"), Str("allebi")),
            Coalesce(Get(root, "hitCount"), Get(data, "hitCount")),
            processed)
  }

  /** The handler after the fetch. */
  function Respond(args: Args, reply: Reply): (r: Result<Payload>)
  {
    var parsed := Parsed(reply);
    if parsed.Err? then Err(parsed.message)
    else
      var root := Index(Arr(parsed.value.1), 0);
      var processed := Processed(args, root);
      if processed.Err? then Err(processed.message)
      else Ok(PayloadOf(args.query, parsed.value.0, root, processed.value))
  }

  /** The request the handler sends for its arguments. */
  function RequestOf(args: Args): Request {
    SearchRequest(args.query, Default(args.size, DefaultSize), Default(args.start, DefaultStart))
  }

  /** `EBISearchAllHandler.run`: a missing query throws before the fetch. */
  function Search(args: Args, net: Request -> Reply): (r: Result<Payload>)
    ensures args.query == "" ==> r == Err("query is required")
  {
    if args.query == "" then Err("query is required") else Respond(args, net(RequestOf(args)))
  }

  /** A search with a query answers from an ok JSON reply whose `domains` is
      an array: the top-level hit count, the first domain's id (default
      "allebi") and hit count (default the top-level one), and the processed
      hierarchy of that domain; its failures are the reply's checks and the
      hierarchy's. */
  lemma SearchAnswers(args: Args, net: Request -> Reply)
    requires args.query != ""
    ensures var reply := net(RequestOf(args));
      Parsed(reply).Err? ==> Search(args, net) == Err(Parsed(reply).message)
    ensures var reply := net(RequestOf(args));
      IsOk(reply) && IsJsonContent(reply) && reply.body.Some? && Get(reply.body.value, "domains").Arr? ==>
        var data := reply.body.value;
        var root := Index(Get(data, "domains"), 0);
        && (Processed(args, root).Err? ==> Search(args, net) == Err(Processed(args, root).message))
        && (Processed(args, root).Ok? ==>
              Search(args, net) == Ok(Payload(args.query, Coalesce(Get(data, "hitCount"), Null),
                                              Coalesce(Get(root, "id"), Str("allebi")),
                                              Coalesce(Get(root, "hitCount"), Get(data, "hitCount")),
                                              Processed(args, root).value)))
  {
  }

  /** `processedSubdomains.flatMap((s) => flattenTree(s))` */
  method FlattenAll(items: seq<Json>) returns (r: Result<seq<Json>>)
    ensures r == PreorderAll(items)
  {
    var flat: seq<Json> := [];
    var i := 0;
    while i < |items|
      invariant 0 <= i <= |items|
      invariant PreorderAll(items[..i]).Ok?
      invariant flat == PreorderAll(items[..i]).value
    {
      PreorderAllStep(items, i);
      var sub := FlattenTree(items[i], []);
      if sub.Err? {
        PreorderAllPrefixErr(items, i + 1);
        return Err(TypeErrorMessage);
      }
      assert [] + Preorder(items[i]).value == Preorder(items[i]).value;
      flat := flat + sub.value;
      i := i + 1;
    }
    assert items[..|items|] == items;
    r := Ok(flat);
  }

  /** The hierarchy steps of `run`, with flattening by the accumulating traversal. */
  method ProcessHierarchy(args: Args, root: Json) returns (r: Result<Option<seq<Json>>>)
    ensures r == Processed(args, root)
  {
    if !(Default(args.includeHierarchy, false) && IsTruthy(Get(root, "subdomains"))) {
      return Ok(None);
    }
    if !Get(root, "subdomains").Arr? {
      return Err("TypeError: rootDomain.subdomains.map is not a function");
    }
    var pruned := PruneAll(Get(root, "subdomains").items, Default(args.maxDepth, DefaultMaxDepth));
    if pruned.Err? {
      return Err(pruned.message);
    }
    var kept := RemoveAllZeroHits(pruned.value);
    if kept.Err? {
      return Err(kept.message);
    }
    var flat := FlattenAll(kept.value);
    if flat.Err? {
      return Err(flat.message);
    }
    r := Ok(Some(flat.value));
  }

  /** The handler. */
  method Run(args: Args, net: Request -> Reply) returns (r: Result<Payload>, sent: seq<Request>)
    ensures r == Search(args, net)
    ensures sent == if args.query == "" then [] else [RequestOf(args)]
  {
    if args.query == "" {
      return Err("query is required"), [];
    }
    sent := [RequestOf(args)];
    var parsed := Parsed(net(RequestOf(args)));
    if parsed.Err? {
      return Err(parsed.message), sent;
    }
    var root := Index(Arr(parsed.value.1), 0);
    var processed := ProcessHierarchy(args, root);
    if processed.Err? {
      return Err(processed.message), sent;
    }
    r := Ok(PayloadOf(args.query, parsed.value.0, root, processed.value));
  }

  /** Without `includeHierarchy` (default false) the payload has no `subdomains`,
      and the root falls back to "allebi" when the reply lists no domain. */
  lemma DefaultsApplied(args: Args, net: Request -> Reply)
    requires Search(args, net).Ok?
    ensures args.includeHierarchy != Some(true) ==> Search(args, net).value.subdomains == None
    ensures RequestOf(args).params[1..] == [Decimal(Default(args.size, 10)), Decimal(Default(args.start, 0))]
    ensures Parsed(net(RequestOf(args))).value.1 == [] ==> Search(args, net).value.domain == Str("allebi")
  {
  }

  /** With `includeHierarchy` set and a `subdomains` array on the first domain,
      the payload's `subdomains` is the processed hierarchy at `maxDepth`
      (default 2); without a truthy `subdomains` there is none. */
  lemma HierarchyApplied(args: Args, net: Request -> Reply)
    requires Search(args, net).Ok?
    ensures Parsed(net(RequestOf(args))).Ok?
    ensures var root := Index(Arr(Parsed(net(RequestOf(args))).value.1), 0);
      var subdomains := Search(args, net).value.subdomains;
      && (!IsTruthy(Get(root, "subdomains")) ==> subdomains == None)
      && (args.includeHierarchy == Some(true) && Get(root, "subdomains").Arr? ==>
            && Hierarchy(Get(root, "subdomains").items, Default(args.maxDepth, 2)).Ok?
            && subdomains == Some(Hierarchy(Get(root, "subdomains").items, Default(args.maxDepth, 2)).value))
  {
  }

  /** A requested hierarchy whose `subdomains` is truthy but no array throws,
      as `rootDomain.subdomains.map` does. */
  lemma NonArraySubdomainsThrow(args: Args, net: Request -> Reply)
    requires args.query != "" && Parsed(net(RequestOf(args))).Ok?
    requires args.includeHierarchy == Some(true)
    requires var root := Index(Arr(Parsed(net(RequestOf(args))).value.1), 0);
      IsTruthy(Get(root, "subdomains")) && !Get(root, "subdomains").Arr?
    ensures Search(args, net) == Err("TypeError: rootDomain.subdomains.map is not a function")
  {
  }

  /** The processed hierarchy: pruned to `maxDepth` before zero-hit removal,
      and no flattened entry has `hitCount` 0. */
  lemma HierarchySpec(subdomains: seq<Json>, maxDepth: int)
    requires Hierarchy(subdomains, maxDepth).Ok?
    ensures PruneAll(subdomains, maxDepth).Ok?
    ensures SubDepthAll(PruneAll(subdomains, maxDepth).value) <= Max(maxDepth, 0)
    ensures forall e <- Hierarchy(subdomains, maxDepth).value :: Get(e, "hitCount") != Num(0)
  {
    var kept := RemoveAllZeroHits(PruneAll(subdomains, maxDepth).value).value;
    FlattenAllNoZeroHits(kept);
  }
}
