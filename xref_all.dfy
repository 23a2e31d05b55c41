/** The all-domains aggregator (`EBICrossReferenceAllHandler.run`): discover the
    target domains of a source domain, fetch the cross-references of one entry
    into at most ten of them (priority domains first), skip every target whose
    fetch fails, group the ids per target as insertion-ordered sets, keep three
    ids per group, rank the groups and return at most three of them. */
module XrefAll {
  import opened Js
  import opened Net
  import XrefDomain

  const MaxFetchDomains: nat := 10
  const MaxReturnDomains: nat := 3
  const MaxEntriesPerDomain: nat := 3

  /** Ranked ahead of every other target domain, in this order. */
  const PriorityDomains: seq<string> := ["alphafold", "pdbe", "go"]


  // ------------------------------------------------------------------
  // Candidate targets
  // ------------------------------------------------------------------

  /** The discovered targets as the aggregator should read them: the discovery
      handler returns the target ids themselves. */
  function Discovered(targetDomains: seq<string>): (r: seq<Json>)
    ensures |r| == |targetDomains|
    ensures forall i :: 0 <= i < |r| ==> r[i] == Str(targetDomains[i])
  {
    seq(|targetDomains|, i requires 0 <= i < |targetDomains| => Str(targetDomains[i]))
  }

  /** The discovered targets as the source reads them: `t.domain` of each
      discovered item, which for a string item is `undefined`. */
  function DiscoveredAsWritten(targetDomains: seq<string>): (r: seq<Json>)
    ensures |r| == |targetDomains|
  {
    seq(|targetDomains|, i requires 0 <= i < |targetDomains| => Get(Str(targetDomains[i]), "domain"))
  }

  /** The discovered items that are strings and not priority domains, in order. */
  function NonPriorityStrings(discovered: seq<Json>): (r: seq<string>)
    ensures forall t <- r :: t !in PriorityDomains && Str(t) in discovered
    ensures forall d <- discovered :: d.Str? && d.s !in PriorityDomains ==> d.s in r
    ensures |r| <= |discovered|
  {
    if discovered == [] then []
    else
      var rest := NonPriorityStrings(discovered[1..]);
      if discovered[0].Str? && discovered[0].s !in PriorityDomains then [discovered[0].s] + rest else rest
  }

  /** The fetch list: every priority domain, then the other discovered string
      targets, cut to `MaxFetchDomains`. */
  function TargetsToFetch(discovered: seq<Json>): (r: seq<string>)
  {
    var all := PriorityDomains + NonPriorityStrings(discovered);
    all[..Min(MaxFetchDomains, |all|)]
  }

  /** The fetch list starts with the priority domains, in order, whether or not
      they were discovered; it holds at most ten targets; every later target is
      a discovered string outside the priority list; and every such string is
      fetched as long as no more than seven of them were discovered. */
  lemma TargetsToFetchShape(discovered: seq<Json>)
    ensures var r := TargetsToFetch(discovered);
      && |r| <= MaxFetchDomains
      && |r| >= |PriorityDomains| && r[..|PriorityDomains|] == PriorityDomains
      && (forall i :: |PriorityDomains| <= i < |r| ==> r[i] !in PriorityDomains && Str(r[i]) in discovered)
      && (|NonPriorityStrings(discovered)| <= MaxFetchDomains - |PriorityDomains| ==>
            forall d <- discovered :: d.Str? ==> d.s in r)
  {
    var np := NonPriorityStrings(discovered);
    var all := PriorityDomains + np;
    var r := TargetsToFetch(discovered);
    forall i | |PriorityDomains| <= i < |r|
      ensures r[i] !in PriorityDomains && Str(r[i]) in discovered
    {
      assert r[i] == np[i - |PriorityDomains|];
    }
    if |np| <= MaxFetchDomains - |PriorityDomains| {
      assert r == all;
      forall d <- discovered | d.Str? ensures d.s in r {
        if d.s !in PriorityDomains {
          assert d.s in np;
        }
      }
    }
  }

  /** As written, the aggregator never fetches a discovered target: every
      discovered item reads as `undefined`, so the fetch list is always the
      priority list alone. */
  lemma {:induction false} AsWrittenFetchesOnlyPriority(targetDomains: seq<string>)
    ensures TargetsToFetch(DiscoveredAsWritten(targetDomains)) == PriorityDomains
  {
    var d := DiscoveredAsWritten(targetDomains);
    forall i | 0 <= i < |d| ensures d[i] == Undefined {
      assert Prop(Str(targetDomains[i]), "domain") == Ok(Undefined);
    }
    NoStringsNoCandidates(d);
  }

  lemma {:induction false} NoStringsNoCandidates(d: seq<Json>)
    requires forall x <- d :: !x.Str?
    ensures NonPriorityStrings(d) == []
  {
    if d != [] {
      NoStringsNoCandidates(d[1..]);
    }
  }

  /** The input that shows it: a catalog listing only `uniprot` makes the
      written aggregator skip `uniprot`, while reading the ids themselves
      fetches it. */
  lemma AsWrittenSkipsUniprot()
    ensures "uniprot" !in TargetsToFetch(DiscoveredAsWritten(["uniprot"]))
    ensures "uniprot" in TargetsToFetch(Discovered(["uniprot"]))
  {
    AsWrittenFetchesOnlyPriority(["uniprot"]);
    TargetsToFetchShape(Discovered(["uniprot"]));
    assert Discovered(["uniprot"])[0] == Str("uniprot");
  }

  /** Read as intended, every discovered target is fetched when at most seven
      of them lie outside the priority list. */
  lemma DiscoveredTargetsFetched(targetDomains: seq<string>)
    requires |NonPriorityStrings(Discovered(targetDomains))| <= MaxFetchDomains - |PriorityDomains|
    ensures forall t <- targetDomains :: t in TargetsToFetch(Discovered(targetDomains))
  {
    var d := Discovered(targetDomains);
    TargetsToFetchShape(d);
    forall t <- targetDomains ensures t in TargetsToFetch(d) {
      var i :| 0 <= i < |targetDomains| && targetDomains[i] == t;
      assert d[i] == Str(t);
      assert d[i] in d;
    }
  }

  // ------------------------------------------------------------------
  // Reading one target's reply
  // ------------------------------------------------------------------

  /** The ids read from a reply before the reading stopped, whether it read
      everything (an exception stops it part-way), and whether the loop body
      ran for at least one reference, the point where the target's group is
      created. */
  datatype Scan = Scan(ids: seq<string>, complete: bool, visited: bool)

  /** `for (const r of refs) { ...create the group...; add(String(r.id)) }`:
      the group exists once the first reference is reached, and reading `id`
      of a null reference then throws. */
  function RefIds(refs: seq<Json>): (r: Scan)
    ensures |r.ids| <= |refs|
    ensures r.complete <==> forall x <- refs :: !IsNullish(x)
    ensures r.visited <==> refs != []
  {
    if refs == [] then Scan([], true, false)
    else if IsNullish(refs[0]) then Scan([], false, true)
    else
      var rest := RefIds(refs[1..]);
      Scan([ToStr(Get(refs[0], "id"))] + rest.ids, rest.complete, true)
  }

  /** What `for (const r of e.references ?? [])` iterates: nothing for a
      missing list, the elements of an array, the characters of a string; any
      other value (or a null entry) throws. */
  function ReferenceItems(e: Json): Result<seq<Json>> {
    var refs := Prop(e, "references");
    if refs.Err? then Err(refs.message)
    else
      match Coalesce(refs.value, Arr([]))
      case Arr(items) => Ok(items)
      case Str(s) => Ok(seq(|s|, i requires 0 <= i < |s| => Str([s[i]])))
      case _ => Err("TypeError: references is not iterable")
  }

  /** The ids the nested loops over `data.entries` and their references add,
      in order, up to the first exception; an id is only ever read after a
      reference was reached. */
  function EntriesIds(entries: seq<Json>): (r: Scan)
    ensures r.ids != [] ==> r.visited
  {
    if entries == [] then Scan([], true, false)
    else
      var refs := ReferenceItems(entries[0]);
      if refs.Err? then Scan([], false, false)
      else
        var first := RefIds(refs.value);
        if !first.complete then first
        else
          var rest := EntriesIds(entries[1..]);
          Scan(first.ids + rest.ids, rest.complete, first.visited || rest.visited)
  }

  /** The scan of one target's fetch: nothing when the fetch rejects, the
      response is not ok, the body is not JSON, or `entries` is not an array. */
  function ReplyScan(reply: Reply): (r: Scan)
    ensures r.ids != [] ==> r.visited
  {
    if !IsOk(reply) || reply.body.None? then Scan([], true, false)
    else
      var entries := Prop(reply.body.value, "entries");
      if entries.Err? || !entries.value.Arr? then Scan([], true, false)
      else EntriesIds(entries.value.items)
  }

  /** The ids one target's fetch contributes. */
  function ReplyIds(reply: Reply): seq<string> {
    ReplyScan(reply).ids
  }

  /** A refused reply contributes no id and reaches no reference. */
  lemma RefusedReplyContributesNothing(reply: Reply)
    requires !IsOk(reply) || reply.body.None? ||
             (reply.body.Some? && !Get(reply.body.value, "entries").Arr?)
    ensures ReplyIds(reply) == [] && !ReplyScan(reply).visited
  {
  }

  // ------------------------------------------------------------------
  // Grouping: Map<string, Set<string>> with insertion order
  // ------------------------------------------------------------------

  /** One entry of the `grouped` map: a target and its ids in insertion order. */
  datatype Group = Group(target: string, ids: seq<string>)

  /** `if (!grouped.has(target)) grouped.set(target, new Set())`: an empty
      group of `target` at the end, unless it already has one. */
  function Touch(groups: seq<Group>, target: string): (r: seq<Group>)
    ensures |r| >= |groups|
  {
    if groups == [] then [Group(target, [])]
    else if groups[0].target == target then groups
    else [groups[0]] + Touch(groups[1..], target)
  }

  /** `grouped.get(target).add(id)`, creating the group if it is missing. */
  function AddId(groups: seq<Group>, target: string, id: string): (r: seq<Group>)
    ensures |r| >= |groups|
  {
    if groups == [] then [Group(target, [id])]
    else if groups[0].target == target then
      [Group(target, if id in groups[0].ids then groups[0].ids else groups[0].ids + [id])] + groups[1..]
    else [groups[0]] + AddId(groups[1..], target, id)
  }

  /** Adding `ids` one after the other to the group of `target`. */
  function AddAll(groups: seq<Group>, target: string, ids: seq<string>): seq<Group>
    decreases |ids|
  {
    if ids == [] then groups
    else AddId(AddAll(groups, target, ids[..|ids| - 1]), target, ids[|ids| - 1])
  }

  /** One pass of the fan-out loop body for `target`: its group is created when
      a reference is reached, then the ids read are added to it. */
  function Step(prior: seq<Group>, target: string, scan: Scan): seq<Group> {
    AddAll(if scan.visited then Touch(prior, target) else prior, target, scan.ids)
  }

  /** The groups after fetching `targets` in order. */
  function Gathered(domain: string, entryId: string, targets: seq<string>, net: Request -> Reply): seq<Group>
    decreases |targets|
  {
    if targets == [] then []
    else
      var last := targets[|targets| - 1];
      Step(Gathered(domain, entryId, targets[..|targets| - 1], net), last,
           ReplyScan(net(XrefDomain.XrefRequest(domain, entryId, last))))
  }

  /** One cross-reference query per target, in order. */
  function FetchRequests(domain: string, entryId: string, targets: seq<string>): (r: seq<Request>)
    ensures |r| == |targets|
    decreases |targets|
  {
    if targets == [] then []
    else FetchRequests(domain, entryId, targets[..|targets| - 1]) + [XrefDomain.XrefRequest(domain, entryId, targets[|targets| - 1])]
  }

  /** `grouped.get(target)!.add(String(r.id))` for each id one fetch returned. */
  method AddEach(grouped: seq<Group>, target: string, ids: seq<string>) returns (r: seq<Group>)
    ensures r == AddAll(grouped, target, ids)
  {
    r := grouped;
    var j := 0;
    while j < |ids|
      invariant 0 <= j <= |ids|
      invariant r == AddAll(grouped, target, ids[..j])
    {
      assert ids[..j + 1][..j] == ids[..j];
      r := AddId(r, target, ids[j]);
      j := j + 1;
    }
    assert ids[..j] == ids;
  }

  /** The fan-out loop: one fetch per target, in order. */
  method FanOut(domain: string, entryId: string, targets: seq<string>, net: Request -> Reply)
    returns (grouped: seq<Group>, sent: seq<Request>)
    ensures grouped == Gathered(domain, entryId, targets, net)
    ensures sent == FetchRequests(domain, entryId, targets)
  {
    grouped, sent := [], [];
    var i := 0;
    while i < |targets|
      invariant 0 <= i <= |targets|
      invariant grouped == Gathered(domain, entryId, targets[..i], net)
      invariant sent == FetchRequests(domain, entryId, targets[..i])
    {
      var request := XrefDomain.XrefRequest(domain, entryId, targets[i]);
      sent := sent + [request];
      assert targets[..i + 1][..i] == targets[..i];
      var scan := ReplyScan(net(request));
      if scan.visited {
        grouped := Touch(grouped, targets[i]);
      }
      grouped := AddEach(grouped, targets[i], scan.ids);
      i := i + 1;
    }
    assert targets[..i] == targets;
  }

  // ------------------------------------------------------------------
  // What the groups hold
  // ------------------------------------------------------------------

  /** The ids of the group of `t`, or none. */
  function IdsFor(groups: seq<Group>, t: string): seq<string> {
    if groups == [] then []
    else if groups[0].target == t then groups[0].ids
    else IdsFor(groups[1..], t)
  }

  predicate HasGroup(groups: seq<Group>, t: string) {
    exists g <- groups :: g.target == t
  }

  /** No two groups share a target, and no group holds an id twice. */
  predicate WellFormed(groups: seq<Group>) {
    && (forall i, j :: 0 <= i < j < |groups| ==> groups[i].target != groups[j].target)
    && (forall g <- groups :: Distinct(g.ids))
  }

  predicate Distinct<T(==)>(s: seq<T>) {
    forall i, j :: 0 <= i < j < |s| ==> s[i] != s[j]
  }

  /** `s` added to `d` with set semantics: each element appended unless already present. */
  function Extend(d: seq<string>, s: seq<string>): seq<string>
    decreases |s|
  {
    if s == [] then d
    else
      var e := Extend(d, s[..|s| - 1]);
      if s[|s| - 1] in e then e else e + [s[|s| - 1]]
  }

  /** Every id the fetches of `t` returned, in fetch order. */
  function AllIds(domain: string, entryId: string, targets: seq<string>, net: Request -> Reply, t: string): seq<string>
    decreases |targets|
  {
    if targets == [] then []
    else
      AllIds(domain, entryId, targets[..|targets| - 1], net, t)
      + (if targets[|targets| - 1] == t then ReplyIds(net(XrefDomain.XrefRequest(domain, entryId, t))) else [])
  }

  /** Only a target with a group has ids, and they are distinct. */
  lemma {:induction false} IdsForMembership(groups: seq<Group>, t: string)
    requires WellFormed(groups)
    ensures IdsFor(groups, t) != [] ==> HasGroup(groups, t)
    ensures Distinct(IdsFor(groups, t))
  {
    if groups != [] {
      assert WellFormed(groups[1..]);
      IdsForMembership(groups[1..], t);
      if groups[0].target != t && IdsFor(groups, t) != [] {
        var g :| g in groups[1..] && g.target == t;
        assert g in groups;
      }
    }
  }

  /** A group of `t` in a list with a known head. */
  lemma HasGroupCons(g: Group, rest: seq<Group>, t: string)
    ensures HasGroup([g] + rest, t) <==> g.target == t || HasGroup(rest, t)
  {
    if HasGroup([g] + rest, t) && g.target != t {
      var h :| h in [g] + rest && h.target == t;
      assert h in rest;
    }
    if HasGroup(rest, t) {
      var h :| h in rest && h.target == t;
      assert h in [g] + rest;
    }
  }

  /** `Touch` changes no target's ids, and adds the group of `target` only. */
  lemma {:induction false} TouchIds(groups: seq<Group>, target: string)
    ensures forall t :: IdsFor(Touch(groups, target), t) == IdsFor(groups, t)
    ensures forall t :: HasGroup(Touch(groups, target), t) <==> HasGroup(groups, t) || t == target
    ensures forall g <- Touch(groups, target) :: g.target == target || g in groups
  {
    if groups == [] {
      forall t ensures HasGroup(Touch(groups, target), t) <==> t == target {
        HasGroupCons(Group(target, []), [], t);
      }
    } else if groups[0].target == target {
      assert groups[0] in groups;
    } else {
      var r := Touch(groups, target);
      TouchIds(groups[1..], target);
      assert r == [groups[0]] + Touch(groups[1..], target);
      assert groups == [groups[0]] + groups[1..];
      forall t ensures HasGroup(r, t) <==> HasGroup(groups, t) || t == target {
        HasGroupCons(groups[0], Touch(groups[1..], target), t);
        HasGroupCons(groups[0], groups[1..], t);
      }
    }
  }

  /** `Touch` keeps the grouping well formed. */
  lemma {:induction false} TouchWellFormed(groups: seq<Group>, target: string)
    requires WellFormed(groups)
    ensures WellFormed(Touch(groups, target))
  {
    if groups != [] && groups[0].target != target {
      var r := Touch(groups, target);
      assert WellFormed(groups[1..]);
      TouchWellFormed(groups[1..], target);
      TouchIds(groups[1..], target);
      assert r == [groups[0]] + Touch(groups[1..], target);
      forall i, j | 0 <= i < j < |r| ensures r[i].target != r[j].target {
        if i == 0 {
          assert r[j] in Touch(groups[1..], target);
          if r[j].target != target {
            var k :| 0 <= k < |groups[1..]| && groups[1..][k] == r[j];
            assert groups[k + 1] == r[j];
          } else {
            assert HasGroup(groups[1..], target) || target == target;
          }
        }
      }
    }
  }

  lemma AddIdEffect(groups: seq<Group>, target: string, id: string)
    requires WellFormed(groups)
    ensures WellFormed(AddId(groups, target, id))
    ensures forall g <- AddId(groups, target, id) :: g.target == target || g in groups
    ensures forall t :: IdsFor(AddId(groups, target, id), t) ==
                          (if t != target then IdsFor(groups, t)
                           else if id in IdsFor(groups, t) then IdsFor(groups, t)
                           else IdsFor(groups, t) + [id])
  {
    AddIdWellFormed(groups, target, id);
    AddIdIds(groups, target, id);
  }

  /** Every group after `AddId` is the group of `target` or an old group. */
  lemma {:induction false} AddIdOrigin(groups: seq<Group>, target: string, id: string)
    ensures forall g <- AddId(groups, target, id) :: g.target == target || g in groups
  {
    if groups != [] {
      var r := AddId(groups, target, id);
      if groups[0].target == target {
        assert r[1..] == groups[1..];
        forall g <- r ensures g.target == target || g in groups {
          if g != r[0] {
            assert g in r[1..];
          }
        }
      } else {
        AddIdOrigin(groups[1..], target, id);
        assert r == [groups[0]] + AddId(groups[1..], target, id);
      }
    }
  }

  /** `AddId` changes the ids of `target` only, with set semantics. */
  lemma {:induction false} AddIdIds(groups: seq<Group>, target: string, id: string)
    ensures forall t :: IdsFor(AddId(groups, target, id), t) ==
                          (if t != target then IdsFor(groups, t)
                           else if id in IdsFor(groups, t) then IdsFor(groups, t)
                           else IdsFor(groups, t) + [id])
  {
    if groups != [] {
      var r := AddId(groups, target, id);
      if groups[0].target == target {
        assert r[1..] == groups[1..];
      } else {
        AddIdIds(groups[1..], target, id);
        assert r[1..] == AddId(groups[1..], target, id);
      }
    }
  }

  lemma {:induction false} AddIdWellFormed(groups: seq<Group>, target: string, id: string)
    requires WellFormed(groups)
    ensures WellFormed(AddId(groups, target, id))
    ensures forall g <- AddId(groups, target, id) :: g.target == target || g in groups
  {
    AddIdOrigin(groups, target, id);
    if groups == [] {
    } else if groups[0].target == target {
      AddIdFirst(groups, target, id);
    } else {
      assert WellFormed(groups[1..]);
      AddIdWellFormed(groups[1..], target, id);
      AddIdLater(groups, target, id);
    }
  }

  /** Adding to the first group keeps the grouping well formed. */
  lemma AddIdFirst(groups: seq<Group>, target: string, id: string)
    requires WellFormed(groups) && groups != [] && groups[0].target == target
    ensures WellFormed(AddId(groups, target, id))
  {
    var r := AddId(groups, target, id);
    assert r[1..] == groups[1..];
    forall i, j | 0 <= i < j < |r| ensures r[i].target != r[j].target {
      assert r[j] == groups[j];
      if i > 0 {
        assert r[i] == groups[i];
      }
    }
  }

  /** Adding past the first group keeps the grouping well formed, given that
      the rest stays well formed and gains no foreign target. */
  lemma AddIdLater(groups: seq<Group>, target: string, id: string)
    requires WellFormed(groups) && groups != [] && groups[0].target != target
    requires WellFormed(AddId(groups[1..], target, id))
    requires forall g <- AddId(groups[1..], target, id) :: g.target == target || g in groups[1..]
    ensures WellFormed(AddId(groups, target, id))
  {
    var r := AddId(groups, target, id);
    assert r == [groups[0]] + AddId(groups[1..], target, id);
    forall i, j | 0 <= i < j < |r| ensures r[i].target != r[j].target {
      if i == 0 {
        assert r[j] in AddId(groups[1..], target, id);
        if r[j].target != target {
          assert r[j] in groups[1..];
          var k :| 0 <= k < |groups[1..]| && groups[1..][k] == r[j];
          assert groups[k + 1] == r[j];
        }
      }
    }
  }

  /** Adding to an existing group creates no group. */
  lemma {:induction false} AddIdKeepsGroups(groups: seq<Group>, target: string, id: string)
    requires HasGroup(groups, target)
    ensures forall t :: HasGroup(AddId(groups, target, id), t) <==> HasGroup(groups, t)
  {
    var r := AddId(groups, target, id);
    assert groups == [groups[0]] + groups[1..];
    if groups[0].target == target {
      assert r == [Group(target, r[0].ids)] + groups[1..];
      forall t ensures HasGroup(r, t) <==> HasGroup(groups, t) {
        HasGroupCons(Group(target, r[0].ids), groups[1..], t);
        HasGroupCons(groups[0], groups[1..], t);
      }
    } else {
      HasGroupCons(groups[0], groups[1..], target);
      AddIdKeepsGroups(groups[1..], target, id);
      assert r == [groups[0]] + AddId(groups[1..], target, id);
      forall t ensures HasGroup(r, t) <==> HasGroup(groups, t) {
        HasGroupCons(groups[0], AddId(groups[1..], target, id), t);
        HasGroupCons(groups[0], groups[1..], t);
      }
    }
  }

  lemma {:induction false} AddAllKeepsGroups(groups: seq<Group>, target: string, ids: seq<string>)
    requires HasGroup(groups, target)
    ensures forall t :: HasGroup(AddAll(groups, target, ids), t) <==> HasGroup(groups, t)
    decreases |ids|
  {
    if ids != [] {
      AddAllKeepsGroups(groups, target, ids[..|ids| - 1]);
      AddIdKeepsGroups(AddAll(groups, target, ids[..|ids| - 1]), target, ids[|ids| - 1]);
    }
  }

  lemma {:induction false} AddAllEffect(groups: seq<Group>, target: string, ids: seq<string>)
    requires WellFormed(groups)
    ensures WellFormed(AddAll(groups, target, ids))
    ensures forall g <- AddAll(groups, target, ids) :: g.target == target || g in groups
    ensures forall t :: IdsFor(AddAll(groups, target, ids), t) ==
                          (if t != target then IdsFor(groups, t) else Extend(IdsFor(groups, t), ids))
    decreases |ids|
  {
    if ids != [] {
      AddAllEffect(groups, target, ids[..|ids| - 1]);
      AddIdEffect(AddAll(groups, target, ids[..|ids| - 1]), target, ids[|ids| - 1]);
    }
  }

  lemma {:induction false} ExtendAppend(d: seq<string>, a: seq<string>, b: seq<string>)
    ensures Extend(Extend(d, a), b) == Extend(d, a + b)
    decreases |b|
  {
    if b != [] {
      ExtendAppend(d, a, b[..|b| - 1]);
      assert (a + b)[..|a + b| - 1] == a + b[..|b| - 1];
      assert (a + b)[|a + b| - 1] == b[|b| - 1];
    } else {
      assert a + b == a;
    }
  }

  /** One pass of the loop body: the grouping stays well formed, only the
      group of `target` changes (set semantics), and it exists afterwards
      exactly when it did before or a reference was reached. */
  lemma StepEffect(prior: seq<Group>, target: string, scan: Scan)
    requires WellFormed(prior)
    requires scan.ids != [] ==> scan.visited
    ensures WellFormed(Step(prior, target, scan))
    ensures forall g <- Step(prior, target, scan) :: g.target == target || g in prior
    ensures forall t :: IdsFor(Step(prior, target, scan), t) ==
                          (if t != target then IdsFor(prior, t) else Extend(IdsFor(prior, t), scan.ids))
    ensures forall t :: HasGroup(Step(prior, target, scan), t) <==> HasGroup(prior, t) || (t == target && scan.visited)
  {
    var touched := if scan.visited then Touch(prior, target) else prior;
    if scan.visited {
      TouchWellFormed(prior, target);
      TouchIds(prior, target);
      AddAllKeepsGroups(touched, target, scan.ids);
    }
    AddAllEffect(touched, target, scan.ids);
  }

  /** Some fetch of `t` among `targets` reached a reference. */
  predicate Reached(domain: string, entryId: string, targets: seq<string>, net: Request -> Reply, t: string)
    decreases |targets|
  {
    && targets != []
    && (|| Reached(domain, entryId, targets[..|targets| - 1], net, t)
        || (targets[|targets| - 1] == t && ReplyScan(net(XrefDomain.XrefRequest(domain, entryId, t))).visited))
  }

  lemma {:induction false} GatheredWellFormed(domain: string, entryId: string, targets: seq<string>, net: Request -> Reply)
    ensures WellFormed(Gathered(domain, entryId, targets, net))
    ensures forall g <- Gathered(domain, entryId, targets, net) :: g.target in targets
    decreases |targets|
  {
    if targets != [] {
      var init := targets[..|targets| - 1];
      var last := targets[|targets| - 1];
      GatheredWellFormed(domain, entryId, init, net);
      StepEffect(Gathered(domain, entryId, init, net), last, ReplyScan(net(XrefDomain.XrefRequest(domain, entryId, last))));
      assert targets == init + [last];
      forall g <- Gathered(domain, entryId, targets, net) ensures g.target in targets {
        if g.target != last {
          assert g.target in init;
        }
      }
    }
  }

  lemma {:induction false} GatheredIds(domain: string, entryId: string, targets: seq<string>, net: Request -> Reply, t: string)
    ensures IdsFor(Gathered(domain, entryId, targets, net), t) == Extend([], AllIds(domain, entryId, targets, net, t))
    ensures HasGroup(Gathered(domain, entryId, targets, net), t) <==> Reached(domain, entryId, targets, net, t)
    decreases |targets|
  {
    if targets != [] {
      var init := targets[..|targets| - 1];
      var last := targets[|targets| - 1];
      var scan := ReplyScan(net(XrefDomain.XrefRequest(domain, entryId, last)));
      var before := Gathered(domain, entryId, init, net);
      var prior := AllIds(domain, entryId, init, net, t);
      assert AllIds(domain, entryId, targets, net, t) == prior + (if last == t then scan.ids else []);
      GatheredIds(domain, entryId, init, net, t);
      GatheredWellFormed(domain, entryId, init, net);
      StepEffect(before, last, scan);
      if t == last {
        ExtendAppend([], prior, scan.ids);
      } else {
        assert prior + [] == prior;
      }
    }
  }

  /** The fan-out result, characterised without the loop: the groups are
      well formed, each is named after a fetched target, and the ids of target
      `t` are exactly the distinct ids all fetches of `t` returned, in first-seen
      order; `t` has a group exactly when some fetch of `t` reached a
      reference, which every fetch that returned an id did. */
  lemma GatheredSpec(domain: string, entryId: string, targets: seq<string>, net: Request -> Reply)
    ensures WellFormed(Gathered(domain, entryId, targets, net))
    ensures forall g <- Gathered(domain, entryId, targets, net) :: g.target in targets
    ensures forall t :: IdsFor(Gathered(domain, entryId, targets, net), t)
                        == Extend([], AllIds(domain, entryId, targets, net, t))
    ensures forall t :: HasGroup(Gathered(domain, entryId, targets, net), t) <==>
                        Reached(domain, entryId, targets, net, t)
    ensures forall t :: AllIds(domain, entryId, targets, net, t) != [] ==>
                        HasGroup(Gathered(domain, entryId, targets, net), t)
  {
    var g := Gathered(domain, entryId, targets, net);
    GatheredWellFormed(domain, entryId, targets, net);
    forall t ensures IdsFor(g, t) == Extend([], AllIds(domain, entryId, targets, net, t))
      && (HasGroup(g, t) <==> Reached(domain, entryId, targets, net, t))
      && (AllIds(domain, entryId, targets, net, t) != [] ==> HasGroup(g, t))
    {
      GatheredIds(domain, entryId, targets, net, t);
      IdsForMembership(g, t);
      ExtendEmpty(AllIds(domain, entryId, targets, net, t));
    }
  }

  lemma {:induction false} ExtendEmpty(s: seq<string>)
    ensures Extend([], s) == [] <==> s == []
    ensures forall x <- Extend([], s) :: x in s
    decreases |s|
  {
    if s != [] {
      ExtendEmpty(s[..|s| - 1]);
    }
  }

  lemma {:induction false} AllIdsIsolated(domain: string, entryId: string, targets: seq<string>,
                                          net: Request -> Reply, net': Request -> Reply, t: string)
    requires forall u :: u != t ==> net(XrefDomain.XrefRequest(domain, entryId, u)) == net'(XrefDomain.XrefRequest(domain, entryId, u))
    ensures forall u :: u != t ==> AllIds(domain, entryId, targets, net, u) == AllIds(domain, entryId, targets, net', u)
    ensures forall u :: u != t ==> Reached(domain, entryId, targets, net, u) == Reached(domain, entryId, targets, net', u)
    decreases |targets|
  {
    if targets != [] {
      AllIdsIsolated(domain, entryId, targets[..|targets| - 1], net, net', t);
    }
  }

  /** Fan-out isolation: whatever the fetch of one target `t` returns (a
      failure included), every other target's group is the same. */
  lemma FanOutIsolation(domain: string, entryId: string, targets: seq<string>,
                        net: Request -> Reply, net': Request -> Reply, t: string, u: string)
    requires forall v :: v != t ==> net(XrefDomain.XrefRequest(domain, entryId, v)) == net'(XrefDomain.XrefRequest(domain, entryId, v))
    requires u != t
    ensures IdsFor(Gathered(domain, entryId, targets, net), u) == IdsFor(Gathered(domain, entryId, targets, net'), u)
    ensures HasGroup(Gathered(domain, entryId, targets, net), u) <==> HasGroup(Gathered(domain, entryId, targets, net'), u)
  {
    AllIdsIsolated(domain, entryId, targets, net, net', t);
    GatheredSpec(domain, entryId, targets, net);
    GatheredSpec(domain, entryId, targets, net');
  }

  lemma {:induction false} NotReachedOfFailedTarget(domain: string, entryId: string, targets: seq<string>,
                                                    net: Request -> Reply, t: string)
    requires !ReplyScan(net(XrefDomain.XrefRequest(domain, entryId, t))).visited
    ensures !Reached(domain, entryId, targets, net, t)
    decreases |targets|
  {
    if targets != [] {
      NotReachedOfFailedTarget(domain, entryId, targets[..|targets| - 1], net, t);
    }
  }

  /** A target whose fetch fails, or whose reply reaches no reference, gets no
      group, and does not stop the others. */
  lemma FailedTargetSkipped(domain: string, entryId: string, targets: seq<string>, net: Request -> Reply, t: string)
    requires !ReplyScan(net(XrefDomain.XrefRequest(domain, entryId, t))).visited
    ensures !HasGroup(Gathered(domain, entryId, targets, net), t)
  {
    NotReachedOfFailedTarget(domain, entryId, targets, net, t);
    GatheredSpec(domain, entryId, targets, net);
  }

  lemma {:induction false} ReachedOfFetchedTarget(domain: string, entryId: string, targets: seq<string>,
                                                  net: Request -> Reply, t: string)
    requires t in targets && ReplyScan(net(XrefDomain.XrefRequest(domain, entryId, t))).visited
    ensures Reached(domain, entryId, targets, net, t)
    decreases |targets|
  {
    if targets[|targets| - 1] != t {
      assert targets == targets[..|targets| - 1] + [targets[|targets| - 1]];
      ReachedOfFetchedTarget(domain, entryId, targets[..|targets| - 1], net, t);
    }
  }

  /** A fetched target whose reply reaches a reference keeps its group even
      when reading the reference's id throws before any id is added: the
      group is then empty. */
  lemma EmptyGroupKept(domain: string, entryId: string, targets: seq<string>, net: Request -> Reply, t: string)
    requires t in targets
    requires ReplyScan(net(XrefDomain.XrefRequest(domain, entryId, t))) == Scan([], false, true)
    ensures HasGroup(Gathered(domain, entryId, targets, net), t)
    ensures IdsFor(Gathered(domain, entryId, targets, net), t) == []
  {
    ReachedOfFetchedTarget(domain, entryId, targets, net, t);
    GatheredSpec(domain, entryId, targets, net);
    AllIdsOfEmptyTarget(domain, entryId, targets, net, t);
  }

  lemma {:induction false} AllIdsOfEmptyTarget(domain: string, entryId: string, targets: seq<string>,
                                               net: Request -> Reply, t: string)
    requires ReplyIds(net(XrefDomain.XrefRequest(domain, entryId, t))) == []
    ensures AllIds(domain, entryId, targets, net, t) == []
    decreases |targets|
  {
    if targets != [] {
      AllIdsOfEmptyTarget(domain, entryId, targets[..|targets| - 1], net, t);
    }
  }

  /** The reply that does it: an ok JSON body whose only entry lists one null
      reference. The loop reaches the reference, creating the group, and then
      `null.id` throws. */
  lemma NullReferenceReply(contentType: string, text: string)
    ensures ReplyScan(Response(200, contentType, text,
              Some(Obj([Field("entries", Arr([Obj([Field("references", Arr([Null]))])]))]))))
            == Scan([], false, true)
  {
    var entry := Obj([Field("references", Arr([Null]))]);
    assert Prop(entry, "references") == Ok(Arr([Null]));
    assert ReferenceItems(entry) == Ok([Null]);
    assert RefIds([Null]) == Scan([], false, true);
    assert EntriesIds([entry]) == Scan([], false, true);
  }

  // ------------------------------------------------------------------
  // Truncation, ranking, result
  // ------------------------------------------------------------------

  /** One returned group: `{targetDomain, entries: [{id}, ...]}`. */
  datatype CrossRef = CrossRef(targetDomain: string, entries: seq<string>)

  /** `Array.from(grouped.entries()).map(...)` with each id list cut to three. */
  function Truncated(groups: seq<Group>): (r: seq<CrossRef>)
    ensures |r| == |groups|
    ensures forall i :: 0 <= i < |r| ==>
      r[i].targetDomain == groups[i].target
      && r[i].entries == groups[i].ids[..Min(MaxEntriesPerDomain, |groups[i].ids|)]
  {
    seq(|groups|, i requires 0 <= i < |groups| =>
      CrossRef(groups[i].target, groups[i].ids[..Min(MaxEntriesPerDomain, |groups[i].ids|)]))
  }

  /** `PRIORITY_DOMAINS.indexOf(t)` */
  function PriorityIndex(t: string): (r: int)
    ensures -1 <= r < |PriorityDomains|
    ensures r == -1 <==> t !in PriorityDomains
    ensures r >= 0 ==> PriorityDomains[r] == t
  {
    if t == PriorityDomains[0] then 0
    else if t == PriorityDomains[1] then 1
    else if t == PriorityDomains[2] then 2
    else -1
  }

  /** The rank of a priority domain, 999 for any other. */
  function PriorityRank(t: string): int {
    var p := PriorityIndex(t);
    if p == -1 then 999 else p
  }

  /** The comparator passed to `sort`. */
  function Compare(a: CrossRef, b: CrossRef): int {
    var pa := PriorityIndex(a.targetDomain);
    var pb := PriorityIndex(b.targetDomain);
    if pa != -1 || pb != -1 then PriorityRank(a.targetDomain) - PriorityRank(b.targetDomain)
    else |b.entries| - |a.entries|
  }

  /** The comparator is a consistent total preorder. */
  lemma CompareIsPreorder(a: CrossRef, b: CrossRef, c: CrossRef)
    ensures Compare(a, b) == -Compare(b, a)
    ensures Compare(a, b) <= 0 && Compare(b, c) <= 0 ==> Compare(a, c) <= 0
  {
  }

  predicate Sorted(s: seq<CrossRef>) {
    forall i, j :: 0 <= i < j < |s| ==> Compare(s[i], s[j]) <= 0
  }

  /** Insert `x` before the first element it does not rank after. */
  function Insert(x: CrossRef, s: seq<CrossRef>): seq<CrossRef> {
    if s == [] then [x]
    else if Compare(x, s[0]) <= 0 then [x] + s
    else [s[0]] + Insert(x, s[1..])
  }

  /** A stable sort by `Compare`, as `Array.prototype.sort` is (`RankSortStable`). */
  function RankSort(s: seq<CrossRef>): seq<CrossRef> {
    if s == [] then [] else Insert(s[0], RankSort(s[1..]))
  }

  lemma {:induction false} InsertElements(x: CrossRef, s: seq<CrossRef>)
    ensures multiset(Insert(x, s)) == multiset(s) + multiset{x}
    ensures forall y <- Insert(x, s) :: y == x || y in s
  {
    if s != [] && Compare(x, s[0]) > 0 {
      InsertElements(x, s[1..]);
      assert s == [s[0]] + s[1..];
    }
  }

  lemma {:induction false} InsertSorted(x: CrossRef, s: seq<CrossRef>)
    requires Sorted(s)
    ensures Sorted(Insert(x, s))
    ensures multiset(Insert(x, s)) == multiset(s) + multiset{x}
  {
    InsertElements(x, s);
    if s == [] {
    } else if Compare(x, s[0]) <= 0 {
      forall z <- s ensures Compare(x, z) <= 0 {
        CompareIsPreorder(x, s[0], z);
      }
      ConsSorted(x, s);
    } else {
      var tail := Insert(x, s[1..]);
      assert Sorted(s[1..]);
      InsertSorted(x, s[1..]);
      InsertElements(x, s[1..]);
      forall z <- tail ensures Compare(s[0], z) <= 0 {
        if z == x {
          CompareIsPreorder(x, s[0], s[0]);
        } else {
          assert z in s[1..];
          var k :| 0 <= k < |s[1..]| && s[1..][k] == z;
          assert s[k + 1] == z;
        }
      }
      ConsSorted(s[0], tail);
    }
  }

  /** An element ranked no later than every element of a sorted list can go in front of it. */
  lemma ConsSorted(y: CrossRef, t: seq<CrossRef>)
    requires Sorted(t)
    requires forall z <- t :: Compare(y, z) <= 0
    ensures Sorted([y] + t)
  {
    var r := [y] + t;
    forall i, j | 0 <= i < j < |r| ensures Compare(r[i], r[j]) <= 0 {
      assert r[j] == t[j - 1];
      if i > 0 {
        assert r[i] == t[i - 1];
      }
    }
  }

  /** The sort returns a permutation of its input, ordered by the comparator. */
  lemma {:induction false} RankSortSpec(s: seq<CrossRef>)
    ensures Sorted(RankSort(s))
    ensures multiset(RankSort(s)) == multiset(s)
  {
    if s != [] {
      RankSortSpec(s[1..]);
      InsertSorted(s[0], RankSort(s[1..]));
      assert s == [s[0]] + s[1..];
    }
  }

  /** The elements of `s` that rank equal to `c`, in order. */
  function Ties(s: seq<CrossRef>, c: CrossRef): (r: seq<CrossRef>)
    ensures forall x <- r :: x in s && Compare(x, c) == 0
  {
    if s == [] then []
    else (if Compare(s[0], c) == 0 then [s[0]] else []) + Ties(s[1..], c)
  }

  /** Inserting `x` adds it in front of the elements that rank equal to it. */
  lemma {:induction false} InsertTies(x: CrossRef, s: seq<CrossRef>, c: CrossRef)
    ensures Ties(Insert(x, s), c) == (if Compare(x, c) == 0 then [x] else []) + Ties(s, c)
  {
    var t := Insert(x, s);
    if s == [] {
      assert t[1..] == [];
    } else if Compare(x, s[0]) <= 0 {
      assert t[0] == x && t[1..] == s;
    } else {
      var tail := Insert(x, s[1..]);
      InsertTies(x, s[1..], c);
      var hs := if Compare(s[0], c) == 0 then [s[0]] else [];
      assert Ties(t, c) == hs + Ties(tail, c) by {
        assert t[0] == s[0] && t[1..] == tail;
      }
      NotBothTies(x, s[0], c);
    }
  }

  /** Two elements that do not rank equal cannot both rank equal to a third. */
  lemma NotBothTies(a: CrossRef, b: CrossRef, c: CrossRef)
    requires Compare(a, b) != 0
    ensures Compare(a, c) != 0 || Compare(b, c) != 0
  {
  }

  /** The sort is stable: the elements that rank equal keep their input order. */
  lemma {:induction false} RankSortStable(s: seq<CrossRef>, c: CrossRef)
    ensures Ties(RankSort(s), c) == Ties(s, c)
  {
    if s != [] {
      RankSortStable(s[1..], c);
      InsertTies(s[0], RankSort(s[1..]), c);
    }
  }

  /** What the ranking means: every priority group precedes every other, the
      priority groups follow the priority list, and of two other groups the
      larger comes first. */
  lemma RankedOrder(s: seq<CrossRef>, i: nat, j: nat)
    requires i < j < |RankSort(s)|
    ensures var r := RankSort(s);
      && (r[j].targetDomain in PriorityDomains ==> r[i].targetDomain in PriorityDomains)
      && (r[i].targetDomain in PriorityDomains && r[j].targetDomain in PriorityDomains ==>
            PriorityIndex(r[i].targetDomain) <= PriorityIndex(r[j].targetDomain))
      && (r[i].targetDomain !in PriorityDomains && r[j].targetDomain !in PriorityDomains ==>
            |r[i].entries| >= |r[j].entries|)
  {
    RankSortSpec(s);
    assert Compare(RankSort(s)[i], RankSort(s)[j]) <= 0;
  }

  /** `crossReferences.reduce((sum, cr) => sum + cr.entries.length, 0)` */
  function TotalEntries(crs: seq<CrossRef>): nat {
    if crs == [] then 0 else |crs[0].entries| + TotalEntries(crs[1..])
  }

  lemma {:induction false} TotalEntriesBound(crs: seq<CrossRef>, k: nat)
    requires forall c <- crs :: |c.entries| <= k
    ensures TotalEntries(crs) <= k * |crs|
  {
    if crs != [] {
      TotalEntriesBound(crs[1..], k);
    }
  }

  /** The two shapes of a result: without `count`/`crossReferences`, or with them. */
  datatype AllResult =
    | Minimal(sourceDomain: string, sourceId: string)
    | Aggregated(sourceDomain: string, sourceId: string, count: nat, crossReferences: seq<CrossRef>)

  /** The aggregation, as a function of the inputs and the network. */
  function Aggregate(domain: string, entryId: string, net: Request -> Reply): Result<AllResult> {
    if domain == "" || entryId == "" then Err("domain and entryId are required")
    else
      var disc := XrefDomain.Discover(domain, net);
      if disc.Err? then Err(disc.message)
      else
        var discovered := Discovered(disc.value.targetDomains);
        if |discovered| == 0 then Ok(Minimal(domain, entryId))
        else
          var groups := Gathered(domain, entryId, TargetsToFetch(discovered), net);
          if groups == [] then Ok(Minimal(domain, entryId))
          else
            var returned := Returned(groups);
            Ok(Aggregated(domain, entryId, TotalEntries(returned), returned))
  }

  /** The groups returned: truncated, ranked, and cut to `MaxReturnDomains`. */
  function Returned(groups: seq<Group>): seq<CrossRef> {
    var ranked := RankSort(Truncated(groups));
    ranked[..Min(MaxReturnDomains, |ranked|)]
  }

  /** The requests the aggregation sends, in order. */
  function SentRequests(domain: string, entryId: string, net: Request -> Reply): seq<Request> {
    if domain == "" || entryId == "" then []
    else
      var disc := XrefDomain.Discover(domain, net);
      if disc.Err? || |disc.value.targetDomains| == 0 then [XrefDomain.CatalogRequest(domain)]
      else
        var targets := TargetsToFetch(Discovered(disc.value.targetDomains));
        [XrefDomain.CatalogRequest(domain)] + FetchRequests(domain, entryId, targets)
  }

  /** `EBICrossReferenceAllHandler.run` */
  method Run(domain: string, entryId: string, net: Request -> Reply) returns (r: Result<AllResult>, sent: seq<Request>)
    ensures r == Aggregate(domain, entryId, net)
    ensures sent == SentRequests(domain, entryId, net)
  {
    if domain == "" || entryId == "" {
      return Err("domain and entryId are required"), [];
    }
    sent := [XrefDomain.CatalogRequest(domain)];
    var discovery := XrefDomain.Discover(domain, net);
    if discovery.Err? {
      return Err(discovery.message), sent;
    }
    var discovered := Discovered(discovery.value.targetDomains);
    if |discovered| == 0 {
      return Ok(Minimal(domain, entryId)), sent;
    }
    var targets := TargetsToFetch(discovered);
    var grouped, fetches := FanOut(domain, entryId, targets, net);
    sent := sent + fetches;
    if grouped == [] {
      return Ok(Minimal(domain, entryId)), sent;
    }
    var ranked := RankSort(Truncated(grouped));
    var crossReferences := ranked[..Min(MaxReturnDomains, |ranked|)];
    r := Ok(Aggregated(domain, entryId, TotalEntries(crossReferences), crossReferences));
  }

  /** Missing arguments fail before any request; an empty discovery, or a
      fan-out in which no reply reached a reference, gives the minimal result. */
  lemma AggregateEarlyExits(domain: string, entryId: string, net: Request -> Reply)
    ensures domain == "" || entryId == "" ==>
      Aggregate(domain, entryId, net) == Err("domain and entryId are required")
      && SentRequests(domain, entryId, net) == []
    ensures domain != "" && entryId != "" && XrefDomain.Discover(domain, net) == Ok(XrefDomain.Discovery(domain, [])) ==>
      Aggregate(domain, entryId, net) == Ok(Minimal(domain, entryId))
    ensures domain != "" && entryId != "" && XrefDomain.Discover(domain, net).Err? ==>
      Aggregate(domain, entryId, net) == Err(XrefDomain.Discover(domain, net).message)
  {
  }

  /** When no fetched reply reaches a reference (every fetch failed, or no
      entry listed a reference), the result is the same minimal shape as for
      an empty discovery. */
  lemma NothingReachedMinimal(domain: string, entryId: string, net: Request -> Reply)
    requires domain != "" && entryId != "" && XrefDomain.Discover(domain, net).Ok?
    requires forall t <- TargetsToFetch(Discovered(XrefDomain.Discover(domain, net).value.targetDomains)) ::
      !ReplyScan(net(XrefDomain.XrefRequest(domain, entryId, t))).visited
    ensures Aggregate(domain, entryId, net) == Ok(Minimal(domain, entryId))
  {
    var targets := TargetsToFetch(Discovered(XrefDomain.Discover(domain, net).value.targetDomains));
    var groups := Gathered(domain, entryId, targets, net);
    if groups != [] {
      GatheredSpec(domain, entryId, targets, net);
      assert HasGroup(groups, groups[0].target) by {
        assert groups[0] in groups;
      }
      NotReachedOfFailedTarget(domain, entryId, targets, net, groups[0].target);
      assert false;
    }
  }

  /** At most one discovery and ten per-target fetches are sent. */
  lemma SentBound(domain: string, entryId: string, net: Request -> Reply)
    ensures |SentRequests(domain, entryId, net)| <= 1 + MaxFetchDomains
  {
  }

  /** What the returned groups hold, for any well-formed non-empty grouping:
      one to three groups with distinct targets that have a group, each
      holding at most three distinct ids of that group; ranked; at most nine ids. */
  lemma ReturnedSpec(groups: seq<Group>)
    requires WellFormed(groups) && groups != []
    ensures var crs := Returned(groups);
      && 1 <= |crs| <= MaxReturnDomains
      && (forall c <- crs :: |c.entries| <= MaxEntriesPerDomain && Distinct(c.entries))
      && (forall c <- crs :: HasGroup(groups, c.targetDomain))
      && (forall c <- crs, id <- c.entries :: id in IdsFor(groups, c.targetDomain))
      && (forall i, j :: 0 <= i < j < |crs| ==> crs[i].targetDomain != crs[j].targetDomain)
      && Sorted(crs)
      && TotalEntries(crs) <= MaxReturnDomains * MaxEntriesPerDomain
  {
    var all := Truncated(groups);
    var ranked := RankSort(all);
    RankSortSpec(all);
    assert |ranked| == |all| by {
      assert |multiset(ranked)| == |multiset(all)|;
    }
    var crs := Returned(groups);
    assert crs == ranked[..Min(MaxReturnDomains, |ranked|)];
    forall c <- crs
      ensures |c.entries| <= MaxEntriesPerDomain && Distinct(c.entries)
      ensures HasGroup(groups, c.targetDomain)
      ensures forall id <- c.entries :: id in IdsFor(groups, c.targetDomain)
    {
      assert c in ranked;
      assert c in multiset(all);
      TruncatedElement(groups, c);
    }
    forall i, j | 0 <= i < j < |crs| ensures crs[i].targetDomain != crs[j].targetDomain {
      DistinctTargetsSurviveSort(groups, i, j);
    }
    TotalEntriesBound(crs, MaxEntriesPerDomain);
  }

  /** Each truncated group holds at most three distinct ids of a group of its target. */
  lemma TruncatedElement(groups: seq<Group>, c: CrossRef)
    requires WellFormed(groups) && c in Truncated(groups)
    ensures |c.entries| <= MaxEntriesPerDomain && Distinct(c.entries)
    ensures HasGroup(groups, c.targetDomain)
    ensures forall id <- c.entries :: id in IdsFor(groups, c.targetDomain)
  {
    var all := Truncated(groups);
    var k :| 0 <= k < |all| && all[k] == c;
    var g := groups[k];
    assert g in groups;
    assert c.entries == g.ids[..Min(MaxEntriesPerDomain, |g.ids|)];
    IdsForAt(groups, k);
  }

  /** The bounds and ordering of an aggregated result: one to three groups, with
      distinct targets that were all fetched and whose replies reached a
      reference, each holding at most three distinct ids that its fetches
      returned (none when the first reference read throws); the groups are
      ranked; and `count` is the number of returned ids, so at most nine. */
  lemma AggregatedResultSpec(domain: string, entryId: string, net: Request -> Reply)
    requires Aggregate(domain, entryId, net).Ok? && Aggregate(domain, entryId, net).value.Aggregated?
    ensures var res := Aggregate(domain, entryId, net).value;
      var crs := res.crossReferences;
      var targets := TargetsToFetch(Discovered(XrefDomain.Discover(domain, net).value.targetDomains));
      && 1 <= |crs| <= MaxReturnDomains
      && (forall c <- crs :: |c.entries| <= MaxEntriesPerDomain && Distinct(c.entries))
      && (forall c <- crs :: c.targetDomain in targets && Reached(domain, entryId, targets, net, c.targetDomain))
      && (forall c <- crs, id <- c.entries :: id in AllIds(domain, entryId, targets, net, c.targetDomain))
      && (forall i, j :: 0 <= i < j < |crs| ==> crs[i].targetDomain != crs[j].targetDomain)
      && Sorted(crs)
      && res.count == TotalEntries(crs) <= MaxReturnDomains * MaxEntriesPerDomain
  {
    var disc := XrefDomain.Discover(domain, net);
    var targets := TargetsToFetch(Discovered(disc.value.targetDomains));
    var groups := Gathered(domain, entryId, targets, net);
    assert Aggregate(domain, entryId, net).value.crossReferences == Returned(groups);
    GatheredSpec(domain, entryId, targets, net);
    ReturnedSpec(groups);
    var crs := Returned(groups);
    forall c <- crs ensures c.targetDomain in targets && Reached(domain, entryId, targets, net, c.targetDomain)
      && forall id <- c.entries :: id in AllIds(domain, entryId, targets, net, c.targetDomain)
    {
      ExtendEmpty(AllIds(domain, entryId, targets, net, c.targetDomain));
      var g :| g in groups && g.target == c.targetDomain;
    }
  }

  /** The group at position `k` is the one `IdsFor` finds. */
  lemma {:induction false} IdsForAt(groups: seq<Group>, k: nat)
    requires WellFormed(groups) && k < |groups|
    ensures IdsFor(groups, groups[k].target) == groups[k].ids
  {
    if k > 0 {
      assert WellFormed(groups[1..]);
      IdsForAt(groups[1..], k - 1);
    }
  }

  /** Sorting keeps the targets of well-formed groups distinct. */
  lemma DistinctTargetsSurviveSort(groups: seq<Group>, i: nat, j: nat)
    requires WellFormed(groups)
    requires i < j < |RankSort(Truncated(groups))|
    ensures RankSort(Truncated(groups))[i].targetDomain != RankSort(Truncated(groups))[j].targetDomain
  {
    var all := Truncated(groups);
    var r := RankSort(all);
    RankSortSpec(all);
    if r[i].targetDomain == r[j].targetDomain {
      assert r[i] in multiset(all);
      assert r[j] in multiset(all);
      var a :| 0 <= a < |all| && all[a] == r[i];
      var b :| 0 <= b < |all| && all[b] == r[j];
      if a == b {
        CountTwo(r, i, j);
        DistinctTargetsCount(all, a);
      }
    }
  }

  /** An element found at two positions occurs at least twice. */
  lemma CountTwo<T>(r: seq<T>, i: nat, j: nat)
    requires i < j < |r| && r[i] == r[j]
    ensures multiset(r)[r[i]] >= 2
  {
    var x := r[i];
    assert r == (r[..i] + [x] + r[i + 1..j]) + ([x] + r[j + 1..]);
    assert multiset(r[..i] + [x] + r[i + 1..j])[x] >= 1;
    assert multiset([x] + r[j + 1..])[x] >= 1;
  }

  /** With distinct targets, each element of the truncated list occurs once. */
  lemma DistinctTargetsCount(all: seq<CrossRef>, a: nat)
    requires a < |all|
    requires forall i, j :: 0 <= i < j < |all| ==> all[i].targetDomain != all[j].targetDomain
    ensures multiset(all)[all[a]] == 1
  {
    var x := all[a];
    assert all == all[..a] + [x] + all[a + 1..];
    assert x !in all[..a];
    assert x !in all[a + 1..];
    assert multiset(all) == multiset(all[..a]) + multiset{x} + multiset(all[a + 1..]);
  }
}
