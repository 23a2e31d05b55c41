/** The targeted cross-reference resolver (`EBICrossReferenceTargetedHandler`):
    validates the arguments, checks the target domain against the set of
    targets discovered for the source domain (cached across calls), then
    fetches the cross-references of the given entries into that one target. */
module XrefTargeted {
  import opened Js
  import opened Net
  import XrefDomain

  /** `entryIds`: one id, or an array of ids. A missing argument is `One("")`. */
  datatype EntryIds = One(id: string) | Many(ids: seq<string>)

  /** One reference of an entry: `{id: String(x.id), domain: String(x.source)}`. */
  datatype TargetRef = TargetRef(id: string, domain: string)

  /** One entry of the reply with all its references. */
  datatype EntryRefs = EntryRefs(sourceId: string, targets: seq<TargetRef>)

  datatype Payload = Payload(sourceDomain: string, targetDomain: string, count: nat, crossReferences: seq<EntryRefs>)

  /** What one call produces: its result, the cache after it and the requests it sent. */
  datatype Outcome = Outcome(result: Result<Payload>, cache: map<string, set<string>>, sent: seq<Request>)

  const RequiredMessage: string := "domain, entryIds, and targetDomain are required"
  const AccessionMessage: string := "For UniProt XREF, use accession (e.g. P04637), not entry name (P53_HUMAN)"

  function UnsupportedMessage(domain: string, targetDomain: string): string {
    "Unsupported EBISearch cross-reference: " + domain + " \U{2192} " + targetDomain
  }

  /** `!domain || !entryIds || !targetDomain` (an array, even empty, is truthy). */
  predicate MissingArgument(domain: string, entryIds: EntryIds, targetDomain: string) {
    domain == "" || entryIds == One("") || targetDomain == ""
  }

  /** A single UniProt id that looks like an entry name (`P53_HUMAN`). */
  predicate UniprotEntryName(domain: string, entryIds: EntryIds) {
    domain == "uniprot" && entryIds.One? && '_' in entryIds.id
  }

  /** The ids as they go into the URL: an array is joined with ",". */
  function JoinedIds(entryIds: EntryIds): (r: string)
    ensures entryIds.One? ==> r == entryIds.id
    ensures entryIds.Many? && |entryIds.ids| == 1 ==> r == entryIds.ids[0]
  {
    match entryIds
    case One(id) => id
    case Many(ids) => Join(ids, ",")
  }

  /** `new Set(targetDomains.map((t) => t.domain))` */
  function AllowedTargets(descriptors: seq<Json>): set<string> {
    set d <- descriptors | Get(d, "domain").Str? :: Get(d, "domain").s
  }

  /** `(e.references ?? []).map(...)` over the references array. */
  function MapTargets(refs: seq<Json>): (r: Result<seq<TargetRef>>)
    ensures r.Ok? <==> forall x <- refs :: !IsNullish(x)
    ensures r.Ok? ==> |r.value| == |refs|
    ensures r.Ok? ==> forall j :: 0 <= j < |refs| ==>
      r.value[j] == TargetRef(ToStr(Get(refs[j], "id")), ToStr(Get(refs[j], "source")))
  {
    if refs == [] then Ok([])
    else if IsNullish(refs[0]) then Err(TypeErrorMessage)
    else
      var rest := MapTargets(refs[1..]);
      if rest.Err? then rest
      else Ok([TargetRef(ToStr(Get(refs[0], "id")), ToStr(Get(refs[0], "source")))] + rest.value)
  }

  /** The references of a non-null entry: `e.references ?? []`, which must be an array. */
  function References(e: Json): Result<seq<Json>>
    requires !IsNullish(e)
  {
    match Coalesce(Get(e, "references"), Arr([]))
    case Arr(items) => Ok(items)
    case _ => Err("TypeError: references.map is not a function")
  }

  /** One entry of the reply; a null entry throws. */
  function MapEntry(e: Json): (r: Result<EntryRefs>)
    ensures r.Ok? ==> !IsNullish(e) && References(e).Ok? && r.value.sourceId == ToStr(Get(e, "id"))
    ensures r.Ok? ==> MapTargets(References(e).value) == Ok(r.value.targets)
  {
    if IsNullish(e) then Err(TypeErrorMessage)
    else
      var refs := References(e);
      if refs.Err? then Err(refs.message)
      else
        var ts := MapTargets(refs.value);
        if ts.Err? then Err(ts.message) else Ok(EntryRefs(ToStr(Get(e, "id")), ts.value))
  }

  /** `data.entries.map(...)`: one item per entry, in order. */
  function MapEntries(entries: seq<Json>): (r: Result<seq<EntryRefs>>)
    ensures r.Ok? <==> forall e <- entries :: MapEntry(e).Ok?
    ensures r.Ok? ==> |r.value| == |entries|
    ensures r.Ok? ==> forall i :: 0 <= i < |entries| ==> MapEntry(entries[i]) == Ok(r.value[i])
  {
    if entries == [] then Ok([])
    else
      var first := MapEntry(entries[0]);
      if first.Err? then Err(first.message)
      else
        var rest := MapEntries(entries[1..]);
        if rest.Err? then rest
        else Ok([first.value] + rest.value)
  }

  /** The checks on the targeted reply and the payload built from it. */
  function PayloadOf(domain: string, targetDomain: string, reply: Reply): (r: Result<Payload>)
    ensures r.Ok? ==> IsOk(reply) && IsJsonContent(reply) && reply.body.Some?
    ensures reply.NetworkFailure? ==> r == Err(reply.reason)
    ensures reply.Response? && !IsOk(reply) ==>
      r == Err("EBI cross-reference search failed (" + Decimal(reply.status) + "): " + Prefix(reply.text, 200))
    ensures IsOk(reply) && !IsJsonContent(reply) ==>
      r == Err("EBI Search returned non-JSON response: " + Prefix(reply.text, 200))
    ensures IsOk(reply) && IsJsonContent(reply) && reply.body.None? ==> r == Err(SyntaxErrorMessage)
    ensures IsOk(reply) && IsJsonContent(reply) && reply.body.Some? && !Get(reply.body.value, "entries").Arr? ==>
      r == Err(if IsNullish(reply.body.value) then TypeErrorMessage else "Unexpected API response format: entries not found")
    ensures IsOk(reply) && IsJsonContent(reply) && reply.body.Some? && Get(reply.body.value, "entries").Arr? ==>
      var items := Get(reply.body.value, "entries").items;
      r == (if MapEntries(items).Ok? then Ok(Payload(domain, targetDomain, |items|, MapEntries(items).value))
            else Err(MapEntries(items).message))
  {
    if reply.NetworkFailure? then Err(reply.reason)
    else if !IsOk(reply) then
      Err("EBI cross-reference search failed (" + Decimal(reply.status) + "): " + Prefix(reply.text, 200))
    else if !IsJsonContent(reply) then Err("EBI Search returned non-JSON response: " + Prefix(reply.text, 200))
    else if reply.body.None? then Err(SyntaxErrorMessage)
    else
      var entries := Prop(reply.body.value, "entries");
      if entries.Err? then Err(entries.message)
      else if !entries.value.Arr? then Err("Unexpected API response format: entries not found")
      else
        var items := MapEntries(entries.value.items);
        if items.Err? then Err(items.message)
        else Ok(Payload(domain, targetDomain, |entries.value.items|, items.value))
  }

  /** The membership check against the cached set, then the targeted fetch. */
  function Checked(cache: map<string, set<string>>, domain: string, entryIds: EntryIds,
                   targetDomain: string, net: Request -> Reply): (o: Outcome)
    requires domain in cache
    ensures o.cache == cache
    ensures o.result.Ok? ==> targetDomain in cache[domain]
    ensures o.sent == [] <==> targetDomain !in cache[domain]
  {
    if targetDomain !in cache[domain] then Outcome(Err(UnsupportedMessage(domain, targetDomain)), cache, [])
    else
      var req := XrefDomain.XrefRequest(domain, JoinedIds(entryIds), targetDomain);
      Outcome(PayloadOf(domain, targetDomain, net(req)), cache, [req])
  }

  /** One call of the handler against the cache it starts with. */
  function Resolve(cache: map<string, set<string>>, domain: string, entryIds: EntryIds,
                   targetDomain: string, net: Request -> Reply): Outcome
  {
    if MissingArgument(domain, entryIds, targetDomain) then Outcome(Err(RequiredMessage), cache, [])
    else if UniprotEntryName(domain, entryIds) then Outcome(Err(AccessionMessage), cache, [])
    else if domain in cache then Checked(cache, domain, entryIds, targetDomain, net)
    else
      var found := XrefDomain.DiscoverDescriptors(domain, net);
      if found.Err? then Outcome(Err(found.message), cache, [XrefDomain.CatalogRequest(domain)])
      else
        var o := Checked(cache[domain := AllowedTargets(found.value)], domain, entryIds, targetDomain, net);
        Outcome(o.result, o.cache, [XrefDomain.CatalogRequest(domain)] + o.sent)
  }

  /** The handler with its module-level cache of allowed targets per source domain. */
  class TargetedResolver {
    var allowedTargets: map<string, set<string>>

    constructor ()
      ensures allowedTargets == map[]
    {
      allowedTargets := map[];
    }

    method Run(domain: string, entryIds: EntryIds, targetDomain: string, net: Request -> Reply)
      returns (r: Result<Payload>, sent: seq<Request>)
      modifies this
      ensures Outcome(r, allowedTargets, sent) == Resolve(old(allowedTargets), domain, entryIds, targetDomain, net)
    {
      sent := [];
      if MissingArgument(domain, entryIds, targetDomain) {
        MissingArgumentRejected(allowedTargets, domain, entryIds, targetDomain, net);
        return Err(RequiredMessage), sent;
      }
      if UniprotEntryName(domain, entryIds) {
        UniprotGuard(allowedTargets, entryIds, targetDomain, net);
        return Err(AccessionMessage), sent;
      }
      if domain !in allowedTargets {
        sent := sent + [XrefDomain.CatalogRequest(domain)];
        var found := XrefDomain.DiscoverDescriptors(domain, net);
        if found.Err? {
          FailedDiscoveryLeavesCache(allowedTargets, domain, entryIds, targetDomain, net);
          return Err(found.message), sent;
        }
        allowedTargets := allowedTargets[domain := AllowedTargets(found.value)];
      }
      ResolveAfterLookup(old(allowedTargets), allowedTargets, sent, domain, entryIds, targetDomain, net);
      if targetDomain !in allowedTargets[domain] {
        return Err(UnsupportedMessage(domain, targetDomain)), sent;
      }
      var req := XrefDomain.XrefRequest(domain, JoinedIds(entryIds), targetDomain);
      sent := sent + [req];
      r := PayloadOf(domain, targetDomain, net(req));
    }
  }

  /** Past the argument checks, a call is the check against the cache as it
      stands after any discovery, preceded by the discovery request if one was made. */
  lemma ResolveAfterLookup(cache: map<string, set<string>>, after: map<string, set<string>>, pre: seq<Request>,
                           domain: string, entryIds: EntryIds, targetDomain: string, net: Request -> Reply)
    requires !MissingArgument(domain, entryIds, targetDomain) && !UniprotEntryName(domain, entryIds)
    requires || (domain in cache && after == cache && pre == [])
             || (&& domain !in cache && XrefDomain.DiscoverDescriptors(domain, net).Ok?
                 && after == cache[domain := AllowedTargets(XrefDomain.DiscoverDescriptors(domain, net).value)]
                 && pre == [XrefDomain.CatalogRequest(domain)])
    ensures domain in after
    ensures var o := Checked(after, domain, entryIds, targetDomain, net);
      Resolve(cache, domain, entryIds, targetDomain, net) == Outcome(o.result, after, pre + o.sent)
  {
    if domain in cache {
      assert pre + Checked(after, domain, entryIds, targetDomain, net).sent == Checked(after, domain, entryIds, targetDomain, net).sent;
    }
  }

  /** A missing argument throws before anything is sent or cached. */
  lemma MissingArgumentRejected(cache: map<string, set<string>>, domain: string, entryIds: EntryIds,
                                targetDomain: string, net: Request -> Reply)
    requires MissingArgument(domain, entryIds, targetDomain)
    ensures Resolve(cache, domain, entryIds, targetDomain, net) == Outcome(Err(RequiredMessage), cache, [])
  {
  }

  /** A single UniProt entry name throws before discovery; an array of ids is
      never checked for "_". */
  lemma UniprotGuard(cache: map<string, set<string>>, entryIds: EntryIds, targetDomain: string, net: Request -> Reply)
    requires !MissingArgument("uniprot", entryIds, targetDomain)
    ensures entryIds.One? && '_' in entryIds.id ==>
      Resolve(cache, "uniprot", entryIds, targetDomain, net) == Outcome(Err(AccessionMessage), cache, [])
    ensures entryIds.Many? && "uniprot" in cache && targetDomain in cache["uniprot"] ==>
      Resolve(cache, "uniprot", entryIds, targetDomain, net).sent
        == [XrefDomain.XrefRequest("uniprot", Join(entryIds.ids, ","), targetDomain)]
  {
  }

  /** A cached domain is never rediscovered, and its cache is left as is. */
  lemma CacheHitSkipsDiscovery(cache: map<string, set<string>>, domain: string, entryIds: EntryIds,
                               targetDomain: string, net: Request -> Reply)
    requires domain in cache
    ensures XrefDomain.CatalogRequest(domain) !in Resolve(cache, domain, entryIds, targetDomain, net).sent
    ensures Resolve(cache, domain, entryIds, targetDomain, net).cache == cache
  {
    var o := Resolve(cache, domain, entryIds, targetDomain, net);
    if !MissingArgument(domain, entryIds, targetDomain) && !UniprotEntryName(domain, entryIds)
       && targetDomain in cache[domain] {
      assert o.sent == [XrefDomain.XrefRequest(domain, JoinedIds(entryIds), targetDomain)];
      assert XrefDomain.XrefRequest(domain, JoinedIds(entryIds), targetDomain).params
          != XrefDomain.CatalogRequest(domain).params;
    }
  }

  /** The cache only grows: existing entries are kept unchanged, and at most the
      called domain is added. */
  lemma CacheMonotone(cache: map<string, set<string>>, domain: string, entryIds: EntryIds,
                      targetDomain: string, net: Request -> Reply)
    ensures var c := Resolve(cache, domain, entryIds, targetDomain, net).cache;
      && (forall d <- cache :: d in c && c[d] == cache[d])
      && c.Keys <= cache.Keys + {domain}
  {
    var o := Resolve(cache, domain, entryIds, targetDomain, net);
    if MissingArgument(domain, entryIds, targetDomain) || UniprotEntryName(domain, entryIds) {
      assert o.cache == cache;
    } else if domain in cache {
      assert o == Checked(cache, domain, entryIds, targetDomain, net);
    } else {
      var found := XrefDomain.DiscoverDescriptors(domain, net);
      if found.Ok? {
        var c := cache[domain := AllowedTargets(found.value)];
        assert o.cache == Checked(c, domain, entryIds, targetDomain, net).cache;
      } else {
        assert o.cache == cache;
      }
    }
  }

  /** A failed discovery throws its own error and leaves the cache unchanged. */
  lemma FailedDiscoveryLeavesCache(cache: map<string, set<string>>, domain: string, entryIds: EntryIds,
                                   targetDomain: string, net: Request -> Reply)
    requires !MissingArgument(domain, entryIds, targetDomain) && !UniprotEntryName(domain, entryIds)
    requires domain !in cache
    requires XrefDomain.DiscoverDescriptors(domain, net).Err?
    ensures Resolve(cache, domain, entryIds, targetDomain, net)
         == Outcome(Err(XrefDomain.DiscoverDescriptors(domain, net).message), cache, [XrefDomain.CatalogRequest(domain)])
  {
  }

  /** A target outside the allowed set throws before the targeted fetch. */
  lemma UnsupportedTargetNotFetched(cache: map<string, set<string>>, domain: string, entryIds: EntryIds,
                                    targetDomain: string, net: Request -> Reply)
    requires !MissingArgument(domain, entryIds, targetDomain) && !UniprotEntryName(domain, entryIds)
    ensures var o := Resolve(cache, domain, entryIds, targetDomain, net);
      domain in o.cache && targetDomain !in o.cache[domain] ==>
        && o.result == Err(UnsupportedMessage(domain, targetDomain))
        && forall q <- o.sent :: q == XrefDomain.CatalogRequest(domain)
  {
  }

  /** A successful check-and-fetch sent exactly the targeted query and
      echoes both domains. */
  lemma CheckedSuccess(cache: map<string, set<string>>, domain: string, entryIds: EntryIds,
                       targetDomain: string, net: Request -> Reply)
    requires domain in cache
    ensures var o := Checked(cache, domain, entryIds, targetDomain, net);
      o.result.Ok? ==>
        && targetDomain in cache[domain]
        && o.sent == [XrefDomain.XrefRequest(domain, JoinedIds(entryIds), targetDomain)]
        && o.result.value.sourceDomain == domain && o.result.value.targetDomain == targetDomain
  {
  }

  /** A successful call went through every check: the target is in the cached
      set of the domain, and the last request is the one targeted query with
      the ids joined by ",". */
  lemma SuccessWasChecked(cache: map<string, set<string>>, domain: string, entryIds: EntryIds,
                          targetDomain: string, net: Request -> Reply)
    ensures var o := Resolve(cache, domain, entryIds, targetDomain, net);
      o.result.Ok? ==> SucceededChecked(o, domain, entryIds, targetDomain)
  {
    var o := Resolve(cache, domain, entryIds, targetDomain, net);
    if o.result.Ok? {
      assert !MissingArgument(domain, entryIds, targetDomain) && !UniprotEntryName(domain, entryIds);
      if domain in cache {
        SuccessFromCache(cache, domain, entryIds, targetDomain, net);
      } else {
        SuccessAfterDiscovery(cache, domain, entryIds, targetDomain, net);
      }
    }
  }

  /** What a successful call guarantees about itself. */
  predicate SucceededChecked(o: Outcome, domain: string, entryIds: EntryIds, targetDomain: string)
    requires o.result.Ok?
  {
    && !MissingArgument(domain, entryIds, targetDomain)
    && !UniprotEntryName(domain, entryIds)
    && domain in o.cache && targetDomain in o.cache[domain]
    && o.sent != [] && o.sent[|o.sent| - 1] == XrefDomain.XrefRequest(domain, JoinedIds(entryIds), targetDomain)
    && o.result.value.sourceDomain == domain && o.result.value.targetDomain == targetDomain
  }

  lemma SuccessFromCache(cache: map<string, set<string>>, domain: string, entryIds: EntryIds,
                         targetDomain: string, net: Request -> Reply)
    requires !MissingArgument(domain, entryIds, targetDomain) && !UniprotEntryName(domain, entryIds)
    requires domain in cache
    ensures var o := Resolve(cache, domain, entryIds, targetDomain, net);
      o.result.Ok? ==> SucceededChecked(o, domain, entryIds, targetDomain)
  {
    assert Resolve(cache, domain, entryIds, targetDomain, net) == Checked(cache, domain, entryIds, targetDomain, net);
    CheckedSuccess(cache, domain, entryIds, targetDomain, net);
  }

  lemma SuccessAfterDiscovery(cache: map<string, set<string>>, domain: string, entryIds: EntryIds,
                              targetDomain: string, net: Request -> Reply)
    requires !MissingArgument(domain, entryIds, targetDomain) && !UniprotEntryName(domain, entryIds)
    requires domain !in cache
    ensures var o := Resolve(cache, domain, entryIds, targetDomain, net);
      o.result.Ok? ==> SucceededChecked(o, domain, entryIds, targetDomain)
  {
    var found := XrefDomain.DiscoverDescriptors(domain, net);
    if found.Ok? {
      var c := cache[domain := AllowedTargets(found.value)];
      var oc := Checked(c, domain, entryIds, targetDomain, net);
      assert Resolve(cache, domain, entryIds, targetDomain, net)
          == Outcome(oc.result, oc.cache, [XrefDomain.CatalogRequest(domain)] + oc.sent);
      CheckedSuccess(c, domain, entryIds, targetDomain, net);
    }
  }

  /** Once a call has cached the domain, a later call for it does no discovery. */
  lemma SecondCallNoDiscovery(cache: map<string, set<string>>, domain: string, ids1: EntryIds, target1: string,
                              ids2: EntryIds, target2: string, net: Request -> Reply)
    requires domain in Resolve(cache, domain, ids1, target1, net).cache
    ensures var c := Resolve(cache, domain, ids1, target1, net).cache;
      XrefDomain.CatalogRequest(domain) !in Resolve(c, domain, ids2, target2, net).sent
  {
    CacheHitSkipsDiscovery(Resolve(cache, domain, ids1, target1, net).cache, domain, ids2, target2, net);
  }

  /** Membership in the allowed set, by position. */
  lemma AllowedTargetsMember(descs: seq<Json>, t: string)
    ensures t in AllowedTargets(descs) <==> exists i :: 0 <= i < |descs| && Get(descs[i], "domain") == Str(t)
  {
    if t in AllowedTargets(descs) {
      var d :| d in descs && Get(d, "domain").Str? && Get(d, "domain").s == t;
      var i :| 0 <= i < |descs| && descs[i] == d;
    }
  }

  /** The allowed set built from a catalog is exactly the set of its ids. */
  lemma AllowedTargetsOfCatalog(ds: seq<Json>, t: string)
    requires XrefDomain.Descriptors(ds).Ok?
    ensures t in AllowedTargets(XrefDomain.Descriptors(ds).value)
        <==> exists i :: 0 <= i < |ds| && ToStr(Get(ds[i], "id")) == t
  {
    var descs := XrefDomain.Descriptors(ds).value;
    AllowedTargetsMember(descs, t);
    if t in AllowedTargets(descs) {
      var i :| 0 <= i < |descs| && Get(descs[i], "domain") == Str(t);
      DescriptorDomain(ds, i);
    }
    if exists i :: 0 <= i < |ds| && ToStr(Get(ds[i], "id")) == t {
      var i :| 0 <= i < |ds| && ToStr(Get(ds[i], "id")) == t;
      DescriptorDomain(ds, i);
    }
  }

  /** The `domain` field of the i-th descriptor is the i-th catalog id. */
  lemma DescriptorDomain(ds: seq<Json>, i: int)
    requires XrefDomain.Descriptors(ds).Ok? && 0 <= i < |ds|
    ensures Get(XrefDomain.Descriptors(ds).value[i], "domain") == Str(ToStr(Get(ds[i], "id")))
  {
    var d := XrefDomain.Descriptors(ds).value[i];
    assert d.Obj? && d.fields[0] == Field("domain", Str(ToStr(Get(ds[i], "id"))));
  }

  /** The payload: `count` is the number of entries, with one item per entry
      and one target per reference, in order, nothing merged or dropped. */
  lemma PayloadSpec(domain: string, targetDomain: string, reply: Reply)
    requires PayloadOf(domain, targetDomain, reply).Ok?
    ensures var p := PayloadOf(domain, targetDomain, reply).value;
      var entries := Prop(reply.body.value, "entries").value.items;
      && p.count == |entries| == |p.crossReferences|
      && forall i :: 0 <= i < |entries| ==>
           && p.crossReferences[i].sourceId == ToStr(Get(entries[i], "id"))
           && !IsNullish(entries[i])
           && var refs := References(entries[i]).value;
              && References(entries[i]).Ok?
              && |p.crossReferences[i].targets| == |refs|
              && forall j :: 0 <= j < |refs| ==>
                   p.crossReferences[i].targets[j] == TargetRef(ToStr(Get(refs[j], "id")), ToStr(Get(refs[j], "source")))
  {
  }
}
