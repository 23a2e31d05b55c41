/** Discovery of the target domains a source domain cross-references into
    (`EBICrossReferenceDomainHandler.run`). Two shapes of the same handler
    exist: the search handler returns the ids as strings, the compiled handler
    the targeted resolver imports returns `{domain, description}` objects. */
module XrefDomain {
  import opened Js
  import opened Net

  /** The catalog query for one source domain. */
  function CatalogRequest(domain: string): Request {
    Request("ebisearch/{domain}/xref?format=json", [domain])
  }

  /** The cross-reference query for one or more entries (joined with ",")
      of `domain` into `target`. */
  function XrefRequest(domain: string, entryIds: string, target: string): Request {
    Request("ebisearch/{domain}/entry/{entryIds}/xref/{target}?format=json", [domain, entryIds, target])
  }

  /** The payload of a successful discovery. */
  datatype Discovery = Discovery(sourceDomain: string, targetDomains: seq<string>)

  /** A reply the handler accepts: ok, JSON content type, parsable, with a
      `domains` array none of whose elements is null or undefined. */
  predicate AcceptedCatalog(reply: Reply) {
    && IsOk(reply)
    && IsJsonContent(reply)
    && reply.body.Some?
    && reply.body.value.Obj?
    && Lookup(reply.body.value.fields, "domains").Arr?
    && forall d <- Lookup(reply.body.value.fields, "domains").items :: !IsNullish(d)
  }

  /** The checks the handler makes before reading the list (missing domain,
      not ok, not JSON, unparsable, `domains` not an array); on success the
      raw `domains` elements. */
  function CatalogEntries(domain: string, net: Request -> Reply): (r: Result<seq<Json>>)
    ensures r.Ok? ==> domain != "" && IsOk(net(CatalogRequest(domain)))
    ensures domain == "" ==> r == Err("domain is required")
  {
    if domain == "" then Err("domain is required")
    else
      var reply := net(CatalogRequest(domain));
      if reply.NetworkFailure? then Err(reply.reason)
      else if !IsOk(reply) then Err("EBI domain cross-reference lookup failed (" + Decimal(reply.status) + ")")
      else if !IsJsonContent(reply) then Err("EBI Search returned non-JSON response: " + Prefix(reply.text, 200))
      else if reply.body.None? then Err(SyntaxErrorMessage)
      else
        var domains := Prop(reply.body.value, "domains");
        if domains.Err? then Err(domains.message)
        else if !domains.value.Arr? then Err("Unexpected API response format: domains not found")
        else Ok(domains.value.items)
  }

  /** `data.domains.map((d) => String(d.id))`; reading `id` of a null element throws. */
  function IdStrings(ds: seq<Json>): (r: Result<seq<string>>)
    ensures r.Ok? <==> forall d <- ds :: !IsNullish(d)
    ensures r.Ok? ==> |r.value| == |ds|
    ensures r.Ok? ==> forall i :: 0 <= i < |ds| ==> r.value[i] == ToStr(Get(ds[i], "id"))
  {
    if ds == [] then Ok([])
    else if IsNullish(ds[0]) then Err(TypeErrorMessage)
    else
      var rest := IdStrings(ds[1..]);
      if rest.Err? then rest
      else Ok([ToStr(Get(ds[0], "id"))] + rest.value)
  }

  /** The search handler: string ids, in response order. */
  function Discover(domain: string, net: Request -> Reply): (r: Result<Discovery>)
  {
    var entries := CatalogEntries(domain, net);
    if entries.Err? then Err(entries.message)
    else
      var ids := IdStrings(entries.value);
      if ids.Err? then Err(ids.message)
      else Ok(Discovery(domain, ids.value))
  }

  /** `data.domains.map((d) => ({domain: String(d.id), description: d.description ?? null}))`. */
  function Descriptors(ds: seq<Json>): (r: Result<seq<Json>>)
    ensures r.Ok? <==> forall d <- ds :: !IsNullish(d)
    ensures r.Ok? ==> |r.value| == |ds|
    ensures r.Ok? ==> forall i :: 0 <= i < |ds| ==>
      r.value[i] == Obj([Field("domain", Str(ToStr(Get(ds[i], "id")))),
                         Field("description", Coalesce(Get(ds[i], "description"), Null))])
  {
    if ds == [] then Ok([])
    else if IsNullish(ds[0]) then Err(TypeErrorMessage)
    else
      var rest := Descriptors(ds[1..]);
      if rest.Err? then rest
      else
        var d := Obj([Field("domain", Str(ToStr(Get(ds[0], "id")))),
                      Field("description", Coalesce(Get(ds[0], "description"), Null))]);
        Ok([d] + rest.value)
  }

  /** The compiled handler: one `{domain, description}` object per catalog entry. */
  function DiscoverDescriptors(domain: string, net: Request -> Reply): (r: Result<seq<Json>>)
  {
    var entries := CatalogEntries(domain, net);
    if entries.Err? then Err(entries.message) else Descriptors(entries.value)
  }

  /** Discovery succeeds exactly on an accepted catalog reply, and then echoes
      the source domain and lists one id per catalog entry, in order. */
  lemma DiscoverSucceedsExactly(domain: string, net: Request -> Reply)
    ensures Discover(domain, net).Ok? <==> domain != "" && AcceptedCatalog(net(CatalogRequest(domain)))
    ensures Discover(domain, net).Ok? ==>
      var ds := Lookup(net(CatalogRequest(domain)).body.value.fields, "domains").items;
      && Discover(domain, net).value.sourceDomain == domain
      && |Discover(domain, net).value.targetDomains| == |ds|
      && forall i :: 0 <= i < |ds| ==> Discover(domain, net).value.targetDomains[i] == ToStr(Get(ds[i], "id"))
  {
  }

  /** Each way a catalog reply can be refused makes discovery fail. */
  lemma DiscoverRefusals(domain: string, net: Request -> Reply)
    requires domain != ""
    ensures !IsOk(net(CatalogRequest(domain))) ==> Discover(domain, net).Err?
    ensures !IsJsonContent(net(CatalogRequest(domain))) ==> Discover(domain, net).Err?
    ensures net(CatalogRequest(domain)).Response? && net(CatalogRequest(domain)).body.None? ==> Discover(domain, net).Err?
    ensures IsOk(net(CatalogRequest(domain))) && IsJsonContent(net(CatalogRequest(domain)))
            && net(CatalogRequest(domain)).body == Some(Obj([])) ==>
            Discover(domain, net) == Err("Unexpected API response format: domains not found")
  {
  }

  /** A catalog that lists the given ids as `{id: ...}` entries. */
  function CatalogOf(ids: seq<string>): (r: Json)
    ensures r.Obj?
  {
    Obj([Field("domains", Arr(seq(|ids|, i requires 0 <= i < |ids| => Obj([Field("id", Str(ids[i]))]))))])
  }

  /** Round trip: discovery over a catalog listing `ids` returns exactly `ids`. */
  lemma DiscoverCatalogOf(domain: string, ids: seq<string>, net: Request -> Reply)
    requires domain != ""
    requires net(CatalogRequest(domain)) == Response(200, "application/json", "", Some(CatalogOf(ids)))
    ensures Discover(domain, net) == Ok(Discovery(domain, ids))
  {
    CatalogEntriesOf(domain, ids, net);
    IdStringsOfCatalog(ids);
  }

  lemma CatalogEntriesOf(domain: string, ids: seq<string>, net: Request -> Reply)
    requires domain != ""
    requires net(CatalogRequest(domain)) == Response(200, "application/json", "", Some(CatalogOf(ids)))
    ensures CatalogEntries(domain, net) == Ok(Lookup(CatalogOf(ids).fields, "domains").items)
  {
    assert Contains("application/json", "application/json");
  }

  lemma IdStringsOfCatalog(ids: seq<string>)
    ensures IdStrings(Lookup(CatalogOf(ids).fields, "domains").items) == Ok(ids)
  {
    var ds := Lookup(CatalogOf(ids).fields, "domains").items;
    var r := IdStrings(ds);
    assert forall d <- ds :: !IsNullish(d);
    assert |r.value| == |ids|;
    forall i | 0 <= i < |ids| ensures r.value[i] == ids[i] {
      assert ds[i] == Obj([Field("id", Str(ids[i]))]);
    }
    assert r.value == ids;
  }
}
