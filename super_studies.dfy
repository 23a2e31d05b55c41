/** The MGnify super-studies handler (`MGnifySuperStudiesHandler`): builds the
    endpoint for an action, fetches it (a 404 and a 422 are answers, not
    errors), and returns at most three cleaned items. */
module SuperStudies {
  import opened Js
  import opened Net
  import opened Cleaners

  // ---------------------------------------------------------------
  // fetchSmart
  // ---------------------------------------------------------------

  const NotFoundMarker: Json := Obj([Field("__not_found", Bool(true))])

  /** `fetchSmart(url)`: 404 is the `{__not_found: true}` marker, 422 is null,
      another failure throws, a non-JSON body is wrapped as `{__raw_text}`. */
  function FetchSmart(reply: Reply): (r: Result<Json>)
    ensures reply.Response? && reply.status == 404 ==> r == Ok(NotFoundMarker)
    ensures reply.Response? && reply.status == 422 ==> r == Ok(Null)
    ensures reply.NetworkFailure? ==> r == Err(reply.reason)
    ensures reply.Response? && reply.status != 404 && reply.status != 422 && !IsOk(reply) ==>
      r == Err("MGnify super-studies failed (" + Decimal(reply.status) + ")")
    ensures IsOk(reply) && IsJsonContent(reply) ==>
      r == (if reply.body.Some? then Ok(reply.body.value) else Err(SyntaxErrorMessage))
    ensures IsOk(reply) && !IsJsonContent(reply) ==> r == Ok(Obj([Field("__raw_text", Str(reply.text))]))
  {
    if reply.NetworkFailure? then Err(reply.reason)
    else if reply.status == 404 then Ok(NotFoundMarker)
    else if reply.status == 422 then Ok(Null)
    else if !IsOk(reply) then Err("MGnify super-studies failed (" + Decimal(reply.status) + ")")
    else if IsJsonContent(reply) then
      if reply.body.None? then Err(SyntaxErrorMessage) else Ok(reply.body.value)
    else Ok(Obj([Field("__raw_text", Str(reply.text))]))
  }

  // ---------------------------------------------------------------
  // extractDataArray
  // ---------------------------------------------------------------

  /** `raw.data.map((item, idx) => ({id: String(item.id ?? idx), payload: item.attributes ?? item}))`
      over the first `n` elements; reading a null item throws. */
  function DataItems(data: seq<Json>, n: nat): (r: Result<seq<Item>>)
    requires n <= |data|
    ensures r.Ok? <==> forall i :: 0 <= i < n ==> !IsNullish(data[i])
    ensures r.Ok? ==> |r.value| == n
    ensures r.Ok? ==> forall i :: 0 <= i < n ==>
      r.value[i] == Item(ToStr(Coalesce(Get(data[i], "id"), Num(i))), Coalesce(Get(data[i], "attributes"), data[i]))
  {
    if n == 0 then Ok([])
    else
      var init := DataItems(data, n - 1);
      var item := data[n - 1];
      if init.Err? then init
      else if IsNullish(item) then Err(TypeErrorMessage)
      else Ok(init.value + [Item(ToStr(Coalesce(Get(item, "id"), Num(n - 1))), Coalesce(Get(item, "attributes"), item))])
  }

  /** `extractDataArray(raw)`: nothing unless `raw.data` is an array. */
  function ExtractDataArray(raw: Json): (r: Result<seq<Item>>)
    ensures !Get(raw, "data").Arr? ==> r == Ok([])
  {
    match Get(raw, "data")
    case Arr(data) => DataItems(data, |data|)
    case _ => Ok([])
  }

  // ---------------------------------------------------------------
  // buildQuery
  // ---------------------------------------------------------------

  /** `qs.set(k, v)`: an existing name takes the new value in place, a new one goes last. */
  function SetParam(qs: seq<(string, string)>, k: string, v: string): (r: seq<(string, string)>)
    ensures (k, v) in r
    ensures forall q :: q in r <==> q == (k, v) || (q in qs && q.0 != k)
  {
    if qs == [] then [(k, v)]
    else if qs[0].0 == k then [(k, v)] + RemoveParam(qs[1..], k)
    else [qs[0]] + SetParam(qs[1..], k, v)
  }

  function RemoveParam(qs: seq<(string, string)>, k: string): (r: seq<(string, string)>)
    ensures forall q :: q in r <==> q in qs && q.0 != k
  {
    if qs == [] then [] else if qs[0].0 == k then RemoveParam(qs[1..], k) else [qs[0]] + RemoveParam(qs[1..], k)
  }

  /** The value a name ends up with: `String(v)` of the last field with that
      name whose value is neither undefined nor null, if any. */
  function LastSet(params: seq<Field>, k: string): Option<string> {
    if params == [] then None
    else
      var f := params[|params| - 1];
      if f.key == k && !IsNullish(f.value) then Some(ToStr(f.value))
      else LastSet(params[..|params| - 1], k)
  }

  /** The parameters `buildQuery` sets: each name whose value is neither
      undefined nor null, with its last such value. */
  function QueryParams(params: seq<Field>): (r: seq<(string, string)>)
    ensures r == [] <==> forall i :: 0 <= i < |params| ==> IsNullish(params[i].value)
    ensures forall k, v :: (k, v) in r <==> LastSet(params, k) == Some(v)
  {
    if params == [] then []
    else
      var qs := QueryParams(params[..|params| - 1]);
      var f := params[|params| - 1];
      if IsNullish(f.value) then qs else SetParam(qs, f.key, ToStr(f.value))
  }

  /** `qs.toString()`, without percent-encoding. */
  function QueryText(qs: seq<(string, string)>): (r: string)
    ensures qs == [] <==> r == ""
  {
    if qs == [] then ""
    else if |qs| == 1 then qs[0].0 + "=" + qs[0].1
    else qs[0].0 + "=" + qs[0].1 + "&" + QueryText(qs[1..])
  }

  /** `buildQuery(params)`: "" when nothing is set, otherwise "?" and the query. */
  method BuildQuery(params: seq<Field>) returns (r: string)
    ensures r == (if QueryParams(params) == [] then "" else "?" + QueryText(QueryParams(params)))
  {
    var qs: seq<(string, string)> := [];
    var i := 0;
    while i < |params|
      invariant 0 <= i <= |params|
      invariant qs == QueryParams(params[..i])
    {
      assert params[..i + 1][..i] == params[..i];
      var f := params[i];
      if !IsNullish(f.value) {
        qs := SetParam(qs, f.key, ToStr(f.value));
      }
      i := i + 1;
    }
    assert params[..|params|] == params;
    var s := QueryText(qs);
    r := if s != "" then "?" + s else "";
  }

  /** `buildQuery` sends nothing when every value is absent; otherwise the
      text starts with "?". */
  lemma BuildQuerySpec(params: seq<Field>)
    ensures var q := if QueryParams(params) == [] then "" else "?" + QueryText(QueryParams(params));
      && (q == "" <==> forall i :: 0 <= i < |params| ==> IsNullish(params[i].value))
      && (q != "" ==> q[0] == '?')
  {
  }

  // ---------------------------------------------------------------
  // run
  // ---------------------------------------------------------------

  /** The arguments; an absent one is `Undefined`. */
  datatype Args = Args(action: string, superStudyId: Json, format: Json, page: Json, pageSize: Json,
                       ordering: Json, search: Json, biomeName: Json, description: Json, title: Json,
                       urlSlug: Json)

  const ListAction := "super_studies_list"
  const GetAction := "super_studies_get"
  const BiomesAction := "super_studies_biomes"
  const FlagshipAction := "super_studies_flagship"
  const GenomeCataloguesAction := "super_studies_genome_catalogues"
  const RelatedStudiesAction := "super_studies_related_studies"

  predicate KnownAction(a: string) {
    a in {ListAction, GetAction, BiomesAction, FlagshipAction, GenomeCataloguesAction, RelatedStudiesAction}
  }

  /** The actions whose reply is a paginated `data` array. */
  predicate ListLike(a: string) {
    a in {ListAction, FlagshipAction, GenomeCataloguesAction, RelatedStudiesAction}
  }

  /** The query parameters each action passes to `buildQuery`. */
  function ActionParams(args: Args): seq<Field> {
    var paged := [Field("format", args.format), Field("page", args.page), Field("page_size", args.pageSize),
                  Field("ordering", args.ordering), Field("search", args.search)];
    if args.action == ListAction then
      paged + [Field("biome_name", args.biomeName), Field("description", args.description),
               Field("title", args.title), Field("url_slug", args.urlSlug), Field("super_study_id", args.superStudyId)]
    else if args.action == GetAction || args.action == BiomesAction then [Field("format", args.format)]
    else paged
  }

  /** The endpoint path of a known action, without the query string. */
  function ActionPath(args: Args): string {
    var id := ToStr(args.superStudyId);
    if args.action == ListAction then "v1/super-studies"
    else if args.action == GetAction then "v1/super-studies/" + id
    else if args.action == BiomesAction then "v1/super-studies/" + id + "/biomes"
    else if args.action == FlagshipAction then "v1/super-studies/" + id + "/flagship-studies"
    else if args.action == GenomeCataloguesAction then "v1/super-studies/" + id + "/genome-catalogues"
    else "v1/super-studies/" + id + "/related-studies"
  }

  /** The request of an action, or why there is none: an unknown action, or a
      falsy `super_study_id` for any action other than the list. */
  function RequestFor(args: Args): (r: Result<Request>)
    ensures r.Ok? ==> KnownAction(args.action)
    ensures r.Ok? && args.action != ListAction ==> IsTruthy(args.superStudyId)
  {
    if !KnownAction(args.action) then Err("Unknown super-studies action")
    else if args.action != ListAction && !IsTruthy(args.superStudyId) then Err("super_study_id is required")
    else
      var qs := QueryParams(ActionParams(args));
      var q := if qs == [] then "" else "?" + QueryText(qs);
      Ok(Request("mgnify/" + ActionPath(args) + q, [ToStr(args.superStudyId)]))
  }

  datatype Pagination = Pagination(page: Json, pages: Json, count: Json)

  /** What the handler returns: a 404 note, the no-data message (a 422), or
      the cleaned listing. */
  datatype Response =
    | NotFound(action: string, superStudyId: Json, note: string)
    | NoData
    | Listing(action: string, superStudyId: Json, meta: Option<Pagination>, data: seq<Item>)

  /** The items of a fetched reply: for list-like actions the `data` array,
      cleaned, without null payloads, at most three; for single objects the
      whole reply cleaned, under the reply's own `super_study_id`. */
  function DataOf(args: Args, raw: Json): Result<seq<Item>>
  {
    if ListLike(args.action) then
      var items := ExtractDataArray(raw);
      if items.Err? then Err(items.message) else Ok(CleanTop(items.value, SuperStudies))
    else
      var cleaned := Clean(raw, 0, SuperStudies);
      var id := ToStr(Coalesce(Get(raw, "super_study_id"), Coalesce(args.superStudyId, Str("0"))));
      Ok(if IsTruthy(cleaned) then [Item(id, cleaned)] else [])
  }

  function MetaOf(raw: Json): Option<Pagination> {
    var pg := Get(Get(raw, "meta"), "pagination");
    if IsTruthy(pg) then Some(Pagination(Get(pg, "page"), Get(pg, "pages"), Get(pg, "count"))) else None
  }

  /** The handler after `fetchSmart`. */
  function Respond(args: Args, raw: Json): Result<Response>
  {
    var notFound := IsTruthy(raw) && IsTruthy(Get(raw, "__not_found"));
    if notFound && args.action == GenomeCataloguesAction then
      Ok(NotFound(args.action, Coalesce(args.superStudyId, Null),
                  "Genome-catalogues endpoint is not available for this super-study (404)"))
    else if notFound then
      Ok(NotFound(args.action, Coalesce(args.superStudyId, Null),
                  "No data found for super_study_id=" + ToStr(args.superStudyId)))
    else if !IsTruthy(raw) then Ok(NoData)
    else
      var data := DataOf(args, raw);
      if data.Err? then Err(data.message)
      else Ok(Listing(args.action, Coalesce(args.superStudyId, Null), MetaOf(raw), data.value))
  }

  /** `MGnifySuperStudiesHandler.run` */
  function Run(args: Args, net: Request -> Reply): Result<Response>
  {
    var req := RequestFor(args);
    if req.Err? then Err(req.message)
    else
      var raw := FetchSmart(net(req.value));
      if raw.Err? then Err(raw.message) else Respond(args, raw.value)
  }

  /** An unknown action, or an action other than the list without a truthy
      `super_study_id`, throws before anything is fetched. */
  lemma RequestGuards(args: Args)
    ensures !KnownAction(args.action) ==> RequestFor(args) == Err("Unknown super-studies action")
    ensures KnownAction(args.action) && args.action != ListAction && !IsTruthy(args.superStudyId) ==>
      RequestFor(args) == Err("super_study_id is required")
    ensures args.action == ListAction ==> RequestFor(args).Ok?
  {
  }

  /** The note a 404 answers with: its own for genome catalogues, otherwise
      the id that found nothing. */
  function NotFoundNote(args: Args): string {
    if args.action == GenomeCataloguesAction
    then "Genome-catalogues endpoint is not available for this super-study (404)"
    else "No data found for super_study_id=" + ToStr(args.superStudyId)
  }

  /** A 404 answer is a note with no data, never an error, echoing the id;
      a 422 is the no-data message. */
  lemma NotFoundAnswers(args: Args, net: Request -> Reply)
    requires RequestFor(args).Ok?
    ensures net(RequestFor(args).value).Response? && net(RequestFor(args).value).status == 404 ==>
      Run(args, net) == Ok(NotFound(args.action, Coalesce(args.superStudyId, Null), NotFoundNote(args)))
    ensures net(RequestFor(args).value).Response? && net(RequestFor(args).value).status == 422 ==>
      Run(args, net) == Ok(NoData)
  {
    RespondMarker(args);
    RespondNull(args);
  }

  /** The 404 marker answers the note. */
  lemma RespondMarker(args: Args)
    ensures Respond(args, NotFoundMarker) == Ok(NotFound(args.action, Coalesce(args.superStudyId, Null), NotFoundNote(args)))
  {
    assert Get(NotFoundMarker, "__not_found") == Bool(true);
  }

  /** Null answers the no-data message. */
  lemma RespondNull(args: Args)
    ensures Respond(args, Null) == Ok(NoData)
  {
  }

  /** A listing holds at most three items, each with a non-null payload in the
      cleaned shape (no empty container, no null element, no image key). */
  lemma ListingSpec(args: Args, net: Request -> Reply)
    requires Run(args, net).Ok? && Run(args, net).value.Listing?
    ensures |Run(args, net).value.data| <= TopLimit
    ensures forall y <- Run(args, net).value.data :: y.payload != Null && IsClean(y.payload, 0, SuperStudies)
  {
    var raw := FetchSmart(net(RequestFor(args).value)).value;
    if ListLike(args.action) {
      CleanTopSpec(ExtractDataArray(raw).value, SuperStudies);
    } else {
      CleanIsClean(raw, 0, SuperStudies);
    }
  }

  /** A fetched reply that is neither the 404 marker nor falsy is answered with
      the listing built from it: the echoed id, the reply's pagination, and
      for list-like actions the first three non-null cleaned items of its
      `data` array; for single objects the whole reply cleaned under its own
      `super_study_id`, when anything is left. A failed fetch is its error. */
  lemma ListingAnswers(args: Args, net: Request -> Reply)
    requires RequestFor(args).Ok?
    ensures var raw := FetchSmart(net(RequestFor(args).value));
      raw.Err? ==> Run(args, net) == Err(raw.message)
    ensures var raw := FetchSmart(net(RequestFor(args).value));
      raw.Ok? && IsTruthy(raw.value) && !IsTruthy(Get(raw.value, "__not_found")) && ListLike(args.action) ==>
        var items := ExtractDataArray(raw.value);
        && (items.Err? ==> Run(args, net) == Err(items.message))
        && (items.Ok? ==> Run(args, net) == Ok(Listing(args.action, Coalesce(args.superStudyId, Null), MetaOf(raw.value),
                                                       CleanTop(items.value, SuperStudies))))
    ensures var raw := FetchSmart(net(RequestFor(args).value));
      raw.Ok? && IsTruthy(raw.value) && !IsTruthy(Get(raw.value, "__not_found")) && !ListLike(args.action) ==>
        var cleaned := Clean(raw.value, 0, SuperStudies);
        var id := ToStr(Coalesce(Get(raw.value, "super_study_id"), Coalesce(args.superStudyId, Str("0"))));
        Run(args, net) == Ok(Listing(args.action, Coalesce(args.superStudyId, Null), MetaOf(raw.value),
                                     if IsTruthy(cleaned) then [Item(id, cleaned)] else []))
  {
  }
}
