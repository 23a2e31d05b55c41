/** The PDBe validation handler (`PDBeValidationHandler`): one endpoint per
    action (GET by `pdb_id`, or POST of the joined `pdb_ids`), a fetch where
    404 and 422 mean "no data", and a residue-aware cleaning of the reply. */
module Validation {
  import opened Js
  import opened Net
  import opened Cleaners

  /** One row of the action table: the endpoint segment and whether the
      action POSTs the id list. */
  datatype Endpoint = Endpoint(action: string, segment: string, post: bool)

  /** The 23 actions the handler accepts. */
  const Actions: seq<Endpoint> := [
    Endpoint("RNA_pucker_suite_outliers_get", "RNA_pucker_suite_outliers", false),
    Endpoint("rama_sidechain_outliers_get", "protein-ramachandran-sidechain-outliers", false),
    Endpoint("rama_sidechain_outliers_post", "protein-ramachandran-sidechain-outliers", true),
    Endpoint("geometry_outlier_residues_get", "protein-RNA-DNA-geometry-outlier-residues", false),
    Endpoint("rama_sidechain_listing_get", "rama_sidechain_listing", false),
    Endpoint("xray_refine_data_stats_get", "xray_refine_data_stats", false),
    Endpoint("model_quality_xray_get", "model_quality_xray", false),
    Endpoint("summary_quality_scores_get", "summary_quality_scores", false),
    Endpoint("summary_quality_scores_post", "summary_quality_scores", true),
    Endpoint("residuewise_outlier_summary_get", "residuewise_outlier_summary", false),
    Endpoint("residuewise_outlier_summary_post", "residuewise_outlier_summary", true),
    Endpoint("global_percentiles_get", "global-percentiles", false),
    Endpoint("global_percentiles_post", "global-percentiles", true),
    Endpoint("key_validation_stats_get", "key_validation_stats", false),
    Endpoint("key_validation_stats_post", "key_validation_stats", true),
    Endpoint("vdw_clashes_get", "vdw_clashes", false),
    Endpoint("vdw_clashes_post", "vdw_clashes", true),
    Endpoint("outliers_all_get", "outliers", false),
    Endpoint("outliers_all_post", "outliers", true),
    Endpoint("nmr_cyrange_cores_get", "nmr_cyrange_cores", false),
    Endpoint("nmr_cyrange_cores_post", "nmr_cyrange_cores", true),
    Endpoint("nmr_ensemble_clustering_get", "nmr_ensemble_clustering", false),
    Endpoint("nmr_ensemble_clustering_post", "nmr_ensemble_clustering", true)
  ]

  /** The table row of an action, if any. */
  function FindEndpoint(table: seq<Endpoint>, action: string): (r: Option<Endpoint>)
    ensures r.Some? ==> r.value in table && r.value.action == action
    ensures r.None? ==> forall e <- table :: e.action != action
  {
    if table == [] then None
    else if table[0].action == action then Some(table[0])
    else FindEndpoint(table[1..], action)
  }

  /** The arguments; `None` is an argument left out. */
  datatype Args = Args(action: string, pdbId: Option<string>, pdbIds: Option<seq<string>>)

  /** `String(args.pdb_id)` in the URL template. */
  function IdText(pdbId: Option<string>): string {
    if pdbId.Some? then pdbId.value else "undefined"
  }

  /** The body sent with a POST: `pdb_ids?.join(",")`, serialised by
      `JSON.stringify` unless it is missing or empty. */
  function PostBody(pdbIds: Option<seq<string>>): (r: seq<string>)
    ensures |r| <= 1
    ensures pdbIds.None? ==> r == []
  {
    if pdbIds.None? then []
    else
      var joined := Join(pdbIds.value, ",");
      if joined == "" then [] else ["\"" + joined + "\""]
  }

  /** The request for a known action: the outlier listing lives under
      `validation/outliers/all`, every other endpoint under `validation/<segment>/entry`. */
  function RequestOf(e: Endpoint, args: Args): Request {
    var base := if e.segment == "outliers" then "pdbe/api/validation/outliers/all"
                else "pdbe/api/validation/" + e.segment + "/entry";
    if e.post then Request("POST " + base, PostBody(args.pdbIds))
    else Request(base + "/" + IdText(args.pdbId), [IdText(args.pdbId)])
  }

  /** The service name in this handler's fetch failures. */
  const Service: string := "PDBe validation"

  /** `normalizeTop(raw)`: one `{id, payload}` per own entry of an object or array. */
  function NormalizeTop(raw: Json): (r: seq<Item>)
    ensures !IsTruthy(raw) || !IsObjectLike(raw) ==> r == []
    ensures IsObjectLike(raw) ==> |r| == |Entries(raw)|
    ensures IsObjectLike(raw) ==> forall i :: 0 <= i < |r| ==> r[i] == Item(Entries(raw)[i].key, Entries(raw)[i].value)
  {
    if !IsTruthy(raw) || !IsObjectLike(raw) then []
    else
      var es := Entries(raw);
      seq(|es|, i requires 0 <= i < |es| => Item(es[i].key, es[i].value))
  }

  /** Residue listings are cut harder: exactly the actions naming outliers. */
  predicate ResidueHeavy(action: string) {
    Contains(action, "outlier")
  }

  /** `pdb_id ?? pdb_ids` as echoed in the reply. */
  function EchoedId(args: Args): Json {
    if args.pdbId.Some? then Str(args.pdbId.value)
    else if args.pdbIds.Some? then Arr(seq(|args.pdbIds.value|, i requires 0 <= i < |args.pdbIds.value| => Str(args.pdbIds.value[i])))
    else Undefined
  }

  datatype Response =
    | NoData
    | Report(action: string, pdbId: Json, data: Option<seq<Item>>)

  /** The handler after the fetch. */
  function Respond(args: Args, raw: Json): Response {
    if !IsTruthy(raw) || Entries(raw) == [] then NoData
    else
      var data := CleanTop(NormalizeTop(raw), Validation(ResidueHeavy(args.action)));
      Report(args.action, EchoedId(args), if data == [] then None else Some(data))
  }

  /** `PDBeValidationHandler.run`: an unknown action throws before any fetch. */
  function Run(args: Args, net: Request -> Reply): (r: Result<Response>)
    ensures FindEndpoint(Actions, args.action).None? ==> r == Err("Unknown validation action")
  {
    var e := FindEndpoint(Actions, args.action);
    if e.None? then Err("Unknown validation action")
    else
      var raw := FetchOrNull(net(RequestOf(e.value, args)), Service);
      if raw.Err? then Err(raw.message) else Ok(Respond(args, raw.value))
  }

  /** The reply's data is null or one to three items, each with a non-null
      payload cleaned with the action's residue rule (nested arrays of an
      outlier action hold at most one element). */
  lemma ReportSpec(args: Args, net: Request -> Reply)
    requires Run(args, net).Ok? && Run(args, net).value.Report?
    ensures var d := Run(args, net).value.data;
      d.Some? ==> && 1 <= |d.value| <= TopLimit
                  && forall y <- d.value :: y.payload != Null && IsClean(y.payload, 0, Validation(ResidueHeavy(args.action)))
  {
    var e := FindEndpoint(Actions, args.action).value;
    var raw := FetchOrNull(net(RequestOf(e, args)), Service).value;
    CleanTopSpec(NormalizeTop(raw), Validation(ResidueHeavy(args.action)));
  }

  /** A 404 or 422 reply, or an empty object, is "no data", never an error. */
  lemma NoDataAnswers(args: Args, net: Request -> Reply)
    requires FindEndpoint(Actions, args.action).Some?
    ensures var reply := net(RequestOf(FindEndpoint(Actions, args.action).value, args));
      (reply.Response? && (reply.status == 404 || reply.status == 422)) ||
      (IsOk(reply) && reply.body == Some(Obj([]))) ==>
        Run(args, net) == Ok(NoData)
  {
    var e := FindEndpoint(Actions, args.action);
    var reply := net(RequestOf(e.value, args));
    var raw := FetchOrNull(reply, Service);
    assert Run(args, net) == if raw.Err? then Err(raw.message) else Ok(Respond(args, raw.value));
    if reply.Response? && (reply.status == 404 || reply.status == 422) {
      assert raw == Ok(Null);
    } else if IsOk(reply) && reply.body == Some(Obj([])) {
      assert raw == Ok(Obj([]));
      assert Entries(Obj([])) == [];
    }
  }

  /** Each id reported comes from the reply's own keys. */
  lemma ReportIdsFromReply(args: Args, raw: Json)
    requires Respond(args, raw).Report? && Respond(args, raw).data.Some?
    ensures forall y <- Respond(args, raw).data.value :: exists f <- Entries(raw) :: f.key == y.id
  {
    var items := NormalizeTop(raw);
    var p := Validation(ResidueHeavy(args.action));
    CleanTopSpec(items, p);
    forall y <- Respond(args, raw).data.value ensures exists f <- Entries(raw) :: f.key == y.id {
      var x :| x in items && y == Item(x.id, Clean(x.payload, 0, p));
      var i :| 0 <= i < |items| && items[i] == x;
      assert Entries(raw)[i] in Entries(raw);
    }
  }

  /** A POST action sends the ids joined with "," as its body; a GET action
      puts the single id in the path. */
  lemma RequestShape(e: Endpoint, args: Args)
    ensures e.post && args.pdbIds.Some? && Join(args.pdbIds.value, ",") != "" ==>
      RequestOf(e, args).params == ["\"" + Join(args.pdbIds.value, ",") + "\""]
    ensures !e.post ==> RequestOf(e, args).params == [IdText(args.pdbId)]
  {
  }

  /** A known action answers an ok reply with a non-empty body with the
      report of that body: its entries as `{id, payload}` items, cleaned with
      the action's residue rule, at most three, and no data when none is
      left; the id echoed is `pdb_id ?? pdb_ids`. A failed fetch is its error. */
  lemma ReportAnswers(args: Args, net: Request -> Reply)
    requires FindEndpoint(Actions, args.action).Some?
    ensures var reply := net(RequestOf(FindEndpoint(Actions, args.action).value, args));
      FetchOrNull(reply, Service).Err? ==> Run(args, net) == Err(FetchOrNull(reply, Service).message)
    ensures var reply := net(RequestOf(FindEndpoint(Actions, args.action).value, args));
      IsOk(reply) && reply.body.Some? && IsTruthy(reply.body.value) && Entries(reply.body.value) != [] ==>
        var data := CleanTop(NormalizeTop(reply.body.value), Validation(ResidueHeavy(args.action)));
        Run(args, net) == Ok(Report(args.action, EchoedId(args), if data == [] then None else Some(data)))
  {
  }
}
