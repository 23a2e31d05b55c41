/** The EBI Proteins proteomics handler (`ProteinProteomicsHandler`): the
    species listing and a `key:value` filter over it, three by-accession
    feature lookups whose features and evidences are cut to fixed limits, and
    three search actions that always refuse. */
module Proteomics {
  import opened Js
  import opened Net

  const DefaultSize: int := 3
  const MaxSize: int := 10
  /** The limits of the non-PTM and PTM lookups. */
  const FixedLimit: nat := 3
  /** The evidence limit of the HPP lookup. */
  const HppEvidenceLimit: nat := 10
  /** The property limit of every evidence source. */
  const PropertyLimit: nat := 10


  /** `normalizeSize(size)`: a missing or zero size is 3, anything else is
      clamped to 3..10. */
  function NormalizeSize(size: Option<int>): (r: nat)
    ensures DefaultSize <= r <= MaxSize
    ensures size.None? || size.value == 0 ==> r == DefaultSize
    ensures size.Some? && DefaultSize <= size.value <= MaxSize ==> r == size.value
    ensures size.Some? && size.value < DefaultSize ==> r == DefaultSize
    ensures size.Some? && size.value > MaxSize ==> r == MaxSize
  {
    if size.None? || size.value <= DefaultSize then DefaultSize
    else if size.value > MaxSize then MaxSize
    else size.value
  }

  /** `fetchJson(url)`: a failure status throws. */
  function FetchJson(reply: Reply): (r: Result<Json>)
    ensures r.Ok? <==> IsOk(reply) && reply.body.Some?
    ensures r.Ok? ==> reply.body == Some(r.value)
    ensures reply.NetworkFailure? ==> r == Err(reply.reason)
    ensures reply.Response? && !IsOk(reply) ==>
      r == Err("UniProt Proteomics API failed (" + Decimal(reply.status) + ")")
    ensures IsOk(reply) && reply.body.None? ==> r == Err(SyntaxErrorMessage)
  {
    if reply.NetworkFailure? then Err(reply.reason)
    else if !IsOk(reply) then Err("UniProt Proteomics API failed (" + Decimal(reply.status) + ")")
    else if reply.body.None? then Err(SyntaxErrorMessage)
    else Ok(reply.body.value)
  }

  datatype Evidence = Evidence(code: Json, name: Json, id: Json, url: Json, properties: Json)
  datatype Feature = Feature(kind: Json, begin: Json, end: Json, peptide: Json, unique: Json, evidences: seq<Evidence>)

  /** `(xs ?? []).slice(0, limit)`: a value that is neither missing nor an
      array cannot be sliced and mapped. */
  function SliceList(xs: Json, limit: nat): (r: Result<seq<Json>>)
    ensures IsNullish(xs) ==> r == Ok([])
    ensures xs.Arr? ==> r == Ok(xs.items[..Min(|xs.items|, limit)])
    ensures r.Err? <==> !IsNullish(xs) && !xs.Arr?
  {
    match xs
    case Undefined => Ok([])
    case Null => Ok([])
    case Arr(items) => Ok(items[..Min(|items|, limit)])
    case _ => Err("TypeError: (intermediate value).slice(...).map is not a function")
  }

  /** The first ten entries of a truthy `properties`, otherwise `undefined`. */
  function Properties(props: Json): (r: Json)
    ensures IsTruthy(props) ==> r.Obj? && |r.fields| == Min(|Entries(props)|, PropertyLimit) && r.fields == Entries(props)[..|r.fields|]
    ensures !IsTruthy(props) ==> r == Undefined
  {
    if IsTruthy(props) then Obj(Entries(props)[..Min(|Entries(props)|, PropertyLimit)]) else Undefined
  }

  /** One trimmed evidence; a null evidence throws. */
  function TrimEvidence(e: Json): (r: Result<Evidence>)
    ensures r.Err? <==> IsNullish(e)
  {
    if IsNullish(e) then Err(TypeErrorMessage)
    else
      var source := Get(e, "source");
      Ok(Evidence(Get(e, "code"), Get(source, "name"), Get(source, "id"), Get(source, "url"),
                  Properties(Get(source, "properties"))))
  }

  /** The evidences of a list, in order; the first null one throws. */
  function TrimEvidences(es: seq<Json>): (r: Result<seq<Evidence>>)
    ensures r.Ok? ==> |r.value| == |es|
    ensures r.Ok? ==> forall i :: 0 <= i < |es| ==> TrimEvidence(es[i]) == Ok(r.value[i])
    ensures r.Err? <==> exists e <- es :: IsNullish(e)
  {
    if es == [] then Ok([])
    else
      var init := TrimEvidences(es[..|es| - 1]);
      var last := TrimEvidence(es[|es| - 1]);
      assert es == es[..|es| - 1] + [es[|es| - 1]];
      if init.Err? then init
      else if last.Err? then Err(last.message)
      else Ok(init.value + [last.value])
  }

  /** One trimmed feature with at most `evidenceLimit` evidences; a null feature throws. */
  function TrimFeature(f: Json, evidenceLimit: nat): (r: Result<Feature>)
    ensures r.Ok? ==> |r.value.evidences| <= evidenceLimit
    ensures r.Ok? ==> forall ev <- r.value.evidences :: ev.properties.Obj? ==> |ev.properties.fields| <= PropertyLimit
    ensures IsNullish(f) ==> r.Err?
  {
    if IsNullish(f) then Err(TypeErrorMessage)
    else
      var es := SliceList(Get(f, "evidences"), evidenceLimit);
      if es.Err? then Err(es.message)
      else
        var evs := TrimEvidences(es.value);
        if evs.Err? then Err(evs.message)
        else Ok(Feature(Get(f, "type"), Get(f, "begin"), Get(f, "end"), Get(f, "peptide"), Get(f, "unique"), evs.value))
  }

  /** A non-null feature keeps its type, position, peptide and uniqueness as
      they are, and the trimmed first `evidenceLimit` of its evidences, in
      order; it throws exactly when its evidences are neither missing nor an
      array, or when one of the kept evidences is null. */
  lemma TrimFeatureSpec(f: Json, evidenceLimit: nat)
    ensures var ev := Get(f, "evidences");
      var n := if ev.Arr? then Min(|ev.items|, evidenceLimit) else 0;
      TrimFeature(f, evidenceLimit).Ok? <==>
        && !IsNullish(f) && (IsNullish(ev) || ev.Arr?)
        && forall i :: 0 <= i < n ==> !IsNullish(ev.items[i])
    ensures TrimFeature(f, evidenceLimit).Ok? ==>
      var r := TrimFeature(f, evidenceLimit).value;
      var ev := Get(f, "evidences");
      && r.kind == Get(f, "type") && r.begin == Get(f, "begin") && r.end == Get(f, "end")
      && r.peptide == Get(f, "peptide") && r.unique == Get(f, "unique")
      && |r.evidences| == (if ev.Arr? then Min(|ev.items|, evidenceLimit) else 0)
      && forall i :: 0 <= i < |r.evidences| ==> TrimEvidence(ev.items[i]) == Ok(r.evidences[i])
  {
    var ev := Get(f, "evidences");
    if !IsNullish(f) && ev.Arr? {
      var es := ev.items[..Min(|ev.items|, evidenceLimit)];
      assert SliceList(ev, evidenceLimit) == Ok(es);
      if TrimEvidences(es).Err? {
        var e :| e in es && IsNullish(e);
        var i :| 0 <= i < |es| && es[i] == e;
        assert IsNullish(ev.items[i]);
      } else {
        forall i | 0 <= i < |es| ensures !IsNullish(ev.items[i]) {
          assert TrimEvidence(es[i]).Ok?;
        }
      }
    }
  }

  /** The features of a list, in order; the first that throws decides. */
  function TrimFeatureList(fs: seq<Json>, evidenceLimit: nat): (r: Result<seq<Feature>>)
    ensures r.Ok? ==> |r.value| == |fs|
    ensures r.Ok? ==> forall i :: 0 <= i < |fs| ==> TrimFeature(fs[i], evidenceLimit) == Ok(r.value[i])
  {
    if fs == [] then Ok([])
    else
      var prefix := fs[..|fs| - 1];
      var init := TrimFeatureList(prefix, evidenceLimit);
      var last := TrimFeature(fs[|fs| - 1], evidenceLimit);
      if init.Err? then init
      else if last.Err? then Err(last.message)
      else
        var r := init.value + [last.value];
        assert forall i :: 0 <= i < |prefix| ==> r[i] == init.value[i] && fs[i] == prefix[i];
        Ok(r)
  }

  /** `trimProteomicsFeatures(features, featureLimit, evidenceLimit)` */
  function TrimFeatures(features: Json, featureLimit: nat, evidenceLimit: nat): (r: Result<seq<Feature>>)
    ensures IsNullish(features) ==> r == Ok([])
  {
    var fs := SliceList(features, featureLimit);
    if fs.Err? then Err(fs.message) else TrimFeatureList(fs.value, evidenceLimit)
  }

  /** At most `featureLimit` features, each with at most `evidenceLimit`
      evidences and each evidence with at most ten properties; feature i is
      the trimmed feature i of the input. */
  lemma TrimFeaturesSpec(features: Json, featureLimit: nat, evidenceLimit: nat)
    requires TrimFeatures(features, featureLimit, evidenceLimit).Ok?
    ensures var r := TrimFeatures(features, featureLimit, evidenceLimit).value;
      && (features.Arr? ==> |r| == Min(|features.items|, featureLimit))
      && (!features.Arr? ==> r == [])
      && forall i :: 0 <= i < |r| ==>
           && TrimFeature(features.items[i], evidenceLimit) == Ok(r[i])
           && |r[i].evidences| <= evidenceLimit
           && forall ev <- r[i].evidences :: ev.properties.Obj? ==> |ev.properties.fields| <= PropertyLimit
  {
    var r := TrimFeatures(features, featureLimit, evidenceLimit).value;
    var fs := SliceList(features, featureLimit).value;
    forall i | 0 <= i < |r|
      ensures TrimFeature(features.items[i], evidenceLimit) == Ok(r[i])
      ensures |r[i].evidences| <= evidenceLimit
      ensures forall ev <- r[i].evidences :: ev.properties.Obj? ==> |ev.properties.fields| <= PropertyLimit
    {
      assert fs[i] == features.items[i];
    }
  }

  /** `const [key, value] = query.split(":")`: the text before the first
      colon, and the text between it and the next colon (`undefined` when
      there is no colon). */
  function SplitKeyValue(q: string): (r: (string, Json))
    ensures ':' !in r.0 && StartsWith(q, r.0)
    ensures ':' !in q ==> r == (q, Undefined)
    ensures ':' in q ==> r.1.Str? && ':' !in r.1.s && StartsWith(q, r.0 + ":" + r.1.s)
    ensures ':' in q ==> q[|r.0|] == ':'
    ensures ':' in q ==> |r.0| + 1 + |r.1.s| == |q| || q[|r.0| + 1 + |r.1.s|] == ':'
  {
    var k := BeforeColon(q);
    if |k| == |q| then (q, Undefined)
    else
      var rest := q[|k| + 1..];
      var v := BeforeColon(rest);
      assert q == k + ":" + rest;
      assert q[..|k + ":" + v|] == k + ":" + v;
      (k, Str(v))
  }

  /** The text up to the first colon. */
  function BeforeColon(s: string): (r: string)
    ensures StartsWith(s, r) && ':' !in r
    ensures |r| < |s| ==> s[|r|] == ':'
  {
    if s == [] || s[0] == ':' then [] else [s[0]] + BeforeColon(s[1..])
  }

  /** Whether a species record passes the filter; null records throw when a
      field of them is read. */
  function Matches(key: string, value: Json, s: Json): (r: Result<bool>)
    ensures r.Err? <==> (key == "taxId" || key == "upId") && IsNullish(s)
  {
    if key == "taxId" then
      if IsNullish(s) then Err(TypeErrorMessage) else Ok(value == Str(ToStr(Get(s, "taxId"))))
    else if key == "upId" then
      if IsNullish(s) then Err(TypeErrorMessage) else Ok(Get(s, "upId") == value)
    else Ok(false)
  }

  /** `all.filter(...)` over a list. */
  function FilterSpecies(key: string, value: Json, all: seq<Json>): (r: Result<seq<Json>>)
    ensures r.Ok? ==> forall s <- r.value :: s in all && Matches(key, value, s) == Ok(true)
    ensures r.Ok? ==> forall s <- all :: Matches(key, value, s) == Ok(true) ==> s in r.value
    ensures r.Err? <==> exists s <- all :: Matches(key, value, s).Err?
  {
    if all == [] then Ok([])
    else
      var init := FilterSpecies(key, value, all[..|all| - 1]);
      var s := all[|all| - 1];
      var m := Matches(key, value, s);
      assert all == all[..|all| - 1] + [s];
      if init.Err? then init
      else if m.Err? then Err(m.message)
      else if m.value then Ok(init.value + [s])
      else init
  }

  /** A key other than `taxId` and `upId` matches nothing and reads no record. */
  lemma OtherKeyMatchesNothing(key: string, value: Json, all: seq<Json>)
    requires key != "taxId" && key != "upId"
    ensures FilterSpecies(key, value, all) == Ok([])
  {
  }

  /** The handler's data: the fetched value, the filtered species, or an entry. */
  datatype Data =
    | Raw(v: Json)
    | Species(list: seq<Json>)
    | Entry(accession: Json, entryName: Json, taxid: Json, features: seq<Feature>)

  /** `count`: the length of `data.features` or of `data` when an array, otherwise one. */
  function Count(d: Data): (r: nat)
    ensures d.Entry? ==> r == |d.features|
    ensures d.Species? ==> r == |d.list|
  {
    match d
    case Raw(v) =>
      if Get(v, "features").Arr? then |Get(v, "features").items| else if v.Arr? then |v.items| else 1
    case Species(list) => |list|
    case Entry(_, _, _, features) => |features|
  }

  /** The arguments; `None` is an argument left out. */
  datatype Args = Args(action: string, query: Option<string>, accession: Option<string>, size: Option<int>)

  datatype Answer = Answer(action: string, accession: Option<string>, count: nat, data: Data)
  datatype Outcome = Outcome(result: Result<Answer>, sent: seq<Request>)

  const SpeciesRequest: Request := Request("proteomics/species", [])

  /** The path segment of each by-accession action. */
  function Segment(action: string): string {
    if action == "non_ptm_by_accession" then "nonPtm" else if action == "ptm_by_accession" then "ptm" else "hpp"
  }

  predicate ByAccession(action: string) {
    action in ["non_ptm_by_accession", "ptm_by_accession", "hpp_by_accession"]
  }

  predicate Unsupported(action: string) {
    action in ["non_ptm_search", "ptm_search", "hpp_search"]
  }

  /** The refusal of a `*_search` action names its by-accession replacement. */
  function UnsupportedMessage(action: string): (r: string)
    requires Unsupported(action)
    ensures StartsWith(r, action)
  {
    var base := action[..|action| - |"search"|];
    action + " is not supported. Use " + base + "by_accession instead."
  }

  /** The feature and evidence limits of a by-accession action. */
  function Limits(action: string, size: nat): (nat, nat) {
    if action == "hpp_by_accession" then (size, HppEvidenceLimit) else (FixedLimit, FixedLimit)
  }

  function Answered(args: Args, d: Result<Data>): (r: Result<Answer>)
    ensures r.Ok? <==> d.Ok?
  {
    if d.Err? then Err(d.message) else Ok(Answer(args.action, args.accession, Count(d.value), d.value))
  }

  /** The entry a by-accession action makes of the fetched value. */
  function EntryOf(raw: Json, limits: (nat, nat)): Result<Data> {
    if IsNullish(raw) then Err(TypeErrorMessage)
    else
      var fs := TrimFeatures(Get(raw, "features"), limits.0, limits.1);
      if fs.Err? then Err(fs.message)
      else Ok(Entry(Get(raw, "accession"), Get(raw, "entryName"), Get(raw, "taxid"), fs.value))
  }

  /** The filtered species list of `species_search`. */
  function SearchSpecies(query: string, all: Json): Result<Data> {
    var kv := SplitKeyValue(query);
    if !all.Arr? then Err("TypeError: all.filter is not a function")
    else
      var r := FilterSpecies(kv.0, kv.1, all.items);
      if r.Err? then Err(r.message) else Ok(Species(r.value))
  }

  /** The request of a by-accession action. */
  function AccessionRequest(args: Args): Request
    requires args.accession.Some?
  {
    Request("proteomics/" + Segment(args.action) + "/" + args.accession.value, [args.accession.value])
  }

  /** `ProteinProteomicsHandler.run` */
  function Run(args: Args, net: Request -> Reply): (r: Outcome)
    ensures Unsupported(args.action) || (ByAccession(args.action) && (args.accession.None? || args.accession.value == "")) ==>
      r.result.Err? && r.sent == []
  {
    var size := NormalizeSize(args.size);
    if args.action == "species" then
      var raw := FetchJson(net(SpeciesRequest));
      Outcome(Answered(args, if raw.Err? then Err(raw.message) else Ok(Raw(raw.value))), [SpeciesRequest])
    else if args.action == "species_search" then
      if args.query.None? || args.query.value == "" then Outcome(Err("query required"), [])
      else
        var all := FetchJson(net(SpeciesRequest));
        Outcome(Answered(args, if all.Err? then Err(all.message) else SearchSpecies(args.query.value, all.value)),
                [SpeciesRequest])
    else if Unsupported(args.action) then Outcome(Err(UnsupportedMessage(args.action)), [])
    else if ByAccession(args.action) then
      if args.accession.None? || args.accession.value == "" then Outcome(Err("accession required"), [])
      else
        var req := AccessionRequest(args);
        var raw := FetchJson(net(req));
        Outcome(Answered(args, if raw.Err? then Err(raw.message) else EntryOf(raw.value, Limits(args.action, size))),
                [req])
    else Outcome(Err("Unknown proteomics action"), [])
  }

  /** A by-accession answer counts its features: at most three (three
      evidences each) for non-PTM and PTM, at most `normalizeSize(size)` (ten
      evidences each) for HPP. */
  lemma EntryBounds(args: Args, net: Request -> Reply)
    requires ByAccession(args.action) && Run(args, net).result.Ok?
    ensures var a := Run(args, net).result.value;
      var limits := Limits(args.action, NormalizeSize(args.size));
      && a.data.Entry?
      && a.count == |a.data.features| <= limits.0
      && forall f <- a.data.features :: |f.evidences| <= limits.1
  {
    var size := NormalizeSize(args.size);
    var raw := FetchJson(net(AccessionRequest(args))).value;
    var features := Get(raw, "features");
    var limits := Limits(args.action, size);
    TrimFeaturesSpec(features, limits.0, limits.1);
    var fs := TrimFeatures(features, limits.0, limits.1).value;
    forall f <- fs ensures |f.evidences| <= limits.1 {
      var i :| 0 <= i < |fs| && fs[i] == f;
    }
  }

  /** `species_search` keeps exactly the records whose `taxId` (as a string)
      or `upId` equals the text after the colon. */
  lemma SpeciesSearchSpec(query: string, all: Json)
    requires SearchSpecies(query, all).Ok?
    ensures var kv := SplitKeyValue(query);
      var list := SearchSpecies(query, all).value.list;
      && all.Arr?
      && (kv.0 != "taxId" && kv.0 != "upId" ==> list == [])
      && forall s <- all.items :: s in list <==> Matches(kv.0, kv.1, s) == Ok(true)
  {
    var kv := SplitKeyValue(query);
    if kv.0 != "taxId" && kv.0 != "upId" {
      OtherKeyMatchesNothing(kv.0, kv.1, all.items);
    }
  }

  /** What each fetching action answers: `species` the fetched value as it is;
      `species_search` the filtered species of the fetched list; a
      by-accession action the entry's accession, name and taxon with its
      features trimmed to the action's limits and counted. Each sends its one
      request, and a failed fetch is its error. */
  lemma FetchedAnswers(args: Args, net: Request -> Reply)
    ensures args.action == "species" ==>
      var raw := FetchJson(net(SpeciesRequest));
      && Run(args, net).sent == [SpeciesRequest]
      && (raw.Err? ==> Run(args, net).result == Err(raw.message))
      && (raw.Ok? ==> Run(args, net).result == Ok(Answer(args.action, args.accession, Count(Raw(raw.value)), Raw(raw.value))))
    ensures args.action == "species_search" && args.query.Some? && args.query.value != "" ==>
      var all := FetchJson(net(SpeciesRequest));
      && Run(args, net).sent == [SpeciesRequest]
      && (all.Err? ==> Run(args, net).result == Err(all.message))
      && (all.Ok? && SearchSpecies(args.query.value, all.value).Err? ==>
            Run(args, net).result == Err(SearchSpecies(args.query.value, all.value).message))
      && (all.Ok? && SearchSpecies(args.query.value, all.value).Ok? ==>
            var d := SearchSpecies(args.query.value, all.value).value;
            Run(args, net).result == Ok(Answer(args.action, args.accession, |d.list|, d)))
    ensures ByAccession(args.action) && args.accession.Some? && args.accession.value != "" ==>
      var raw := FetchJson(net(AccessionRequest(args)));
      && Run(args, net).sent == [AccessionRequest(args)]
      && (raw.Err? ==> Run(args, net).result == Err(raw.message))
      && (raw.Ok? && IsNullish(raw.value) ==> Run(args, net).result == Err(TypeErrorMessage))
      && (raw.Ok? && !IsNullish(raw.value) ==>
            var limits := Limits(args.action, NormalizeSize(args.size));
            var fs := TrimFeatures(Get(raw.value, "features"), limits.0, limits.1);
            && (fs.Err? ==> Run(args, net).result == Err(fs.message))
            && (fs.Ok? ==>
                  Run(args, net).result ==
                    Ok(Answer(args.action, args.accession, |fs.value|,
                              Entry(Get(raw.value, "accession"), Get(raw.value, "entryName"), Get(raw.value, "taxid"), fs.value)))))
  {
  }
}
