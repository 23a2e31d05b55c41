/** The UniParc handler (`ProteinUniParcHandler`): six actions, four of which
    fetch from the UniProt REST service and trim each entry to a fixed set of
    keys; the proteome and sequence actions answer with a notice and fetch
    nothing. */
module UniParc {
  import opened Js
  import opened Net

  const DefaultSize: int := 3
  const MinSize: int := 1
  const MaxSize: int := 10

  /** `normalizeSize(size)`: a missing or zero size is 3, anything else is
      clamped to 1..10. */
  function NormalizeSize(size: Option<int>): (r: int)
    ensures MinSize <= r <= MaxSize
    ensures size.None? || size.value == 0 ==> r == DefaultSize
    ensures size.Some? && MinSize <= size.value <= MaxSize ==> r == size.value
    ensures size.Some? && size.value != 0 && size.value < MinSize ==> r == MinSize
    ensures size.Some? && size.value > MaxSize ==> r == MaxSize
  {
    if size.None? || size.value == 0 then DefaultSize
    else if size.value < MinSize then MinSize
    else if size.value > MaxSize then MaxSize
    else size.value
  }

  /** `fetchJson(url)`: a failure status throws with the first 200 characters of the body. */
  function FetchJson(reply: Reply): (r: Result<Json>)
    ensures r.Ok? <==> IsOk(reply) && reply.body.Some?
    ensures r.Ok? ==> reply.body == Some(r.value)
    ensures reply.NetworkFailure? ==> r == Err(reply.reason)
    ensures reply.Response? && !IsOk(reply) ==>
      r == Err("UniParc API failed (" + Decimal(reply.status) + "): " + Prefix(reply.text, 200))
    ensures IsOk(reply) && reply.body.None? ==> r == Err(SyntaxErrorMessage)
  {
    if reply.NetworkFailure? then Err(reply.reason)
    else if !IsOk(reply) then Err("UniParc API failed (" + Decimal(reply.status) + "): " + Prefix(reply.text, 200))
    else if reply.body.None? then Err(SyntaxErrorMessage)
    else Ok(reply.body.value)
  }

  /** The keys an entry keeps. */
  const EntryKeys: seq<string> := ["upi", "sequence", "sequenceLength", "crc64", "md5", "taxonId", "organism", "uniProtKBAccessions"]

  /** The entries whose key is one of `EntryKeys`, in order. */
  function KeepKeys(fields: seq<Field>): (r: seq<Field>)
    ensures forall f <- r :: f in fields && f.key in EntryKeys
    ensures forall f <- fields :: f.key in EntryKeys ==> f in r
    ensures |r| <= |fields|
  {
    if fields == [] then []
    else
      var init := KeepKeys(fields[..|fields| - 1]);
      var f := fields[|fields| - 1];
      assert fields == fields[..|fields| - 1] + [f];
      if f.key in EntryKeys then init + [f] else init
  }

  /** A list already holding only kept keys is left as it is. */
  lemma {:induction false} KeepKeysFixed(fields: seq<Field>)
    requires forall f <- fields :: f.key in EntryKeys
    ensures KeepKeys(fields) == fields
  {
    if fields != [] {
      var init := fields[..|fields| - 1];
      var last := fields[|fields| - 1];
      forall i | 0 <= i < |init| ensures init[i].key in EntryKeys {
        assert init[i] == fields[i];
      }
      KeepKeysFixed(init);
      assert last.key in EntryKeys;
      assert KeepKeys(fields) == KeepKeys(init) + [last];
      assert fields == init + [last];
    }
  }

  /** `trimUniParcEntry(entry)`: falsy values and non-objects pass through;
      an object (or array) keeps only its entries named in `EntryKeys`. */
  function TrimEntry(entry: Json): (r: Json)
    ensures !IsTruthy(entry) || !IsObjectLike(entry) ==> r == entry
    ensures IsObjectLike(entry) ==> r.Obj? && forall f <- r.fields :: f in Entries(entry) && f.key in EntryKeys
    ensures entry.Obj? ==> forall f <- entry.fields :: f.key in EntryKeys ==> f in r.fields
  {
    if !IsTruthy(entry) || !IsObjectLike(entry) then entry else Obj(KeepKeys(Entries(entry)))
  }

  /** Trimming twice is trimming once. */
  lemma TrimIdempotent(entry: Json)
    ensures TrimEntry(TrimEntry(entry)) == TrimEntry(entry)
  {
    if IsTruthy(entry) && IsObjectLike(entry) {
      KeepKeysFixed(KeepKeys(Entries(entry)));
    }
  }

  /** An array has only index keys, none of which is kept. */
  lemma ArrayTrimsToEmpty(items: seq<Json>)
    ensures TrimEntry(Arr(items)) == Obj([])
  {
    var r := KeepKeys(Entries(Arr(items)));
    if r != [] {
      var f := r[0];
      assert f in Entries(Arr(items));
      var i :| 0 <= i < |items| && Entries(Arr(items))[i] == f;
      DecimalIsDigits(i);
      assert false;
    }
  }

  lemma DecimalIsDigits(i: nat)
    ensures Decimal(i) == Digits(i) && |Decimal(i)| >= 1 && '0' <= Decimal(i)[0] <= '9'
  {
  }

  /** `trimResults(results, limit)`: the first `limit` entries, each trimmed;
      a value that is neither missing nor an array cannot be sliced and mapped. */
  function TrimResults(results: Json, limit: nat): (r: Result<seq<Json>>)
    ensures IsNullish(results) ==> r == Ok([])
    ensures results.Arr? ==> r.Ok? && |r.value| == (if |results.items| < limit then |results.items| else limit)
    ensures results.Arr? ==> forall i :: 0 <= i < |r.value| ==> r.value[i] == TrimEntry(results.items[i])
    ensures r.Err? <==> !IsNullish(results) && !results.Arr?
  {
    match results
    case Undefined => Ok([])
    case Null => Ok([])
    case Arr(items) =>
      var n := if |items| < limit then |items| else limit;
      Ok(seq(n, i requires 0 <= i < n => TrimEntry(items[i])))
    case _ => Err("TypeError: results.slice(...).map is not a function")
  }

  predicate IsDigit(c: char) { '0' <= c <= '9' }
  predicate IsUpper(c: char) { 'A' <= c <= 'Z' }

  /** `/^[A-NR-Z][0-9][A-Z0-9]{3}[0-9]$/` as the handler writes it: the
      six-character UniProtKB accession shape with the first letter O, P or Q
      excluded. */
  predicate AccessionLikeAsWritten(s: string) {
    && |s| == 6
    && (('A' <= s[0] <= 'N') || ('R' <= s[0] <= 'Z'))
    && IsDigit(s[1])
    && (forall i :: 2 <= i < 5 ==> IsUpper(s[i]) || IsDigit(s[i]))
    && IsDigit(s[5])
  }

  /** The six-character accession shape with both of UniProtKB's first-letter
      classes, `[OPQ]` and `[A-NR-Z]`: any upper-case letter. */
  predicate AccessionLike(s: string) {
    && |s| == 6
    && IsUpper(s[0])
    && IsDigit(s[1])
    && (forall i :: 2 <= i < 5 ==> IsUpper(s[i]) || IsDigit(s[i]))
    && IsDigit(s[5])
  }

  /** The corrected shape only adds the O, P and Q accessions. */
  lemma AccessionLikeWidens(s: string)
    ensures AccessionLikeAsWritten(s) ==> AccessionLike(s)
    ensures AccessionLike(s) && !AccessionLikeAsWritten(s) ==> s[0] in "OPQ"
  {
  }

  /** The query parameter `bestguess` sends with the expression as written. */
  function GuessParamAsWritten(query: Option<string>): (r: (string, string))
    ensures query.Some? && StartsWith(query.value, "UPI") ==> r == ("upis", query.value)
  {
    if query.Some? && StartsWith(query.value, "UPI") then ("upis", query.value)
    else if AccessionLikeAsWritten(if query.Some? then query.value else "") then ("accessions", query.value)
    else ("genes", if query.Some? then query.value else "undefined")
  }

  /** The classification as written: a "UPI" prefix is sent as `upis`, the
      written accession shape as `accessions`, anything else as `genes`; the
      value is the query itself. */
  lemma GuessParamAsWrittenSpec(query: Option<string>)
    ensures GuessParamAsWritten(query).0 == "upis" <==> query.Some? && StartsWith(query.value, "UPI")
    ensures GuessParamAsWritten(query).0 == "accessions" <==> query.Some? && AccessionLikeAsWritten(query.value)
    ensures GuessParamAsWritten(query).0 == "genes" <==>
      !(query.Some? && StartsWith(query.value, "UPI")) && !(query.Some? && AccessionLikeAsWritten(query.value))
    ensures GuessParamAsWritten(query).1 == (if query.Some? then query.value else "undefined")
  {
    if query.Some? && StartsWith(query.value, "UPI") {
      assert query.value[1] == "UPI"[1];
      assert !AccessionLikeAsWritten(query.value);
    }
  }

  /** As written, the accession of human p53 is searched as a gene name. */
  lemma AsWrittenMissesP04637()
    ensures GuessParamAsWritten(Some("P04637")) == ("genes", "P04637")
    ensures AccessionLike("P04637")
  {
    assert !StartsWith("P04637", "UPI") by { assert "P04637"[1] != "UPI"[1]; }
    assert !AccessionLikeAsWritten("P04637");
  }

  /** The query parameter `bestguess` sends, and its value (`String(undefined)`
      when missing), with the accession shape corrected. */
  function GuessParam(query: Option<string>): (r: (string, string))
    ensures query.Some? && StartsWith(query.value, "UPI") ==> r == ("upis", query.value)
  {
    if query.Some? && StartsWith(query.value, "UPI") then ("upis", query.value)
    else if AccessionLike(if query.Some? then query.value else "") then ("accessions", query.value)
    else ("genes", if query.Some? then query.value else "undefined")
  }

  /** A query is sent as exactly one of UPI, accession or gene: an accession
      never starts with "UPI", so the first two are disjoint. */
  lemma GuessParamSpec(query: Option<string>)
    ensures GuessParam(query).0 == "upis" <==> query.Some? && StartsWith(query.value, "UPI")
    ensures GuessParam(query).0 == "accessions" <==> query.Some? && AccessionLike(query.value)
    ensures GuessParam(query).0 == "genes" <==>
      !(query.Some? && StartsWith(query.value, "UPI")) && !(query.Some? && AccessionLike(query.value))
    ensures GuessParam(query).1 == (if query.Some? then query.value else "undefined")
  {
    if query.Some? && StartsWith(query.value, "UPI") {
      assert query.value[1] == "UPI"[1];
      assert !AccessionLike(query.value);
    }
  }

  /** The arguments; `None` is an argument left out. */
  datatype Args = Args(action: string, accession: Option<string>, dbid: Option<string>, upid: Option<string>,
                       upi: Option<string>, sequence: Option<string>, query: Option<string>, size: Option<int>)

  /** `${x}` in a URL template. */
  function Text(x: Option<string>): string {
    if x.Some? then x.value else "undefined"
  }

  datatype Answer = Answer(action: string, count: nat, data: Json)
  datatype Outcome = Outcome(result: Result<Answer>, sent: seq<Request>)

  /** `count`: the length of an array, one for anything else. */
  function Count(data: Json): (r: nat)
    ensures data.Arr? ==> r == |data.items|
    ensures !data.Arr? ==> r == 1
  {
    if data.Arr? then |data.items| else 1
  }

  function Answered(args: Args, data: Result<Json>): (r: Result<Answer>)
    ensures r.Ok? <==> data.Ok?
  {
    if data.Err? then Err(data.message) else Ok(Answer(args.action, Count(data.value), data.value))
  }

  function ProteomeNotice(upid: Option<string>): Json {
    Obj([Field("notice", Str("UniParc does not support proteome-level queries.")),
         Field("recommendation", Str("Use UniProtKB proteome endpoints instead.")),
         Field("requestedProteome", if upid.Some? then Str(upid.value) else Undefined),
         Field("returnedEntries", Num(0))])
  }

  function SequenceNotice(sequence: Option<string>): Json {
    Obj([Field("notice", Str("UniParc does not support sequence-based search.")),
         Field("recommendation", Str("Use UniProtKB search or BLAST services.")),
         Field("sequenceLength", Num(if sequence.Some? then |sequence.value| else 0)),
         Field("returnedEntries", Num(0))])
  }

  /** The request a fetching action sends. */
  function RequestOf(args: Args): Request {
    if args.action == "by_accession" then Request("uniparc/accession/" + Text(args.accession), [Text(args.accession)])
    else if args.action == "bestguess" then
      var p := GuessParam(args.query);
      Request("uniparc/bestguess?" + p.0 + "=" + p.1, [p.1])
    else if args.action == "by_dbreference" then Request("uniparc/dbreference/" + Text(args.dbid), [Text(args.dbid)])
    else Request("uniparc/" + Text(args.upi), [Text(args.upi)])
  }

  predicate Fetches(action: string) {
    action in ["by_accession", "bestguess", "by_dbreference", "by_upi"]
  }

  /** The data a fetching action makes of the fetched value. */
  function DataOf(action: string, raw: Json, size: nat): Result<Json> {
    if action == "bestguess" then
      var results := Get(raw, "results");
      if IsTruthy(results) then
        var t := TrimResults(results, size);
        if t.Err? then Err(t.message) else Ok(Arr(t.value))
      else Ok(Arr([]))
    else if action == "by_dbreference" then
      var results := Prop(raw, "results");
      if results.Err? then Err(results.message)
      else
        var t := TrimResults(results.value, size);
        if t.Err? then Err(t.message) else Ok(Arr(t.value))
    else Ok(TrimEntry(raw))
  }

  /** `ProteinUniParcHandler.run` */
  function Run(args: Args, net: Request -> Reply): (r: Outcome)
    ensures !Fetches(args.action) ==> r.sent == []
    ensures Fetches(args.action) ==> r.sent == [RequestOf(args)]
  {
    var size := NormalizeSize(args.size);
    if Fetches(args.action) then
      var raw := FetchJson(net(RequestOf(args)));
      var data := if raw.Err? then Err(raw.message) else DataOf(args.action, raw.value, size);
      Outcome(Answered(args, data), [RequestOf(args)])
    else if args.action == "by_proteome" then Outcome(Answered(args, Ok(ProteomeNotice(args.upid))), [])
    else if args.action == "by_sequence" then Outcome(Answered(args, Ok(SequenceNotice(args.sequence))), [])
    else Outcome(Err("Unknown action: " + args.action), [])
  }

  /** The two unsupported searches answer with a notice and a count of one
      and never reach the network; an unknown action throws. */
  lemma NoticeActions(args: Args, net: Request -> Reply)
    ensures args.action == "by_proteome" ==>
      Run(args, net) == Outcome(Ok(Answer(args.action, 1, ProteomeNotice(args.upid))), [])
    ensures args.action == "by_sequence" ==>
      Run(args, net) == Outcome(Ok(Answer(args.action, 1, SequenceNotice(args.sequence))), [])
    ensures !Fetches(args.action) && args.action != "by_proteome" && args.action != "by_sequence" ==>
      Run(args, net) == Outcome(Err("Unknown action: " + args.action), [])
  {
  }

  /** A list answer counts its entries, holds at most `normalizeSize(size)`
      of them, and each is a trimmed entry of the reply's `results`. */
  lemma ListAnswer(args: Args, net: Request -> Reply)
    requires args.action == "bestguess" || args.action == "by_dbreference"
    requires Run(args, net).result.Ok?
    ensures var a := Run(args, net).result.value;
      var raw := net(RequestOf(args)).body.value;
      && a.data.Arr?
      && a.count == |a.data.items| <= NormalizeSize(args.size)
      && (Get(raw, "results").Arr? ==> a.count == Min(|Get(raw, "results").items|, NormalizeSize(args.size)))
      && forall i :: 0 <= i < a.count ==> a.data.items[i] == TrimEntry(Get(raw, "results").items[i])
  {
    var raw := FetchJson(net(RequestOf(args)));
    var size := NormalizeSize(args.size);
    assert raw.Ok?;
    var results := Get(raw.value, "results");
    if args.action == "bestguess" && !IsTruthy(results) {
      assert DataOf(args.action, raw.value, size) == Ok(Arr([]));
    } else {
      assert results.Arr? || IsNullish(results);
    }
  }

  /** A fetching action answers from an ok reply: `by_accession` and `by_upi`
      with the trimmed entry; the list actions with the first
      `normalizeSize(size)` trimmed entries of an array `results`, and
      `bestguess` with none when `results` is falsy. A failed fetch is its
      error. */
  lemma FetchedAnswer(args: Args, net: Request -> Reply)
    requires Fetches(args.action)
    ensures var raw := FetchJson(net(RequestOf(args)));
      raw.Err? ==> Run(args, net).result == Err(raw.message)
    ensures var raw := FetchJson(net(RequestOf(args)));
      raw.Ok? && (args.action == "by_accession" || args.action == "by_upi") ==>
        Run(args, net).result == Ok(Answer(args.action, Count(TrimEntry(raw.value)), TrimEntry(raw.value)))
    ensures var raw := FetchJson(net(RequestOf(args)));
      raw.Ok? && (args.action == "bestguess" || args.action == "by_dbreference") && Get(raw.value, "results").Arr? ==>
        var results := Get(raw.value, "results").items;
        var n := Min(|results|, NormalizeSize(args.size));
        Run(args, net).result == Ok(Answer(args.action, n, Arr(seq(n, i requires 0 <= i < n => TrimEntry(results[i])))))
    ensures var raw := FetchJson(net(RequestOf(args)));
      raw.Ok? && args.action == "bestguess" && !IsTruthy(Get(raw.value, "results")) ==>
        Run(args, net).result == Ok(Answer(args.action, 0, Arr([])))
  {
    var raw := FetchJson(net(RequestOf(args)));
    if raw.Ok? && (args.action == "bestguess" || args.action == "by_dbreference") && Get(raw.value, "results").Arr? {
      var results := Get(raw.value, "results").items;
      var size := NormalizeSize(args.size);
      var n := Min(|results|, size);
      var t := TrimResults(Get(raw.value, "results"), size);
      assert t.value == seq(n, i requires 0 <= i < n => TrimEntry(results[i]));
      assert args.action == "by_dbreference" ==> Prop(raw.value, "results") == Ok(Get(raw.value, "results"));
    }
  }

  /** How queries are classified for the bestguess endpoint. */
  lemma GuessExamples()
    ensures GuessParam(Some("P04637")) == ("accessions", "P04637")
    ensures GuessParam(Some("UPI000002ED67")) == ("upis", "UPI000002ED67")
    ensures GuessParam(Some("TP53")) == ("genes", "TP53")
    ensures GuessParam(None) == ("genes", "undefined")
  {
    assert !StartsWith("P04637", "UPI") by { assert "P04637"[1] != "UPI"[1]; }
    assert AccessionLike("P04637");
    assert !StartsWith("TP53", "UPI") by { assert "TP53"[0] != "UPI"[0]; }
    assert !AccessionLike("TP53");
  }
}
