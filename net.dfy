/** The remote services as an oracle: every `fetch` the handlers make is a
    `Request`, answered by a `Reply`. */
module Net {
  import opened Js

  /** One HTTP request: the route template it fills and the values filled in
      (before URL encoding). */
  datatype Request = Request(route: string, params: seq<string>)

  /** What `fetch` produced: a rejected promise, or a response whose body text
      parses (`body == Some(...)`) or makes `res.json()` throw (`body == None`). */
  datatype Reply =
    | NetworkFailure(reason: string)
    | Response(status: int, contentType: string, text: string, body: Option<Json>)

  /** `res.ok` */
  predicate IsOk(r: Reply) {
    r.Response? && 200 <= r.status <= 299
  }

  /** `contentType.includes("application/json")` */
  predicate IsJsonContent(r: Reply) {
    r.Response? && Contains(r.contentType, "application/json")
  }

  /** `text.slice(0, n)` */
  function Prefix(text: string, n: nat): (r: string)
    ensures |r| <= n && |r| <= |text| && r == text[..|r|]
  {
    if |text| <= n then text else text[..n]
  }

  /** The message `res.json()` throws on a body that is not JSON. */
  const SyntaxErrorMessage: string := "SyntaxError: unexpected token in JSON"

  /** The PDBe handlers' `fetchJson`: 404 and 422 are null, another failure
      throws `<service> failed (<status>)`, and an ok reply is parsed. */
  function FetchOrNull(reply: Reply, service: string): (r: Result<Json>)
    ensures reply.Response? && (reply.status == 404 || reply.status == 422) ==> r == Ok(Null)
    ensures reply.Response? && reply.status != 404 && reply.status != 422 && !IsOk(reply) ==>
      r == Err(service + " failed (" + Decimal(reply.status) + ")")
    ensures r.Ok? && r.value != Null ==> IsOk(reply) && reply.body == Some(r.value)
    ensures reply.NetworkFailure? ==> r == Err(reply.reason)
    ensures IsOk(reply) && reply.body.Some? ==> r == Ok(reply.body.value)
    ensures IsOk(reply) && reply.body.None? ==> r == Err(SyntaxErrorMessage)
  {
    if reply.NetworkFailure? then Err(reply.reason)
    else if reply.status == 404 || reply.status == 422 then Ok(Null)
    else if !IsOk(reply) then Err(service + " failed (" + Decimal(reply.status) + ")")
    else if reply.body.None? then Err(SyntaxErrorMessage)
    else Ok(reply.body.value)
  }
}
