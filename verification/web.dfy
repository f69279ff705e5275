/** The network, as the scraper sees it through `requests` and `waybackpy`.

    Nothing here performs I/O: a `Net` is an oracle that fixes, for every
    URL, the reply to each request and the answer of the Wayback Machine CDX
    index. `get(u, k)` is the reply to the `k`-th consecutive request for `u`
    issued by one retry loop; a request made outside a retry loop is
    attempt 0.
 */
module Web {
  import opened Outcomes

  /** A decoded JSON document (`response.json()`). */
  datatype Json =
    | JNull
    | JBool(b: bool)
    | JNumber(n: real)
    | JString(s: string)
    | JArray(items: seq<Json>)
    | JObject(fields: map<string, Json>)

  /** What `requests.get` does: raise a `RequestException` (transport
      failure, malformed URL), or return a response of any status. The body
      is kept both as text and, when it parses, as JSON. */
  datatype Reply =
    | Failed(reason: string)
    | Response(status: int, text: string, json: Option<Json>)

  /** `bool(response)`: a `requests` response is falsy exactly when
      `raise_for_status` would raise, that is for a status in [400, 600). */
  predicate Truthy(r: Reply)
    ensures Truthy(r) ==> r.Response?
    ensures r.Response? && 200 <= r.status < 400 ==> Truthy(r)
    ensures r.Response? && 400 <= r.status < 600 ==> !Truthy(r)
  {
    r.Response? && !(400 <= r.status < 600)
  }

  /** What `WaybackMachineCDXServerAPI(url).newest()` does. */
  datatype Cdx =
    | NoCdxRecord                  // raises NoCDXRecordFound
    | Newest(archiveUrl: string)   // the newest snapshot's archive_url
    | CdxFailed(reason: string)    // any other waybackpy failure

  datatype Net = Net(get: (string, nat) -> Reply, newest: string -> Cdx)

  /** `requests.get(url).text`: the body of whatever response arrives,
      whatever its status; a transport failure escapes. */
  function GetText(net: Net, url: string): (r: Result<string>)
    ensures r.Ok? <==> net.get(url, 0).Response?
    ensures r.Ok? ==> r.value == net.get(url, 0).text
    ensures r.Raise? ==> r.exc.RequestException?
  {
    match net.get(url, 0)
    case Failed(reason) => Raise(RequestException(reason))
    case Response(_, text, _) => Ok(text)
  }
}
