/** The downloaders and the fallback chain of `download_resource`.

    A downloader maps a URL to `(resolved URL, content)` or raises. The chain
    tries downloaders in list order: a `DownloaderError` is swallowed and the
    next downloader is tried, any other exception escapes at once, and when
    every downloader raised `DownloaderError` (or there was none) a terminal
    `DownloaderError` naming the URL is raised.
 */
module Downloader {
  import opened Outcomes
  import opened Web
  import opened Template

  /** What a downloader returns: `(resolved URL, content)`. */
  datatype Fetched = Fetched(resolved: string, content: string)

  /** The downloaders the source defines. `InternetArchive(n)` is
      `internet_archive_wayback_downloader` with `retries=n`. */
  datatype Downloader = WaybackCdx | InternetArchive(retries: int) | Direct

  /** The default chain: the Internet Archive first (three attempts), then
      a direct fetch. */
  const DOWNLOADERS: seq<Downloader> := [InternetArchive(3), Direct]

  const INTERNET_ARCHIVE_URL := "http://archive.org/wayback/available?url={url}"

  /** The availability-API query for `url`: the URL is pasted in verbatim,
      neither escaped nor encoded. */
  const AVAILABILITY_PREFIX := "http://archive.org/wayback/available?url="

  function CdxMissingMessage(url: string): string {
    "No alternate URL found for " + url + " using Wayback Machine CDX API."
  }

  function CouldNotFetchMessage(availabilityUrl: string): string {
    "Could not fetch " + availabilityUrl + "."
  }

  function NoSnapshotMessage(url: string): string {
    "Could not find a snapshot for " + url + " on the Internet Archive."
  }

  function NoDownloaderMessage(url: string): string {
    "No downloaders could download " + url + "."
  }

  /** `wayback_machine_cdx_downloader`: resolves to the newest archived
      snapshot, yet fetches the content from the ORIGINAL URL. */
  function CdxDownloader(url: string, net: Net): (r: Result<Fetched>)
    ensures IsDownloaderError(r) <==> net.newest(url).NoCdxRecord?
    ensures IsDownloaderError(r) ==> r.exc.message == CdxMissingMessage(url)
    ensures net.newest(url).CdxFailed? ==> r == Raise(CdxError(net.newest(url).reason))
    ensures net.newest(url).Newest? && net.get(url, 0).Failed?
            ==> r == Raise(RequestException(net.get(url, 0).reason))
    ensures r.Ok? <==> net.newest(url).Newest? && net.get(url, 0).Response?
    ensures r.Ok? ==> r.value == Fetched(net.newest(url).archiveUrl, net.get(url, 0).text)
  {
    match net.newest(url)
    case NoCdxRecord => Raise(DownloaderError(CdxMissingMessage(url)))
    case CdxFailed(reason) => Raise(CdxError(reason))
    case Newest(archiveUrl) =>
      var content :- GetText(net, url);
      Ok(Fetched(archiveUrl, content))
  }

  /** `INTERNET_ARCHIVE_URL.format(url=url)`. */
  function AvailabilityUrl(url: string): (r: Result<string>)
    ensures r == Ok(AVAILABILITY_PREFIX + url)
  {
    AvailabilityQuery(url);
    Format(INTERNET_ARCHIVE_URL, map["url" := url])
  }

  lemma AvailabilityQuery(url: string)
    ensures Format(INTERNET_ARCHIVE_URL, map["url" := url]) == Ok(AVAILABILITY_PREFIX + url)
  {
    AvailabilityTemplateSplits();
    AvailabilityFieldExpands(url);
  }

  lemma AvailabilityFieldExpands(url: string)
    ensures Format(AVAILABILITY_PREFIX + ("{" + "url" + "}" + ""), map["url" := url]) == Ok(AVAILABILITY_PREFIX + url)
  {
    var args := map["url" := url];
    AvailabilityPrefixIsLiteral();
    FormatLiteral(AVAILABILITY_PREFIX, "{" + "url" + "}" + "", args);
    FormatField("url", "", args);
    assert AVAILABILITY_PREFIX + (url + "") == AVAILABILITY_PREFIX + url;
  }

  lemma AvailabilityTemplateSplits()
    ensures INTERNET_ARCHIVE_URL == AVAILABILITY_PREFIX + ("{" + "url" + "}" + "")
  {
  }

  lemma AvailabilityPrefixIsLiteral()
    ensures NoBraces(AVAILABILITY_PREFIX)
  {
  }

  /** The state the retry loop leaves behind: the response it kept, if any,
      and how many availability requests it issued. */
  datatype Poll = Poll(response: Option<Reply>, requests: nat)

  /** The retry loop from iteration `k` on: request again after a
      `RequestException`, stop at the first reply that is not one, give up
      after `retries` iterations. */
  function PollFrom(net: Net, query: string, retries: int, k: nat): (p: Poll)
    ensures k <= p.requests <= if retries > k then retries else k
    ensures forall m | k <= m < p.requests - 1 :: net.get(query, m).Failed?
    ensures p.response.None? ==>
              p.requests == (if retries > k then retries else k)
              && forall m | k <= m < p.requests :: net.get(query, m).Failed?
    ensures p.response.Some? ==>
              k < p.requests
              && p.response.value == net.get(query, p.requests - 1)
              && p.response.value.Response?
    decreases retries - k
  {
    if k >= retries then Poll(None, k)
    else if net.get(query, k).Failed? then PollFrom(net, query, retries, k + 1)
    else Poll(Some(net.get(query, k)), k + 1)
  }

  /** The whole retry loop of `internet_archive_wayback_downloader`. */
  function PollAvailability(net: Net, query: string, retries: int): (p: Poll)
    ensures p.requests <= if retries > 0 then retries else 0
    ensures p.response.None? <==> forall m | 0 <= m < retries :: net.get(query, m).Failed?
    ensures p.response.None? ==> p.requests == if retries > 0 then retries else 0
    ensures p.response.Some? ==>
              1 <= p.requests
              && p.response.value == net.get(query, p.requests - 1)
              && p.response.value.Response?
              && forall m | 0 <= m < p.requests - 1 :: net.get(query, m).Failed?
  {
    PollFrom(net, query, retries, 0)
  }

  /** The retry loop as the source writes it: a counted `for` loop that
      `break`s on the first request that does not raise. */
  method PollAvailabilityLoop(net: Net, query: string, retries: int) returns (response: Option<Reply>, requests: nat)
    ensures Poll(response, requests) == PollAvailability(net, query, retries)
    ensures requests <= if retries > 0 then retries else 0
  {
    response := None;
    requests := 0;
    while requests < retries
      invariant response.None?
      invariant requests <= if retries > 0 then retries else 0
      invariant PollFrom(net, query, retries, requests) == PollFrom(net, query, retries, 0)
      decreases retries - requests
    {
      var reply := net.get(query, requests);
      requests := requests + 1;
      if !reply.Failed? {
        response := Some(reply);
        break;
      }
    }
  }

  /** `response_json["archived_snapshots"]["closest"]["url"]`, one
      subscript: `KeyError` on a missing key of an object, `TypeError` when
      the value is not an object at all. */
  function Subscript(j: Json, key: string): (r: Result<Json>)
    ensures r.Ok? <==> j.JObject? && key in j.fields
    ensures r.Ok? ==> r.value == j.fields[key]
    ensures j.JObject? && key !in j.fields ==> r == Raise(KeyError(key))
    ensures !j.JObject? ==> r.Raise? && r.exc.TypeError?
  {
    match j
    case JObject(fields) => if key in fields then Ok(fields[key]) else Raise(KeyError(key))
    case JArray(_) => Raise(TypeError("list indices must be integers or slices, not str"))
    case JString(_) => Raise(TypeError("string indices must be integers"))
    case _ => Raise(TypeError("object is not subscriptable"))
  }

  /** True iff the nested snapshot lookup reaches a value. */
  predicate HasSnapshot(j: Json) {
    && j.JObject? && "archived_snapshots" in j.fields
    && var a := j.fields["archived_snapshots"];
    && a.JObject? && "closest" in a.fields
    && var c := a.fields["closest"];
    && c.JObject? && "url" in c.fields
  }

  /** One of the three keys is absent from the object at its level: the
      lookup stops there with `KeyError`. */
  predicate KeyMissing(j: Json) {
    && j.JObject?
    && ("archived_snapshots" !in j.fields
        || var a := j.fields["archived_snapshots"];
           && a.JObject?
           && ("closest" !in a.fields
               || var c := a.fields["closest"];
                  c.JObject? && "url" !in c.fields))
  }

  function SnapshotUrl(j: Json): (r: Result<Json>)
    ensures r.Ok? <==> HasSnapshot(j)
    ensures r.Ok? ==> r.value == j.fields["archived_snapshots"].fields["closest"].fields["url"]
    ensures r.Raise? ==> r.exc.KeyError? || r.exc.TypeError?
    ensures r.Raise? && r.exc.KeyError? <==> KeyMissing(j)
    ensures !j.JObject? ==> r.Raise? && r.exc.TypeError?
  {
    var snapshots :- Subscript(j, "archived_snapshots");
    var closest :- Subscript(snapshots, "closest");
    Subscript(closest, "url")
  }

  /** The part of `internet_archive_wayback_downloader` after a truthy
      availability reply: decode its JSON, look the snapshot URL up, and
      fetch the snapshot. A missing key becomes `DownloaderError`; a body
      that is not JSON raises `JSONDecodeError`, which is not caught. */
  function FromAvailabilityReply(url: string, reply: Reply, net: Net): (r: Result<Fetched>)
    requires reply.Response?
    ensures reply.json.None? ==> r == Raise(JsonDecodeError)
    ensures reply.json.Some? && SnapshotUrl(reply.json.value).Raise? && SnapshotUrl(reply.json.value).exc.KeyError?
            ==> r == Raise(DownloaderError(NoSnapshotMessage(url)))
    ensures reply.json.Some? && SnapshotUrl(reply.json.value).Raise? && !SnapshotUrl(reply.json.value).exc.KeyError?
            ==> r == Raise(SnapshotUrl(reply.json.value).exc)
    ensures reply.json.Some? && SnapshotUrl(reply.json.value).Ok? && SnapshotUrl(reply.json.value).value.JString?
            ==> var u := SnapshotUrl(reply.json.value).value.s;
                r == if net.get(u, 0).Response? then Ok(Fetched(u, net.get(u, 0).text))
                     else Raise(RequestException(net.get(u, 0).reason))
    ensures reply.json.Some? && SnapshotUrl(reply.json.value).Ok? && !SnapshotUrl(reply.json.value).value.JString?
            ==> r.Raise? && r.exc.RequestException?
    ensures reply.json.Some? && KeyMissing(reply.json.value)
            ==> r == Raise(DownloaderError(NoSnapshotMessage(url)))
    ensures IsDownloaderError(r) ==> r.exc.message == NoSnapshotMessage(url)
    ensures r.Ok? ==>
              && reply.json.Some?
              && HasSnapshot(reply.json.value)
              && SnapshotUrl(reply.json.value) == Ok(JString(r.value.resolved))
              && net.get(r.value.resolved, 0).Response?
              && r.value.content == net.get(r.value.resolved, 0).text
  {
    match reply.json
    case None => Raise(JsonDecodeError)
    case Some(document) =>
      match SnapshotUrl(document)
      case Raise(KeyError(_)) => Raise(DownloaderError(NoSnapshotMessage(url)))
      case Raise(e) => Raise(e)
      case Ok(JString(resourceUrl)) =>
        var content :- GetText(net, resourceUrl);
        Ok(Fetched(resourceUrl, content))
      case Ok(_) =>
        // requests.get(str(value)): the text has no http(s) scheme
        Raise(RequestException("Invalid URL: no scheme supplied"))
  }

  /** `internet_archive_wayback_downloader(url, retries=retries)`. */
  function InternetArchiveDownloader(url: string, retries: int, net: Net): (r: Result<Fetched>)
    ensures var p := PollAvailability(net, AVAILABILITY_PREFIX + url, retries);
            p.response.None? || !Truthy(p.response.value)
            ==> r == Raise(DownloaderError(CouldNotFetchMessage(AVAILABILITY_PREFIX + url)))
    ensures var p := PollAvailability(net, AVAILABILITY_PREFIX + url, retries);
            p.response.Some? && Truthy(p.response.value)
            ==> r == FromAvailabilityReply(url, p.response.value, net)
    ensures IsDownloaderError(r) ==>
              r.exc.message == CouldNotFetchMessage(AVAILABILITY_PREFIX + url)
              || r.exc.message == NoSnapshotMessage(url)
  {
    var query := AvailabilityUrl(url).value;
    var p := PollAvailability(net, query, retries);
    if p.response.None? || !Truthy(p.response.value) then
      Raise(DownloaderError(CouldNotFetchMessage(query)))
    else
      FromAvailabilityReply(url, p.response.value, net)
  }

  /** `default_downloader`: the URL itself, fetched directly. */
  function DirectDownloader(url: string, net: Net): (r: Result<Fetched>)
    ensures !IsDownloaderError(r)
    ensures r.Ok? <==> net.get(url, 0).Response?
    ensures r.Ok? ==> r.value.resolved == url && r.value.content == net.get(url, 0).text
    ensures net.get(url, 0).Failed? ==> r == Raise(RequestException(net.get(url, 0).reason))
  {
    var content :- GetText(net, url);
    Ok(Fetched(url, content))
  }

  /** Calling one downloader of the chain on a URL. */
  function Run(d: Downloader, url: string, net: Net): Result<Fetched> {
    match d
    case WaybackCdx => CdxDownloader(url, net)
    case InternetArchive(retries) => InternetArchiveDownloader(url, retries, net)
    case Direct => DirectDownloader(url, net)
  }

  /** Index of the first outcome of `outs` from `k` on that is not
      `DownloaderError`, or `|outs|` when there is none. */
  function FirstNonErrorIn(outs: seq<Result<Fetched>>, k: nat): (i: nat)
    requires k <= |outs|
    ensures k <= i <= |outs|
    ensures forall j | k <= j < i :: IsDownloaderError(outs[j])
    ensures i < |outs| ==> !IsDownloaderError(outs[i])
    decreases |outs| - k
  {
    if k == |outs| || !IsDownloaderError(outs[k]) then k
    else FirstNonErrorIn(outs, k + 1)
  }

  /** What each downloader of `ds` gives on `url`, in chain order. */
  function RunAll(url: string, ds: seq<Downloader>, net: Net): (outs: seq<Result<Fetched>>)
    ensures |outs| == |ds|
    ensures forall j | 0 <= j < |ds| :: outs[j] == Run(ds[j], url, net)
  {
    seq(|ds|, j requires 0 <= j < |ds| => Run(ds[j], url, net))
  }

  /** Index of the first downloader of `ds` that does not raise
      `DownloaderError` on `url`, or `|ds|` when there is none. */
  function FirstNonError(url: string, ds: seq<Downloader>, net: Net): (i: nat)
    ensures i <= |ds|
    ensures forall j | 0 <= j < i :: IsDownloaderError(Run(ds[j], url, net))
    ensures i < |ds| ==> !IsDownloaderError(Run(ds[i], url, net))
  {
    FirstNonErrorIn(RunAll(url, ds, net), 0)
  }

  /** `download_resource(url, downloaders=ds)`. */
  function DownloadResource(url: string, ds: seq<Downloader>, net: Net): (r: Result<Fetched>)
    ensures var i := FirstNonError(url, ds, net);
            r == if i < |ds| then Run(ds[i], url, net)
                 else Raise(DownloaderError(NoDownloaderMessage(url)))
    ensures IsDownloaderError(r) <==> forall j | 0 <= j < |ds| :: IsDownloaderError(Run(ds[j], url, net))
  {
    var i := FirstNonError(url, ds, net);
    if i < |ds| then Run(ds[i], url, net)
    else Raise(DownloaderError(NoDownloaderMessage(url)))
  }

  /** What each callable of `calls` gives on `url`, in order. */
  function Applied(url: string, calls: seq<string -> Result<Fetched>>): (outs: seq<Result<Fetched>>)
    ensures |outs| == |calls|
    ensures forall j | 0 <= j < |calls| :: outs[j] == calls[j](url)
  {
    seq(|calls|, j requires 0 <= j < |calls| => calls[j](url))
  }

  /** `download_resource` over any list of callables, each called with the
      URL in order: the first outcome other than `DownloaderError` is the
      result, and when every callable raises `DownloaderError` (or there is
      none) the chain raises its own. */
  function Chain(url: string, calls: seq<string -> Result<Fetched>>): (r: Result<Fetched>)
    ensures var i := FirstNonErrorIn(Applied(url, calls), 0);
            r == if i < |calls| then calls[i](url)
                 else Raise(DownloaderError(NoDownloaderMessage(url)))
    ensures forall i | 0 <= i < |calls| && !IsDownloaderError(calls[i](url))
                       && (forall j | 0 <= j < i :: IsDownloaderError(calls[j](url)))
              :: r == calls[i](url)
    ensures IsDownloaderError(r) <==> forall j | 0 <= j < |calls| :: IsDownloaderError(calls[j](url))
  {
    var outs := Applied(url, calls);
    var i := FirstNonErrorIn(outs, 0);
    FirstNonErrorInUnique(outs);
    if i < |calls| then calls[i](url)
    else Raise(DownloaderError(NoDownloaderMessage(url)))
  }

  /** Only one index can be the first without `DownloaderError`. */
  lemma FirstNonErrorInUnique(outs: seq<Result<Fetched>>)
    ensures forall i | 0 <= i < |outs| && !IsDownloaderError(outs[i])
                       && (forall j | 0 <= j < i :: IsDownloaderError(outs[j]))
              :: FirstNonErrorIn(outs, 0) == i
  {
  }

  /** The chain of the module's downloaders is the generic chain of the
      callables that run them. */
  lemma DownloadResourceIsChain(url: string, ds: seq<Downloader>, net: Net)
    ensures DownloadResource(url, ds, net)
            == Chain(url, seq(|ds|, i requires 0 <= i < |ds| => (u: string) => Run(ds[i], u, net)))
  {
    var calls := seq(|ds|, i requires 0 <= i < |ds| => (u: string) => Run(ds[i], u, net));
    assert Applied(url, calls) == RunAll(url, ds, net);
  }

  /** The first downloader index with another outcome than
      `DownloaderError` is unique. */
  lemma FirstNonErrorUnique(url: string, ds: seq<Downloader>, net: Net, i: nat)
    requires i <= |ds|
    requires forall j | 0 <= j < i :: IsDownloaderError(Run(ds[j], url, net))
    requires i < |ds| ==> !IsDownloaderError(Run(ds[i], url, net))
    ensures FirstNonError(url, ds, net) == i
  {
  }

  /** Downloaders after the one that returns (or raises something other than
      `DownloaderError`) are never consulted: any chain sharing the prefix up
      to that downloader gives the same result. */
  lemma LaterDownloadersNeverRun(url: string, ds: seq<Downloader>, other: seq<Downloader>, net: Net)
    requires FirstNonError(url, ds, net) < |ds|
    requires FirstNonError(url, ds, net) < |other|
    requires other[..FirstNonError(url, ds, net) + 1] == ds[..FirstNonError(url, ds, net) + 1]
    ensures DownloadResource(url, other, net) == DownloadResource(url, ds, net)
  {
    var i := FirstNonError(url, ds, net);
    forall j | 0 <= j <= i ensures other[j] == ds[j] {
      assert other[..i + 1][j] == ds[..i + 1][j];
    }
    FirstNonErrorUnique(url, other, net, i);
  }

  /** With the default chain, the Internet Archive answers unless it raises
      `DownloaderError`, in which case the direct fetch decides, and the
      terminal "No downloaders" error can never occur. */
  lemma DefaultChain(url: string, net: Net)
    ensures var ia := InternetArchiveDownloader(url, 3, net);
            DownloadResource(url, DOWNLOADERS, net)
            == if IsDownloaderError(ia) then DirectDownloader(url, net) else ia
    ensures !IsDownloaderError(DownloadResource(url, DOWNLOADERS, net))
  {
    var ia := InternetArchiveDownloader(url, 3, net);
    var outs := RunAll(url, DOWNLOADERS, net);
    assert outs[0] == ia && outs[1] == DirectDownloader(url, net);
    if IsDownloaderError(ia) {
      assert FirstNonErrorIn(outs, 1) == 1;
    }
  }
}
