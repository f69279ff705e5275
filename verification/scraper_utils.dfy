/** The helpers `scrape_article` is built from: the archive-URL lookup and
    the HTML cleaning. `fetch_html` is `requests.get(url).text`, that is
    `Web.GetText`. The memoisation of these helpers is invisible here: the
    model's functions are deterministic, so a cached answer and a fresh one
    coincide.
 */
module ScraperUtils {
  import opened Outcomes
  import opened Web
  import opened HtmlTree
  import Const
  import Downloader

  /** `get_alternate_url`: the newest archived snapshot, or the URL itself
      when the CDX index has no record of it. Other CDX failures escape. */
  function AlternateUrl(url: string, net: Net): (r: Result<string>)
    ensures net.newest(url).NoCdxRecord? ==> r == Ok(url)
    ensures net.newest(url).Newest? ==> r == Ok(net.newest(url).archiveUrl)
    ensures r.Raise? <==> net.newest(url).CdxFailed?
    ensures net.newest(url).CdxFailed? ==> r == Raise(CdxError(net.newest(url).reason))
  {
    match net.newest(url)
    case NoCdxRecord => Ok(url)
    case Newest(archiveUrl) => Ok(archiveUrl)
    case CdxFailed(reason) => Raise(CdxError(reason))
  }

  /** The CDX downloader and `get_alternate_url` ask the same question of
      the CDX index: the downloader gives up with `DownloaderError` exactly
      when the lookup falls back to the original URL for want of a record,
      and when the downloader succeeds it resolves to the same archive URL
      the lookup returns. */
  lemma CdxDownloaderAgreesWithAlternateUrl(url: string, net: Net)
    ensures IsDownloaderError(Downloader.CdxDownloader(url, net))
            ==> AlternateUrl(url, net) == Ok(url)
    ensures IsDownloaderError(Downloader.CdxDownloader(url, net))
            <==> net.newest(url).NoCdxRecord?
    ensures Downloader.CdxDownloader(url, net).Ok?
            ==> AlternateUrl(url, net) == Ok(Downloader.CdxDownloader(url, net).value.resolved)
  {
  }

  /** `clean_html(html)`, given the library's parse of `html`. After the
      tree is cleaned the source logs the size ratio `len(output) /
      len(html)`, which divides by zero on an empty input. */
  function CleanHtml(html: string, parse: string -> seq<Node>): (r: Result<seq<Node>>)
    ensures r.Ok? <==> |html| > 0
    ensures r.Raise? ==> r.exc == ZeroDivisionError
    ensures r.Ok? ==> NoTagIn(r.value, Const.HTML_TAG_IGNORE) && NoAttrIn(r.value, Const.HTML_ATTR_IGNORE)
    ensures r.Ok? ==> r.value == Clean(parse(html), Const.HTML_TAG_IGNORE, Const.HTML_ATTR_IGNORE)
  {
    var cleaned := Clean(parse(html), Const.HTML_TAG_IGNORE, Const.HTML_ATTR_IGNORE);
    if |html| == 0 then Raise(ZeroDivisionError) else Ok(cleaned)
  }
}
