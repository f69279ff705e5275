/** One article through the scraper: derive its id, expand the result
    paths, scrape it, and expand the markdown entry.

    Clock, file system and CSV writing are outside the model: the run's
    version stamp is a parameter, and the operations return what the source
    would write instead of writing it.
 */
module Scraper {
  import opened Outcomes
  import opened Web
  import opened HtmlTree
  import opened Template
  import Const
  import ScraperUtils

  /** What Goose extracts from an HTML text. */
  datatype Extracted = Extracted(title: string, content: string)

  /** The libraries the scraper leans on: BeautifulSoup's parser and
      `str(soup)`, and Goose's extraction. */
  datatype Libraries = Libraries(
    parse: string -> seq<Node>,
    serialise: seq<Node> -> string,
    extract: string -> Extracted)

  /** A value of the article dict: a string, or the cleaned soup. */
  datatype Value = Str(s: string) | Soup(nodes: seq<Node>)

  /** The three result paths `_init_files` returns. */
  datatype Paths = Paths(results: string, markdown: string, html: string)

  /** What `process_article` produces: the article dict it returns, the
      paths it writes to and the markdown entry it appends. */
  datatype Processed = Processed(article: map<string, Value>, paths: Paths, markdown: string)

  /** `article_url.replace("/", "_")`. */
  function ArticleId(url: string): (id: string)
    ensures |id| == |url|
    ensures '/' !in id
    ensures forall i | 0 <= i < |url| :: id[i] == if url[i] == '/' then '_' else url[i]
  {
    if |url| == 0 then ""
    else [if url[0] == '/' then '_' else url[0]] + ArticleId(url[1..])
  }

  /** Deriving the id twice gives the id: an id is its own id. */
  lemma ArticleIdIdempotent(url: string)
    ensures ArticleId(ArticleId(url)) == ArticleId(url)
  {
  }

  /** A URL is its own id exactly when it has no slash. */
  lemma ArticleIdFixpoint(url: string)
    ensures ArticleId(url) == url <==> '/' !in url
  {
    if '/' !in url {
      assert forall i | 0 <= i < |url| :: url[i] != '/';
    }
  }

  /** `scrape_article(url)`: look up the alternate URL, fetch and clean its
      HTML, extract title and content, and assemble the article dict. */
  function ScrapeArticle(url: string, net: Net, libs: Libraries): (r: Result<map<string, Value>>)
    ensures ScraperUtils.AlternateUrl(url, net).Raise? ==> r == Raise(ScraperUtils.AlternateUrl(url, net).exc)
    ensures r.Ok? <==>
              && ScraperUtils.AlternateUrl(url, net).Ok?
              && GetText(net, ScraperUtils.AlternateUrl(url, net).value).Ok?
              && |GetText(net, ScraperUtils.AlternateUrl(url, net).value).value| > 0
    ensures ScraperUtils.AlternateUrl(url, net).Ok? && GetText(net, ScraperUtils.AlternateUrl(url, net).value).Raise?
            ==> r == Raise(GetText(net, ScraperUtils.AlternateUrl(url, net).value).exc)
    ensures ScraperUtils.AlternateUrl(url, net).Ok? && GetText(net, ScraperUtils.AlternateUrl(url, net).value) == Ok("")
            ==> r == Raise(ZeroDivisionError)
    ensures r.Ok? ==>
              var text := GetText(net, ScraperUtils.AlternateUrl(url, net).value).value;
              var cleaned := Clean(libs.parse(text), Const.HTML_TAG_IGNORE, Const.HTML_ATTR_IGNORE);
              var data := libs.extract(libs.serialise(cleaned));
              && "html" in r.value && r.value["html"] == Soup(cleaned)
              && "title" in r.value && r.value["title"] == Str(data.title)
              && "content" in r.value && r.value["content"] == Str(data.content)
    ensures r.Ok? ==>
              && r.value.Keys == {"url", "alternate_url", "html", "title", "content"}
              && r.value["url"] == Str(url)
              && ScraperUtils.AlternateUrl(url, net).Ok?
              && r.value["alternate_url"] == Str(ScraperUtils.AlternateUrl(url, net).value)
              && r.value["html"].Soup?
              && NoTagIn(r.value["html"].nodes, Const.HTML_TAG_IGNORE)
              && NoAttrIn(r.value["html"].nodes, Const.HTML_ATTR_IGNORE)
    ensures r.Ok? ==> r.value["title"].Str? && r.value["content"].Str?
  {
    var alternateUrl :- ScraperUtils.AlternateUrl(url, net);
    var html :- GetText(net, alternateUrl);
    var cleaned :- ScraperUtils.CleanHtml(html, libs.parse);
    var data := libs.extract(libs.serialise(cleaned));
    Ok(map[
      "url" := Str(url),
      "alternate_url" := Str(alternateUrl),
      "html" := Soup(cleaned),
      "title" := Str(data.title),
      "content" := Str(data.content)])
  }

  /** The keyword arguments `format(**article)` sees: every value as
      `str()` renders it. */
  function FormatArgs(article: map<string, Value>, libs: Libraries): (args: map<string, string>)
    ensures args.Keys == article.Keys
    ensures forall k | k in article && article[k].Str? :: args[k] == article[k].s
  {
    map k | k in article :: match article[k] case Str(s) => s case Soup(ns) => libs.serialise(ns)
  }

  // ---------------------------------------------------------------------
  // Result paths

  lemma ResultTemplatesSplit()
    ensures Const.RESULT_FILENAME == "results/" + ("{" + "version" + "}" + "/results.csv")
    ensures Const.RESULT_MD_FILENAME == "results/" + ("{" + "version" + "}" + ("/md/" + ("{" + "url" + "}" + ".md")))
    ensures Const.RESULT_HTML_FILENAME == "results/" + ("{" + "version" + "}" + ("/html/" + ("{" + "url" + "}" + ".html")))
  {
  }

  /** `f"{RESULT_DIR}/md/{{url}}.md"` and its HTML twin: the literal part of
      each f-string, its doubled braces read as single ones, is what the
      constant holds after `RESULT_DIR`. */
  lemma ResultPathsFromFStrings()
    ensures var f := Format("/md/" + ("{{" + "url" + "}}") + ".md", map[]);
            f.Ok? && Const.RESULT_MD_FILENAME == Const.RESULT_DIR + f.value
    ensures var f := Format("/html/" + ("{{" + "url" + "}}") + ".html", map[]);
            f.Ok? && Const.RESULT_HTML_FILENAME == Const.RESULT_DIR + f.value
  {
    ResultFragmentsLiteral();
    UnescapePath("/md/", ".md");
    UnescapePath("/html/", ".html");
    ResultPathsSplit();
  }

  lemma ResultPathsSplit()
    ensures Const.RESULT_MD_FILENAME == Const.RESULT_DIR + ("/md/" + ("{" + "url" + "}") + ".md")
    ensures Const.RESULT_HTML_FILENAME == Const.RESULT_DIR + ("/html/" + ("{" + "url" + "}") + ".html")
  {
  }

  /** A path fragment around a `{url}` field, with the field's braces
      doubled, formats to the fragment with single braces. */
  lemma UnescapePath(dir: string, ext: string)
    requires NoBraces(dir) && NoBraces(ext)
    ensures Format(dir + ("{{" + "url" + "}}") + ext, map[]) == Ok(dir + ("{" + "url" + "}") + ext)
  {
    EscapeField("url");
    var t := dir + ("{" + "url" + "}") + ext;
    EscapeConcat(dir + ("{" + "url" + "}"), ext);
    EscapeConcat(dir, "{" + "url" + "}");
    EscapePlain(dir);
    EscapePlain(ext);
    EscapeRoundTrip(t, map[]);
  }

  lemma ResultFragmentsLiteral()
    ensures NoBraces("results/") && NoBraces("/results.csv")
    ensures NoBraces("/md/") && NoBraces(".md") && NoBraces("/html/") && NoBraces(".html")
  {
  }

  /** The CSV path needs only the version. */
  lemma ResultFilenameExpands(args: map<string, string>)
    requires "version" in args
    ensures Format(Const.RESULT_FILENAME, args) == Ok("results/" + args["version"] + "/results.csv")
  {
    ResultTemplatesSplit();
    ResultFragmentsLiteral();
    FormatLiteralField("results/", "version", "/results.csv", args);
    LiteralTemplate("/results.csv", args);
  }

  /** The markdown and HTML paths both need the version AND `url`;
      without `url` they raise `KeyError('url')`. */
  lemma PerArticlePathExpands(args: map<string, string>, dir: string, ext: string, template: string)
    requires "version" in args
    requires NoBraces(dir) && NoBraces(ext)
    requires template == "results/" + ("{" + "version" + "}" + (dir + ("{" + "url" + "}" + ext)))
    ensures Format(template, args)
         == if "url" in args then Ok("results/" + args["version"] + dir + args["url"] + ext)
            else Raise(KeyError("url"))
  {
    ResultFragmentsLiteral();
    FormatLiteralField("results/", "version", dir + ("{" + "url" + "}" + ext), args);
    FormatLiteralField(dir, "url", ext, args);
    LiteralTemplate(ext, args);
    if "url" in args {
      var v, u := args["version"], args["url"];
      assert ("results/" + v) + ((dir + u) + ext) == "results/" + v + dir + u + ext;
    }
  }

  /** `_init_files(version, id)` as written: the markdown path is expanded
      with the version only. Directory creation is left out. The template
      makes the call always raise (`InitFilesAlwaysRaises`), so the clause
      about a returned value only says what a call that got past the
      markdown path would give: the corrected paths. */
  function InitFiles(version: string, id: string): (r: Result<Paths>)
    ensures r.Raise? ==> r.exc == KeyError("url")
    ensures r.Ok? ==> r.value == InitFilesFixed(version, id)
  {
    ResultTemplatesSplit();
    ResultFilenameExpands(map["version" := version]);
    PerArticlePathExpands(map["version" := version], "/md/", ".md", Const.RESULT_MD_FILENAME);
    match Format(Const.RESULT_FILENAME, map["version" := version])
    case Raise(e) => Raise(e)
    case Ok(results) =>
      match Format(Const.RESULT_MD_FILENAME, map["version" := version])
      case Raise(e) => Raise(e)
      case Ok(markdown) =>
        match Format(Const.RESULT_HTML_FILENAME, map["version" := version, "url" := id])
        case Raise(e) => Raise(e)
        case Ok(html) => Ok(Paths(results, markdown, html))
  }

  /** As written, `_init_files` raises `KeyError('url')` for every version
      and id: the markdown path template still holds `{url}`. */
  lemma InitFilesAlwaysRaises(version: string, id: string)
    ensures InitFiles(version, id) == Raise(KeyError("url"))
  {
    ResultTemplatesSplit();
    ResultFilenameExpands(map["version" := version]);
    PerArticlePathExpands(map["version" := version], "/md/", ".md", Const.RESULT_MD_FILENAME);
  }

  /** `_init_files` with the article id passed for `url` in the markdown
      path too, as it is for the HTML path. */
  function InitFilesFixed(version: string, id: string): (p: Paths)
    ensures p.results == "results/" + version + "/results.csv"
    ensures p.markdown == "results/" + version + "/md/" + id + ".md"
    ensures p.html == "results/" + version + "/html/" + id + ".html"
  {
    var args := map["version" := version, "url" := id];
    ResultTemplatesSplit();
    ResultFilenameExpands(args);
    PerArticlePathExpands(args, "/md/", ".md", Const.RESULT_MD_FILENAME);
    PerArticlePathExpands(args, "/html/", ".html", Const.RESULT_HTML_FILENAME);
    Paths(
      Format(Const.RESULT_FILENAME, args).value,
      Format(Const.RESULT_MD_FILENAME, args).value,
      Format(Const.RESULT_HTML_FILENAME, args).value)
  }

  // ---------------------------------------------------------------------
  // Markdown entry

  /** `MD_FORMAT` with its third field naming the key the article dict
      actually has for the fetched URL. */
  const MD_FORMAT_FIXED := MarkdownTemplate("alternate_url")

  lemma MarkdownFragmentsLiteral()
    ensures NoBraces("# ") && NoBraces("\n\n[URL](") && NoBraces(") ([Fetched URL](")
    ensures NoBraces("))\n\n") && NoBraces("\n\n")
  {
  }

  /** The markdown template with `fetched` as the name of its third field. */
  function MarkdownTemplate(fetched: string): string {
    "# " + ("{" + "title" + "}" + ("\n\n[URL](" + ("{" + "url" + "}" + (") ([Fetched URL](" + ("{" + fetched + "}" + ("))\n\n" + ("{" + "content" + "}" + "\n\n")))))))
  }

  lemma MarkdownFormatSplits()
    ensures Const.MD_FORMAT == MarkdownTemplate("used_url")
  {
  }

  /** Expanding the markdown template: title, URL, fetched URL and content
      in their places, or `KeyError` for the first of them that is missing. */
  lemma MarkdownExpands(fetched: string, args: map<string, string>)
    requires fetched != "" && NoBraces(fetched)
    requires "title" in args && "url" in args
    ensures fetched !in args ==> Format(MarkdownTemplate(fetched), args) == Raise(KeyError(fetched))
    ensures fetched in args && "content" in args ==>
              Format(MarkdownTemplate(fetched), args)
              == Ok("# " + args["title"] + "\n\n[URL](" + args["url"] + ") ([Fetched URL](" + args[fetched]
                    + "))\n\n" + args["content"] + "\n\n")
  {
    MarkdownFragmentsLiteral();
    var t3 := "))\n\n" + ("{" + "content" + "}" + "\n\n");
    var t2 := ") ([Fetched URL](" + ("{" + fetched + "}" + t3);
    var t1 := "\n\n[URL](" + ("{" + "url" + "}" + t2);
    FormatLiteralField("# ", "title", t1, args);
    FormatLiteralField("\n\n[URL](", "url", t2, args);
    FormatLiteralField(") ([Fetched URL](", fetched, t3, args);
    FormatLiteralField("))\n\n", "content", "\n\n", args);
    LiteralTemplate("\n\n", args);
    if fetched in args && "content" in args {
      var a, b, c, d := args["title"], args["url"], args[fetched], args["content"];
      assert ("# " + a) + (("\n\n[URL](" + b) + ((") ([Fetched URL](" + c) + (("))\n\n" + d) + "\n\n")))
          == "# " + a + "\n\n[URL](" + b + ") ([Fetched URL](" + c + "))\n\n" + d + "\n\n";
    }
  }

  /** The article dict `process_article` formats: the scraped dict plus the
      id. */
  function ArticleWithId(url: string, scraped: map<string, Value>): (article: map<string, Value>)
    ensures article.Keys == scraped.Keys + {"id"}
    ensures article["id"] == Str(ArticleId(url))
    ensures forall k | k in scraped && k != "id" :: article[k] == scraped[k]
  {
    scraped["id" := Str(ArticleId(url))]
  }

  /** `MD_FORMAT.format(**article_data)` as written. */
  function MarkdownEntry(article: map<string, Value>, libs: Libraries): (r: Result<string>)
    ensures "title" in article && "url" in article && "used_url" !in article
            ==> r == Raise(KeyError("used_url"))
    ensures && "title" in article && article["title"].Str?
            && "url" in article && article["url"].Str?
            && "used_url" in article && article["used_url"].Str?
            && "content" in article && article["content"].Str?
            ==> r == Ok("# " + article["title"].s + "\n\n[URL](" + article["url"].s + ") ([Fetched URL]("
                        + article["used_url"].s + "))\n\n" + article["content"].s + "\n\n")
  {
    var args := FormatArgs(article, libs);
    if "title" in args && "url" in args then
      MarkdownFormatSplits();
      MarkdownExpands("used_url", args);
      Format(Const.MD_FORMAT, args)
    else
      Format(Const.MD_FORMAT, args)
  }

  /** `MD_FORMAT` needs `used_url`. */
  lemma MarkdownFormatNeedsUsedUrl(args: map<string, string>)
    requires "title" in args && "url" in args && "used_url" !in args
    ensures Format(Const.MD_FORMAT, args) == Raise(KeyError("used_url"))
  {
    MarkdownFormatSplits();
    MarkdownExpands("used_url", args);
  }

  /** The corrected template fills in every field of a scraped article. */
  lemma MarkdownFormatFixedExpands(args: map<string, string>)
    requires "title" in args && "url" in args && "alternate_url" in args && "content" in args
    ensures Format(MD_FORMAT_FIXED, args)
            == Ok("# " + args["title"] + "\n\n[URL](" + args["url"] + ") ([Fetched URL](" + args["alternate_url"]
                  + "))\n\n" + args["content"] + "\n\n")
  {
    MarkdownExpands("alternate_url", args);
  }

  /** As written, the markdown entry of every scraped article raises
      `KeyError('used_url')`: no key of the article dict is `used_url`. */
  lemma MarkdownEntryRaises(url: string, net: Net, libs: Libraries)
    requires ScrapeArticle(url, net, libs).Ok?
    ensures MarkdownEntry(ArticleWithId(url, ScrapeArticle(url, net, libs).value), libs)
            == Raise(KeyError("used_url"))
  {
  }

  /** The markdown entry with the fetched URL taken from `alternate_url`. */
  function MarkdownEntryFixed(url: string, net: Net, libs: Libraries): (r: Result<string>)
    ensures r.Ok? <==> ScrapeArticle(url, net, libs).Ok?
    ensures r.Raise? ==> r == Raise(ScrapeArticle(url, net, libs).exc)
    ensures r.Ok? ==>
              var scraped := ScrapeArticle(url, net, libs).value;
              r.value == "# " + scraped["title"].s + "\n\n[URL](" + url + ") ([Fetched URL]("
                         + ScraperUtils.AlternateUrl(url, net).value + "))\n\n" + scraped["content"].s + "\n\n"
  {
    match ScrapeArticle(url, net, libs)
    case Raise(e) => Raise(e)
    case Ok(scraped) =>
      var args := FormatArgs(ArticleWithId(url, scraped), libs);
      MarkdownFormatFixedExpands(args);
      Format(MD_FORMAT_FIXED, args)
  }

  // ---------------------------------------------------------------------
  // process_article

  /** `process_article(article_url)` as written, with the version stamp as
      a parameter. The result paths are expanded before anything is
      scraped. As written it never returns (`ProcessArticleAlwaysRaises`);
      the clause about a returned value says that nothing but the two
      template expansions separates it from `ProcessArticleFixed`. */
  function ProcessArticle(url: string, version: string, net: Net, libs: Libraries): (r: Result<Processed>)
    ensures InitFiles(version, ArticleId(url)).Raise?
            ==> r == Raise(InitFiles(version, ArticleId(url)).exc)
    ensures r.Ok? ==> r == ProcessArticleFixed(url, version, net, libs)
  {
    match InitFiles(version, ArticleId(url))
    case Raise(e) => Raise(e)
    case Ok(paths) =>
      match ScrapeArticle(url, net, libs)
      case Raise(e) => Raise(e)
      case Ok(scraped) =>
        var article := ArticleWithId(url, scraped);
        MarkdownEntryRaises(url, net, libs);
        match MarkdownEntry(article, libs)
        case Raise(e) => Raise(e)
        case Ok(markdown) => Ok(Processed(article, paths, markdown))
  }

  /** As written, `process_article` raises `KeyError('url')` for every
      article, before scraping anything. */
  lemma ProcessArticleAlwaysRaises(url: string, version: string, net: Net, libs: Libraries)
    ensures ProcessArticle(url, version, net, libs) == Raise(KeyError("url"))
  {
    InitFilesAlwaysRaises(version, ArticleId(url));
  }

  /** `process_article` with both template expansions corrected, and with
      the run's `md` directory taken to exist (`_init_files` creates only
      the CSV's parent and the `html` directory). It fails exactly when
      scraping fails, with the scraper's exception, and otherwise returns
      the scraped dict with its id and the paths keyed by that id. */
  function ProcessArticleFixed(url: string, version: string, net: Net, libs: Libraries): (r: Result<Processed>)
    ensures r.Ok? <==> ScrapeArticle(url, net, libs).Ok?
    ensures r.Raise? ==> r == Raise(ScrapeArticle(url, net, libs).exc)
    ensures r.Ok? ==> r.value.article == ArticleWithId(url, ScrapeArticle(url, net, libs).value)
    ensures r.Ok? ==>
              && r.value.article.Keys == {"url", "alternate_url", "html", "title", "content", "id"}
              && r.value.article["id"] == Str(ArticleId(url))
              && r.value.article["url"] == Str(url)
              && r.value.paths.results == "results/" + version + "/results.csv"
              && r.value.paths.markdown == "results/" + version + "/md/" + ArticleId(url) + ".md"
              && r.value.paths.html == "results/" + version + "/html/" + ArticleId(url) + ".html"
              && r.value.markdown == MarkdownEntryFixed(url, net, libs).value
  {
    var id := ArticleId(url);
    var paths := InitFilesFixed(version, id);
    match ScrapeArticle(url, net, libs)
    case Raise(e) => Raise(e)
    case Ok(scraped) =>
      Ok(Processed(ArticleWithId(url, scraped), paths, MarkdownEntryFixed(url, net, libs).value))
  }
}
