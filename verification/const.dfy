/** The scraper's configuration constants. */
module Const {

  /** Tags `clean_html` deletes together with their whole subtree. */
  const HTML_TAG_IGNORE: seq<string> := ["script", "style", "img", "figure", "svg", "a", "button", "link"]

  /** Attributes `clean_html` strips from every element it keeps. */
  const HTML_ATTR_IGNORE: seq<string> := ["style"]

  /** The markdown entry written per article. One literal in the source,
      written here in fragments split at its replacement fields. */
  const MD_FORMAT := "# " + "{title}" + "\n\n[URL](" + "{url}" + ") ([Fetched URL](" + "{used_url}" + "))\n\n" + "{content}" + "\n\n"

  /** Result paths. The last three are f-strings over RESULT_DIR in the
      source; `{{url}}` in an f-string leaves the field `{url}` behind. */
  const RESULT_DIR := "results/{version}"
  const RESULT_FILENAME := RESULT_DIR + "/results.csv"
  const RESULT_MD_FILENAME := RESULT_DIR + "/md/{url}.md"
  const RESULT_HTML_FILENAME := RESULT_DIR + "/html/{url}.html"
}
