/** `compute_metrics_for_articles`: score one manual/scraped text pair,
    append a row describing it to the results table, and return the
    combined score.

    Python's `table.append` mutates the caller's list; here the extended
    table is returned next to the score. The n-gram similarity and the
    cosine similarity come from libraries and are parameters; the edit
    distance is `Metrics.Lev`. */
module MetricsCompute {
  import opened Outcomes
  import opened Metrics

  /** Combined scores at or above this mark a row with `X`. */
  const THRESHOLD: real := 0.95

  /** One cell of the results table. The edit column holds the distance and
      the score; the source renders them as text with two decimals. */
  datatype Cell =
    | IntCell(i: int)
    | TextCell(text: string)
    | RealCell(x: real)
    | EditCell(distance: nat, score: real)

  type Row = seq<Cell>

  /** The combined score and the table with the new row appended. */
  datatype Computed = Computed(average: real, table: seq<Row>)

  /** The n-gram size: `n_title` for titles, `n_text` for anything else. */
  function NgramSize(articleType: string, nTitle: int, nText: int): (n: int)
    ensures articleType == "Title" ==> n == nTitle
    ensures articleType != "Title" ==> n == nText
  {
    if articleType == "Title" then nTitle else nText
  }

  /** `"X" if avg_similarity >= threshold else "-"`. */
  function Mark(average: real): (m: string)
    ensures m == "X" <==> average >= THRESHOLD
    ensures m == "-" <==> average < THRESHOLD
  {
    if average >= THRESHOLD then "X" else "-"
  }

  /** `compute_metrics_for_articles(table, article_number, journal,
      article_type, manual, scraped, n_title, n_text)`. `ngram` stands for
      `NGram.compare(manual, scraped, N=n)` and `cosine` for `cosine_sim`;
      each is called once and may raise. */
  function ComputeMetrics(
    table: seq<Row>, articleNumber: int, journal: string, articleType: string,
    manual: string, scraped: string, nTitle: int, nText: int,
    ngram: (string, string, int) -> Result<real>,
    cosine: (string, string) -> Result<real>): (r: Result<Computed>)
    ensures r.Ok? <==>
              && ngram(manual, scraped, NgramSize(articleType, nTitle, nText)).Ok?
              && (manual != "" || scraped != "")
              && cosine(manual, scraped).Ok?
    ensures ngram(manual, scraped, NgramSize(articleType, nTitle, nText)).Raise? ==>
              r == Raise(ngram(manual, scraped, NgramSize(articleType, nTitle, nText)).exc)
    ensures ngram(manual, scraped, NgramSize(articleType, nTitle, nText)).Ok? && manual == "" && scraped == "" ==>
              r == Raise(ZeroDivisionError)
    ensures (ngram(manual, scraped, NgramSize(articleType, nTitle, nText)).Ok? && (manual != "" || scraped != "")
             && cosine(manual, scraped).Raise?) ==>
              r == Raise(cosine(manual, scraped).exc)
    ensures r.Ok? ==>
              var ng := ngram(manual, scraped, NgramSize(articleType, nTitle, nText)).value;
              var es := EditScore(manual, scraped).value;
              && |r.value.table| == |table| + 1
              && r.value.table[..|table|] == table
              && r.value.average == (ng + es) / 2.0
              && var row := r.value.table[|table|];
              && |row| == 7
              && row[0] == IntCell(articleNumber)
              && row[1] == TextCell(journal)
              && row[2] == TextCell(articleType)
              && row[3] == RealCell(ng)
              && row[4] == EditCell(Lev(manual, scraped), es)
              && row[5] == RealCell(r.value.average)
              && (row[6] == TextCell("X") <==> r.value.average >= THRESHOLD)
              && (row[6] == TextCell("-") <==> r.value.average < THRESHOLD)
  {
    var ngramSimilarity :- ngram(manual, scraped, NgramSize(articleType, nTitle, nText));
    var editDist := Lev(manual, scraped);
    var editSim :- EditScore(manual, scraped);
    var cosSim :- cosine(manual, scraped);
    var average := (ngramSimilarity + editSim) / 2.0;
    var row := [IntCell(articleNumber), TextCell(journal), TextCell(articleType),
                RealCell(ngramSimilarity), EditCell(editDist, editSim),
                RealCell(average), TextCell(Mark(average))];
    assert (table + [row])[..|table|] == table;
    Ok(Computed(average, table + [row]))
  }

  /** The cosine similarity is computed but unused: any two cosine results
      that both succeed lead to the same score and the same row. */
  lemma CosineIgnored(
    table: seq<Row>, articleNumber: int, journal: string, articleType: string,
    manual: string, scraped: string, nTitle: int, nText: int,
    ngram: (string, string, int) -> Result<real>,
    cosine: (string, string) -> Result<real>, other: (string, string) -> Result<real>)
    requires cosine(manual, scraped).Ok? && other(manual, scraped).Ok?
    ensures ComputeMetrics(table, articleNumber, journal, articleType, manual, scraped, nTitle, nText, ngram, cosine)
         == ComputeMetrics(table, articleNumber, journal, articleType, manual, scraped, nTitle, nText, ngram, other)
  {
  }

  /** With an n-gram similarity in [0, 1] the combined score is in [0, 1]
      too. */
  lemma AverageBounded(
    table: seq<Row>, articleNumber: int, journal: string, articleType: string,
    manual: string, scraped: string, nTitle: int, nText: int,
    ngram: (string, string, int) -> Result<real>,
    cosine: (string, string) -> Result<real>)
    requires var g := ngram(manual, scraped, NgramSize(articleType, nTitle, nText));
             g.Ok? ==> 0.0 <= g.value <= 1.0
    ensures var r := ComputeMetrics(table, articleNumber, journal, articleType, manual, scraped, nTitle, nText, ngram, cosine);
            r.Ok? ==> 0.0 <= r.value.average <= 1.0
  {
  }

  /** A scraped text identical to a non-empty manual one, with a perfect
      n-gram score, is always marked as a match. */
  lemma IdenticalTextsMatch(
    table: seq<Row>, articleNumber: int, journal: string, articleType: string,
    text: string, nTitle: int, nText: int,
    ngram: (string, string, int) -> Result<real>,
    cosine: (string, string) -> Result<real>)
    requires text != ""
    requires ngram(text, text, NgramSize(articleType, nTitle, nText)) == Ok(1.0)
    requires cosine(text, text).Ok?
    ensures var r := ComputeMetrics(table, articleNumber, journal, articleType, text, text, nTitle, nText, ngram, cosine);
            r.Ok? && r.value.average == 1.0 && r.value.table[|table|][6] == TextCell("X")
  {
  }
}
