/** `get_journal_name`: the publication's name taken from the host part of
    an article URL. The host (`urlparse(url).netloc`) is the input here;
    URL parsing belongs to the standard library and is not modelled. */
module Journal {
  import opened Strings

  /** Suffixes after which the name is the third-to-last label. The
      one-label entries can never match; see `SingleLabelSuffixesNeverMatch`. */
  const SECOND_LEVEL_DOMAINS: seq<string> := ["com.cn", "co.uk", "org.cn", "net.cn", "fr", "de", "es"]

  /** The last two labels of a host with at least two, joined by a dot. */
  function Suffix(labels: seq<string>): string
    requires |labels| >= 2
  {
    Join(labels[|labels| - 2..], '.')
  }

  /** The journal name of a host. */
  function JournalName(netloc: string): (name: string)
    ensures name in Split(netloc, '.')
    ensures '.' !in name
    ensures '.' !in netloc ==> name == netloc
  {
    var labels := Split(netloc, '.');
    var n := |labels|;
    assert '.' !in netloc ==> labels == [netloc] by {
      if '.' !in netloc {
        SplitNoSeparator(netloc, '.');
      }
    }
    if n > 2 && Suffix(labels) in SECOND_LEVEL_DOMAINS then labels[n - 3]
    else if n > 2 then labels[n - 2]
    else labels[0]
  }

  /** The three outcomes, stated over the labels of the host: a listed
      two-label suffix selects the label before it, any other host with
      three or more labels selects the second-to-last, and a host with one
      or two labels selects the first. */
  lemma JournalNameByLabels(labels: seq<string>)
    requires |labels| >= 1
    requires forall i | 0 <= i < |labels| :: '.' !in labels[i]
    ensures var n := |labels|; var name := JournalName(Join(labels, '.'));
      && (n > 2 && Suffix(labels) in SECOND_LEVEL_DOMAINS ==> name == labels[n - 3])
      && (n > 2 && Suffix(labels) !in SECOND_LEVEL_DOMAINS ==> name == labels[n - 2])
      && (n <= 2 ==> name == labels[0])
  {
    SplitJoin(labels, '.');
  }

  /** `fr`, `de` and `es` contain no dot, while the suffix the code looks
      up always does, so hosts under those country domains fall through to
      the second-to-last label like any other. */
  lemma SingleLabelSuffixesNeverMatch(netloc: string)
    ensures var labels := Split(netloc, '.');
      |labels| > 2 ==> Suffix(labels) !in ["fr", "de", "es"]
  {
    var labels := Split(netloc, '.');
    if |labels| > 2 {
      JoinHasSeparator(labels[|labels| - 2..], '.');
    }
  }

  /** A host under a listed two-label suffix: `www.bbc.co.uk` gives `bbc`. */
  lemma BbcExample()
    ensures JournalName("www.bbc.co.uk") == "bbc"
  {
    var labels := ["www", "bbc", "co", "uk"];
    assert Join(labels, '.') == "www.bbc.co.uk";
    JournalNameByLabels(labels);
    assert labels[2..] == ["co", "uk"];
    assert Join(labels[2..], '.') == "co.uk";
  }

  /** A host under a one-label country domain: `www.lemonde.fr` gives
      `lemonde` through the second-to-last-label branch. */
  lemma LemondeExample()
    ensures JournalName("www.lemonde.fr") == "lemonde"
  {
    var labels := ["www", "lemonde", "fr"];
    assert Join(labels, '.') == "www.lemonde.fr";
    JournalNameByLabels(labels);
    assert labels[1..] == ["lemonde", "fr"];
    assert Join(labels[1..], '.') == "lemonde.fr";
  }

  /** A two-label host gives its first label: `example.com` gives `example`. */
  lemma TwoLabelExample()
    ensures JournalName("example.com") == "example"
  {
    var labels := ["example", "com"];
    assert Join(labels, '.') == "example.com";
    JournalNameByLabels(labels);
  }
}
