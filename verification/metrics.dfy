/** The two text-similarity scores of `similarity/metrics.py`: Jaccard
    similarity of the whitespace-separated token sets, and an edit score
    normalised from the Levenshtein distance. Ratios are exact reals; the
    float rounding of the source is not modelled. */
module Metrics {
  import opened Outcomes
  import opened Strings

  /** `set(text.split())`. */
  function Tokens(text: string): (ts: set<string>)
    ensures forall w | w in ts :: w != "" && NoSpace(w)
  {
    set i | 0 <= i < |Words(text)| :: Words(text)[i]
  }

  /** A subset with as many elements as its superset is the superset. */
  lemma SubsetCard<T>(x: set<T>, y: set<T>)
    requires x <= y
    ensures |x| <= |y|
    ensures |x| == |y| ==> x == y
  {
    assert y == x + (y - x);
    assert x * (y - x) == {};
  }

  /** A ratio of two counts, the smaller over the larger, lies in [0, 1],
      is 1 exactly when they are equal and 0 exactly when the smaller is 0. */
  lemma Ratio(x: nat, y: nat)
    requires 0 < y && x <= y
    ensures 0.0 <= x as real / y as real <= 1.0
    ensures x as real / y as real == 1.0 <==> x == y
    ensures x as real / y as real == 0.0 <==> x == 0
  {
    var q := x as real / y as real;
    assert q * y as real == x as real;
  }

  /** `jaccard_similarity`: shared tokens over all tokens. Two texts without
      any token divide zero by zero. */
  function Jaccard(text1: string, text2: string): (r: Result<real>)
    ensures r.Raise? <==> Tokens(text1) == {} && Tokens(text2) == {}
    ensures r.Raise? ==> r.exc == ZeroDivisionError
    ensures r.Ok? ==> 0.0 <= r.value <= 1.0
    ensures r.Ok? ==> (r.value == 1.0 <==> Tokens(text1) == Tokens(text2))
    ensures r.Ok? ==> (r.value == 0.0 <==> Tokens(text1) !! Tokens(text2))
    ensures r.Ok? ==> r.value * |Tokens(text1) + Tokens(text2)| as real == |Tokens(text1) * Tokens(text2)| as real
  {
    var a, b := Tokens(text1), Tokens(text2);
    if |a + b| == 0 then Raise(ZeroDivisionError)
    else
      SubsetCard(a * b, a + b);
      Ratio(|a * b|, |a + b|);
      assert |a * b| == 0 <==> a !! b by {
        if a !! b {
          assert a * b == {};
        } else {
          var w :| w in a && w in b;
          assert w in a * b;
        }
      }
      assert a == b ==> a * b == a + b;
      assert |a * b| == |a + b| ==> a == b by {
        if |a * b| == |a + b| {
          assert forall w | w in a :: w in a * b;
          assert forall w | w in b :: w in a * b;
        }
      }
      Ok(|a * b| as real / |a + b| as real)
  }

  /** Jaccard similarity does not depend on the order of its arguments. */
  lemma JaccardSymmetric(text1: string, text2: string)
    ensures Jaccard(text1, text2) == Jaccard(text2, text1)
  {
    var a, b := Tokens(text1), Tokens(text2);
    assert a * b == b * a && a + b == b + a;
  }

  /** Only the set of tokens counts: repeating or reordering words leaves
      the score unchanged. */
  lemma JaccardSeesTokenSets(text1: string, text2: string, other1: string, other2: string)
    requires Tokens(text1) == Tokens(other1) && Tokens(text2) == Tokens(other2)
    ensures Jaccard(text1, text2) == Jaccard(other1, other2)
  {
  }

  /** The tokens of words joined with single spaces are those words. */
  lemma TokensOfUnwords(ws: seq<string>)
    requires |ws| >= 1
    requires forall i | 0 <= i < |ws| :: ws[i] != "" && NoSpace(ws[i])
    ensures Tokens(Unwords(ws)) == set i | 0 <= i < |ws| :: ws[i]
  {
    WordsUnwords(ws);
  }

  function Min3(a: nat, b: nat, c: nat): (m: nat)
    ensures m <= a && m <= b && m <= c
    ensures m == a || m == b || m == c
  {
    if a <= b && a <= c then a else if b <= c then b else c
  }

  /** The Levenshtein distance `editdistance.eval` returns: the fewest
      one-character insertions, deletions and substitutions from `a` to `b`. */
  function Lev(a: string, b: string): nat
    decreases |a| + |b|
  {
    if |a| == 0 then |b|
    else if |b| == 0 then |a|
    else
      Min3(Lev(a[1..], b) + 1, Lev(a, b[1..]) + 1,
           Lev(a[1..], b[1..]) + (if a[0] == b[0] then 0 else 1))
  }

  /** The distance is at most the longer length and at least the difference
      in length. */
  lemma {:induction false} LevBounds(a: string, b: string)
    ensures Lev(a, b) <= if |a| >= |b| then |a| else |b|
    ensures Lev(a, b) >= |a| - |b| && Lev(a, b) >= |b| - |a|
    decreases |a| + |b|
  {
    if |a| > 0 && |b| > 0 {
      LevBounds(a[1..], b);
      LevBounds(a, b[1..]);
      LevBounds(a[1..], b[1..]);
    }
  }

  /** The distance is zero exactly between equal strings. */
  lemma {:induction false} LevZero(a: string, b: string)
    ensures Lev(a, b) == 0 <==> a == b
    decreases |a| + |b|
  {
    if |a| > 0 && |b| > 0 {
      LevZero(a[1..], b[1..]);
      assert a == [a[0]] + a[1..] && b == [b[0]] + b[1..];
      if a == b {
        assert a[1..] == b[1..];
      }
    }
  }

  /** The distance does not depend on the order of its arguments. */
  lemma {:induction false} LevSymmetric(a: string, b: string)
    ensures Lev(a, b) == Lev(b, a)
    decreases |a| + |b|
  {
    if |a| > 0 && |b| > 0 {
      LevSymmetric(a[1..], b);
      LevSymmetric(a, b[1..]);
      LevSymmetric(a[1..], b[1..]);
    }
  }

  /** `edit_score`: one minus the distance over the longer length. Two empty
      strings divide by zero. */
  function EditScore(text1: string, text2: string): (r: Result<real>)
    ensures r.Raise? <==> text1 == "" && text2 == ""
    ensures r.Raise? ==> r.exc == ZeroDivisionError
    ensures r.Ok? ==> 0.0 <= r.value <= 1.0
    ensures r.Ok? ==> (r.value == 1.0 <==> text1 == text2)
    ensures r.Ok? ==> (r.value == 0.0 <==> Lev(text1, text2) == Longer(text1, text2))
    ensures r.Ok? ==> r.value == 1.0 - Lev(text1, text2) as real / Longer(text1, text2) as real
  {
    var longest := Longer(text1, text2);
    if longest == 0 then Raise(ZeroDivisionError)
    else
      LevBounds(text1, text2);
      LevZero(text1, text2);
      Ratio(Lev(text1, text2), longest);
      Ok(1.0 - Lev(text1, text2) as real / longest as real)
  }

  /** `max(len(text1), len(text2))`. */
  function Longer(text1: string, text2: string): nat {
    if |text1| >= |text2| then |text1| else |text2|
  }

  /** The edit score does not depend on the order of its arguments. */
  lemma EditScoreSymmetric(text1: string, text2: string)
    ensures EditScore(text1, text2) == EditScore(text2, text1)
  {
    LevSymmetric(text1, text2);
  }

  /** Against an empty string every character is an insertion, so any
      non-empty text scores zero. */
  lemma EditScoreAgainstEmpty(text: string)
    requires text != ""
    ensures EditScore("", text) == Ok(0.0)
    ensures EditScore(text, "") == Ok(0.0)
  {
  }
}
