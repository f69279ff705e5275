/** Python's `str.split`, in its two forms the code uses: on a given
    one-character separator (`netloc.split(".")`), and on runs of whitespace
    (`text.split()`). */
module Strings {

  /** `sep.join(parts)`. */
  function Join(parts: seq<string>, sep: char): string
    requires |parts| >= 1
  {
    if |parts| == 1 then parts[0] else parts[0] + [sep] + Join(parts[1..], sep)
  }

  /** A join starts with the first piece, followed by the separator when
      there is more than one, and ends with the last piece. */
  lemma {:induction false} JoinEnds(parts: seq<string>, sep: char)
    requires |parts| >= 1
    ensures var r := Join(parts, sep);
      && |parts[0]| <= |r| && r[..|parts[0]|] == parts[0]
      && (|parts| >= 2 ==> |parts[0]| < |r| && r[|parts[0]|] == sep)
      && var last := parts[|parts| - 1];
         |last| <= |r| && r[|r| - |last|..] == last
    decreases |parts|
  {
    if |parts| > 1 {
      var tail := Join(parts[1..], sep);
      JoinEnds(parts[1..], sep);
      var last := parts[|parts| - 1];
      assert parts[1..][|parts[1..]| - 1] == last;
      var r := parts[0] + [sep] + tail;
      assert r[|r| - |last|..] == tail[|tail| - |last|..];
    }
  }

  /** `s.split(sep)`: the maximal separator-free pieces between separators,
      empty pieces included, so there is always at least one. */
  function Split(s: string, sep: char): (parts: seq<string>)
    ensures |parts| >= 1
    ensures forall i | 0 <= i < |parts| :: sep !in parts[i]
    ensures Join(parts, sep) == s
  {
    if |s| == 0 then [""]
    else
      var rest := Split(s[1..], sep);
      if s[0] == sep then
        assert [""] + rest == [""] + rest && ([""] + rest)[1..] == rest;
        [""] + rest
      else
        var parts := [[s[0]] + rest[0]] + rest[1..];
        assert parts[1..] == rest[1..];
        assert s == [s[0]] + s[1..];
        parts
  }

  /** Text without the separator is a single piece. */
  lemma SplitNoSeparator(s: string, sep: char)
    requires sep !in s
    ensures Split(s, sep) == [s]
  {
    if |s| > 0 {
      SplitNoSeparator(s[1..], sep);
      assert [s[0]] + s[1..] == s;
    }
  }

  /** Splitting after a separator-free first piece. */
  lemma {:induction false} SplitAfterPiece(a: string, sep: char, b: string)
    requires sep !in a
    ensures Split(a + [sep] + b, sep) == [a] + Split(b, sep)
    decreases |a|
  {
    var s := a + [sep] + b;
    if |a| == 0 {
      assert s[0] == sep && s[1..] == b;
    } else {
      assert s[0] == a[0] && s[1..] == a[1..] + [sep] + b;
      SplitAfterPiece(a[1..], sep, b);
      assert [a[0]] + a[1..] == a;
    }
  }

  /** Splitting a join of separator-free pieces gives the pieces back. */
  lemma {:induction false} SplitJoin(parts: seq<string>, sep: char)
    requires |parts| >= 1
    requires forall i | 0 <= i < |parts| :: sep !in parts[i]
    ensures Split(Join(parts, sep), sep) == parts
    decreases |parts|
  {
    if |parts| == 1 {
      SplitNoSeparator(parts[0], sep);
    } else {
      SplitJoin(parts[1..], sep);
      SplitAfterPiece(parts[0], sep, Join(parts[1..], sep));
      assert [parts[0]] + parts[1..] == parts;
    }
  }

  /** A join of two or more pieces contains the separator. */
  lemma JoinHasSeparator(parts: seq<string>, sep: char)
    requires |parts| >= 2
    ensures sep in Join(parts, sep)
  {
    var j := Join(parts, sep);
    assert j[|parts[0]|] == sep;
  }

  /** The characters `str.isspace` accepts. */
  predicate IsSpace(c: char) {
    || c == ' ' || c == '\t' || c == '\n' || c == '\r' || c == '\U{000B}' || c == '\U{000C}'
    || '\U{001C}' <= c <= '\U{001F}' || c == '\U{0085}' || c == '\U{00A0}' || c == '\U{1680}'
    || '\U{2000}' <= c <= '\U{200A}' || c == '\U{2028}' || c == '\U{2029}' || c == '\U{202F}'
    || c == '\U{205F}' || c == '\U{3000}'
  }

  predicate NoSpace(w: string) {
    forall i | 0 <= i < |w| :: !IsSpace(w[i])
  }

  /** All characters of `s` that are not whitespace, in order. */
  function NonSpace(s: string): (r: string)
    ensures NoSpace(r)
  {
    if |s| == 0 then ""
    else if IsSpace(s[0]) then NonSpace(s[1..])
    else [s[0]] + NonSpace(s[1..])
  }

  /** The concatenation of a sequence of words. */
  function Concat(ws: seq<string>): string {
    if |ws| == 0 then "" else ws[0] + Concat(ws[1..])
  }

  /** `s.split()`: the maximal runs of non-whitespace characters. */
  function Words(s: string): (ws: seq<string>)
    ensures forall i | 0 <= i < |ws| :: ws[i] != "" && NoSpace(ws[i])
    ensures |s| > 0 && !IsSpace(s[0]) ==> |ws| > 0 && ws[0][0] == s[0]
    ensures Concat(ws) == NonSpace(s)
  {
    if |s| == 0 then []
    else
      var rest := Words(s[1..]);
      if IsSpace(s[0]) then rest
      else if |s| > 1 && !IsSpace(s[1]) then
        var ws := [[s[0]] + rest[0]] + rest[1..];
        assert ws[1..] == rest[1..];
        assert Concat(rest) == rest[0] + Concat(rest[1..]);
        ws
      else
        var ws := [[s[0]]] + rest;
        assert ws[1..] == rest;
        ws
  }

  /** `" ".join(ws)` for a non-empty list. */
  function Unwords(ws: seq<string>): string
    requires |ws| >= 1
  {
    Join(ws, ' ')
  }

  /** Splitting on whitespace undoes joining non-empty, whitespace-free
      words with single spaces. */
  lemma {:induction false} WordsUnwords(ws: seq<string>)
    requires |ws| >= 1
    requires forall i | 0 <= i < |ws| :: ws[i] != "" && NoSpace(ws[i])
    ensures Words(Unwords(ws)) == ws
    decreases |ws|
  {
    if |ws| == 1 {
      WordsOfWord(ws[0]);
    } else {
      WordsUnwords(ws[1..]);
      WordsAfterWord(ws[0], Unwords(ws[1..]));
      assert [ws[0]] + ws[1..] == ws;
    }
  }

  /** A non-empty whitespace-free text is one word. */
  lemma {:induction false} WordsOfWord(w: string)
    requires w != "" && NoSpace(w)
    ensures Words(w) == [w]
    decreases |w|
  {
    if |w| > 1 {
      assert NoSpace(w[1..]) by {
        forall i | 0 <= i < |w[1..]| ensures !IsSpace(w[1..][i]) {
          assert w[1..][i] == w[i + 1];
        }
      }
      WordsOfWord(w[1..]);
      assert !IsSpace(w[0]) && !IsSpace(w[1]);
      assert [w[0]] + w[1..] == w;
    } else {
      assert !IsSpace(w[0]) && w[1..] == "" && [w[0]] == w;
    }
  }

  /** A word followed by a space is split off the front. */
  lemma {:induction false} WordsAfterWord(w: string, rest: string)
    requires w != "" && NoSpace(w)
    ensures Words(w + " " + rest) == [w] + Words(rest)
    decreases |w|
  {
    var s := w + " " + rest;
    if |w| == 1 {
      assert s[0] == w[0] && s[1] == ' ' && s[1..] == " " + rest;
      assert (" " + rest)[1..] == rest;
      assert [s[0]] == w;
    } else {
      assert s[0] == w[0] && s[1] == w[1] && s[1..] == w[1..] + " " + rest;
      assert !IsSpace(w[0]) && !IsSpace(w[1]);
      assert NoSpace(w[1..]) by {
        forall i | 0 <= i < |w[1..]| ensures !IsSpace(w[1..][i]) {
          assert w[1..][i] == w[i + 1];
        }
      }
      WordsAfterWord(w[1..], rest);
      assert [w[0]] + w[1..] == w;
    }
  }

  /** Any whitespace character ends a word: the words of a text split at a
      whitespace character are the words of the two sides. With
      `WordsOfWord` this fixes `split()` on every input, whatever runs of
      spaces, tabs or line breaks separate the words. */
  lemma {:induction false} WordsSplitAtSpace(a: string, c: char, b: string)
    requires IsSpace(c)
    ensures Words(a + [c] + b) == Words(a) + Words(b)
    decreases |a|
  {
    var s := a + [c] + b;
    if |a| == 0 {
      assert s[0] == c && s[1..] == b;
    } else {
      assert s[0] == a[0] && s[1..] == a[1..] + [c] + b;
      WordsSplitAtSpace(a[1..], c, b);
      var tail := Words(a[1..]);
      if IsSpace(a[0]) {
      } else if |a| > 1 && !IsSpace(a[1]) {
        assert s[1] == a[1];
        assert |tail| > 0;
        assert (tail + Words(b))[0] == tail[0];
        assert (tail + Words(b))[1..] == tail[1..] + Words(b);
      } else {
        assert s[1] == if |a| == 1 then c else a[1];
      }
    }
  }
}
