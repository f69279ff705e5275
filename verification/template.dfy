/** Python's `str.format` restricted to keyword arguments, the only way the
    scraper expands its path and markdown templates.

    A template is literal text with `{name}` replacement fields; `{{` and `}}`
    stand for literal braces. A field whose name is not among the keyword
    arguments raises `KeyError(name)`; keyword arguments no field names are
    ignored. The template is consumed left to right, so the first failing
    field decides the exception.
 */
module Template {
  import opened Outcomes

  predicate IsBrace(c: char) {
    c == '{' || c == '}'
  }

  predicate NoBraces(s: string) {
    forall i | 0 <= i < |s| :: !IsBrace(s[i])
  }

  /** Index of the first brace of `t` at or after `i`, or `|t|` if none. */
  function NextBrace(t: string, i: nat): (j: nat)
    requires i <= |t|
    ensures i <= j <= |t|
    ensures NoBraces(t[i..j])
    ensures j < |t| ==> IsBrace(t[j])
    decreases |t| - i
  {
    if i == |t| || IsBrace(t[i]) then i else NextBrace(t, i + 1)
  }

  /** The value a replacement field `{name}` stands for. `{}` asks for the
      first positional argument, and `format` is only ever given keywords. */
  function Lookup(name: string, args: map<string, string>): (r: Result<string>)
    ensures r.Ok? <==> name != "" && name in args
    ensures r.Ok? ==> r.value == args[name]
    ensures name != "" && name !in args ==> r == Raise(KeyError(name))
  {
    if name == "" then Raise(IndexError)
    else if name in args then Ok(args[name])
    else Raise(KeyError(name))
  }

  /** `t.format(**args)`. */
  function Format(t: string, args: map<string, string>): Result<string>
    decreases |t|
  {
    if |t| == 0 then Ok("")
    else if t[0] == '{' then
      if |t| == 1 then Raise(ValueError("Single '{' encountered in format string"))
      else if t[1] == '{' then Prepend("{", Format(t[2..], args))
      else
        var j := NextBrace(t, 1);
        if j == |t| then Raise(ValueError("expected '}' before end of string"))
        else if t[j] == '{' then Raise(ValueError("unexpected '{' in field name"))
        else
          match Lookup(t[1..j], args)
          case Raise(e) => Raise(e)
          case Ok(v) => Prepend(v, Format(t[j + 1..], args))
    else if t[0] == '}' then
      if |t| >= 2 && t[1] == '}' then Prepend("}", Format(t[2..], args))
      else Raise(ValueError("Single '}' encountered in format string"))
    else
      Prepend(t[..1], Format(t[1..], args))
  }

  /** `NextBrace` stops at the first brace. */
  lemma {:induction false} NextBraceAt(t: string, i: nat, j: nat)
    requires i <= j < |t| && IsBrace(t[j])
    requires forall m | i <= m < j :: !IsBrace(t[m])
    ensures NextBrace(t, i) == j
    decreases j - i
  {
    if i < j {
      NextBraceAt(t, i + 1, j);
    }
  }

  /** One step of `Format` over a character that is not a brace. */
  lemma FormatPlainHead(u: string, args: map<string, string>)
    requires |u| > 0 && !IsBrace(u[0])
    ensures Format(u, args) == Prepend(u[..1], Format(u[1..], args))
  {
  }

  /** Literal text in front of a template is copied unchanged. */
  lemma {:induction false} FormatLiteral(s: string, t: string, args: map<string, string>)
    requires NoBraces(s)
    ensures Format(s + t, args) == Prepend(s, Format(t, args))
    decreases |s|
  {
    if |s| == 0 {
      assert s + t == t;
      match Format(t, args)
      case Ok(v) => assert s + v == v;
      case Raise(_) =>
    } else {
      var u := s + t;
      assert u[0] == s[0] && u[1..] == s[1..] + t && u[..1] == s[..1];
      assert !IsBrace(u[0]);
      FormatPlainHead(u, args);
      assert NoBraces(s[1..]) by {
        forall i | 0 <= i < |s[1..]| ensures !IsBrace(s[1..][i]) {
          assert s[1..][i] == s[i + 1];
        }
      }
      FormatLiteral(s[1..], t, args);
      match Format(t, args)
      case Ok(v) => assert s[..1] + (s[1..] + v) == s + v;
      case Raise(_) =>
    }
  }

  /** A template without braces expands to itself. */
  lemma LiteralTemplate(s: string, args: map<string, string>)
    requires NoBraces(s)
    ensures Format(s, args) == Ok(s)
  {
    FormatLiteral(s, "", args);
    assert s + "" == s;
  }

  /** A replacement field `{k}` followed by the rest of a template:
      `KeyError(k)` when `k` is not a keyword, and `args[k]` spliced in
      otherwise. Whatever follows a missing field is never looked at. */
  lemma FormatField(k: string, t: string, args: map<string, string>)
    requires k != "" && NoBraces(k)
    ensures Format("{" + k + "}" + t, args)
         == if k in args then Prepend(args[k], Format(t, args)) else Raise(KeyError(k))
  {
    var u := "{" + k + "}" + t;
    assert u[0] == '{' && u[1] == k[0];
    assert u[|k| + 1] == '}';
    forall m | 1 <= m < |k| + 1 ensures !IsBrace(u[m]) {
      assert u[m] == k[m - 1];
    }
    NextBraceAt(u, 1, |k| + 1);
    assert u[1..|k| + 1] == k;
    assert u[|k| + 2..] == t;
  }

  /** Literal text, then a replacement field, then the rest. */
  lemma FormatLiteralField(s: string, k: string, t: string, args: map<string, string>)
    requires NoBraces(s) && k != "" && NoBraces(k)
    ensures Format(s + ("{" + k + "}" + t), args)
         == if k in args then Prepend(s + args[k], Format(t, args)) else Raise(KeyError(k))
  {
    FormatLiteral(s, "{" + k + "}" + t, args);
    FormatField(k, t, args);
    if k in args {
      match Format(t, args)
      case Ok(v) => assert s + (args[k] + v) == (s + args[k]) + v;
      case Raise(_) =>
    }
  }

  /** A template given as its pieces: literal text and field names. */
  datatype Piece = Lit(text: string) | Field(name: string)

  predicate WellFormed(ps: seq<Piece>) {
    forall i | 0 <= i < |ps| ::
      match ps[i]
      case Lit(text) => NoBraces(text)
      case Field(name) => name != "" && NoBraces(name)
  }

  /** The template text of a piece list. */
  function Render(ps: seq<Piece>): string {
    if |ps| == 0 then ""
    else
      (match ps[0]
       case Lit(text) => text
       case Field(name) => "{" + name + "}") + Render(ps[1..])
  }

  /** What a piece list should expand to: the literals and the argument
      values in order, or `KeyError` for the first field without a value. */
  function Expand(ps: seq<Piece>, args: map<string, string>): Result<string> {
    if |ps| == 0 then Ok("")
    else
      match ps[0]
      case Lit(text) => Prepend(text, Expand(ps[1..], args))
      case Field(name) =>
        if name in args then Prepend(args[name], Expand(ps[1..], args)) else Raise(KeyError(name))
  }

  /** `Format` on a rendered template agrees with the piecewise expansion. */
  lemma {:induction false} FormatRender(ps: seq<Piece>, args: map<string, string>)
    requires WellFormed(ps)
    ensures Format(Render(ps), args) == Expand(ps, args)
    decreases |ps|
  {
    if |ps| > 0 {
      assert WellFormed(ps[1..]) by {
        forall i | 0 <= i < |ps[1..]| ensures ps[1..][i] == ps[i + 1] {}
      }
      FormatRender(ps[1..], args);
      assert WellFormed(ps) ==> (ps[0].Lit? ==> NoBraces(ps[0].text));
      match ps[0]
      case Lit(text) =>
        FormatLiteral(text, Render(ps[1..]), args);
      case Field(name) =>
        FormatField(name, Render(ps[1..]), args);
    }
  }

  /** Keyword arguments that no field names are ignored: adding entries to
      the argument map never changes a successful expansion. */
  lemma {:induction false} FormatIgnoresExtraKeys(t: string, args: map<string, string>, more: map<string, string>)
    requires forall k | k in args :: k in more && more[k] == args[k]
    requires Format(t, args).Ok?
    ensures Format(t, more) == Format(t, args)
    decreases |t|
  {
    if |t| == 0 {
    } else if t[0] == '{' {
      if t[1] == '{' {
        FormatIgnoresExtraKeys(t[2..], args, more);
      } else {
        var j := NextBrace(t, 1);
        FormatIgnoresExtraKeys(t[j + 1..], args, more);
      }
    } else if t[0] == '}' {
      FormatIgnoresExtraKeys(t[2..], args, more);
    } else {
      FormatIgnoresExtraKeys(t[1..], args, more);
    }
  }

  /** Doubles every brace, so that the text survives `format` verbatim. */
  function Escape(s: string): (e: string)
    ensures |e| >= |s|
  {
    if |s| == 0 then ""
    else (if IsBrace(s[0]) then [s[0], s[0]] else [s[0]]) + Escape(s[1..])
  }

  /** Expanding an escaped text gives the text back, whatever the arguments. */
  lemma {:induction false} EscapeRoundTrip(s: string, args: map<string, string>)
    ensures Format(Escape(s), args) == Ok(s)
    decreases |s|
  {
    if |s| > 0 {
      EscapeRoundTrip(s[1..], args);
      var e := Escape(s);
      if IsBrace(s[0]) {
        assert e[0] == s[0] && e[1] == s[0] && e[2..] == Escape(s[1..]);
        assert [s[0]] + s[1..] == s;
        if s[0] == '{' {
          assert Format(e, args) == Prepend("{", Format(e[2..], args));
        } else {
          assert Format(e, args) == Prepend("}", Format(e[2..], args));
        }
      } else {
        assert e[0] == s[0] && e[1..] == Escape(s[1..]) && e[..1] == s[..1];
        assert s[..1] + s[1..] == s;
      }
    }
  }

  /** Escaping works character by character. */
  lemma {:induction false} EscapeConcat(a: string, b: string)
    ensures Escape(a + b) == Escape(a) + Escape(b)
    decreases |a|
  {
    if |a| == 0 {
      assert a + b == b;
    } else {
      var x := if IsBrace(a[0]) then [a[0], a[0]] else [a[0]];
      assert (a + b)[0] == a[0] && (a + b)[1..] == a[1..] + b;
      assert Escape(a + b) == x + Escape(a[1..] + b);
      EscapeConcat(a[1..], b);
      assert Escape(a) == x + Escape(a[1..]);
    }
  }

  /** A text without braces is its own escape. */
  lemma {:induction false} EscapePlain(s: string)
    requires NoBraces(s)
    ensures Escape(s) == s
    decreases |s|
  {
    if |s| > 0 {
      assert NoBraces(s[1..]) by {
        forall i | 0 <= i < |s[1..]| ensures !IsBrace(s[1..][i]) {
          assert s[1..][i] == s[i + 1];
        }
      }
      EscapePlain(s[1..]);
      assert [s[0]] + s[1..] == s;
    }
  }

  /** The escape of a replacement field `{name}` for a brace-free name. */
  lemma EscapeField(name: string)
    requires NoBraces(name)
    ensures Escape("{" + name + "}") == "{{" + name + "}}"
  {
    EscapeConcat("{", name);
    EscapeConcat("{" + name, "}");
    EscapePlain(name);
    assert Escape("{") == "{{" && Escape("}") == "}}";
  }
}
