/** The parsed-HTML tree `clean_html` works on, and the two passes it makes
    over it.

    A document is the sequence of top-level nodes under the BeautifulSoup
    root. Parsing and serialisation belong to the HTML library and are not
    modelled; only the tree transform is.
 */
module HtmlTree {

  /** A text node (strings, comments, doctypes) or an element. */
  datatype Node =
    | Text(text: string)
    | Element(tag: string, attrs: map<string, string>, children: seq<Node>)

  /** No element anywhere in `ns` has a tag listed in `tags`. */
  predicate NoTagIn(ns: seq<Node>, tags: seq<string>)
    decreases ns
  {
    forall i | 0 <= i < |ns| ::
      ns[i].Element? ==> ns[i].tag !in tags && NoTagIn(ns[i].children, tags)
  }

  /** No element anywhere in `ns` carries an attribute listed in `names`. */
  predicate NoAttrIn(ns: seq<Node>, names: seq<string>)
    decreases ns
  {
    forall i | 0 <= i < |ns| ::
      ns[i].Element? ==> (forall a | a in names :: a !in ns[i].attrs) && NoAttrIn(ns[i].children, names)
  }

  /** The tree with every attribute dropped: its shape, tags and text. */
  function Erase(ns: seq<Node>): (r: seq<Node>)
    ensures |r| == |ns|
    decreases ns
  {
    if |ns| == 0 then []
    else
      var head := match ns[0]
        case Text(_) => ns[0]
        case Element(tag, _, children) => Element(tag, map[], Erase(children));
      [head] + Erase(ns[1..])
  }

  /** The erasure keeps the tag skeleton node by node: a text node is
      unchanged, and an element keeps its tag, loses every attribute and has
      its children erased in turn. */
  lemma {:induction false} EraseSkeleton(ns: seq<Node>, i: nat)
    requires i < |ns|
    ensures ns[i].Text? ==> Erase(ns)[i] == ns[i]
    ensures ns[i].Element? ==>
              && Erase(ns)[i].Element?
              && Erase(ns)[i].tag == ns[i].tag
              && Erase(ns)[i].attrs == map[]
              && Erase(ns)[i].children == Erase(ns[i].children)
    decreases i
  {
    if i > 0 {
      EraseSkeleton(ns[1..], i - 1);
      assert ns[1..][i - 1] == ns[i];
    }
  }

  /** `r` is `ns` with exactly the attributes named in `names` removed from
      every element, and nothing else changed: same shape, same tags, same
      text, same values for the attributes that stay. */
  ghost predicate AttrsRestricted(ns: seq<Node>, r: seq<Node>, names: seq<string>)
    decreases ns
  {
    && |r| == |ns|
    && forall i | 0 <= i < |ns| ::
         match ns[i]
         case Text(t) => r[i] == Text(t)
         case Element(tag, attrs, children) =>
           && r[i].Element? && r[i].tag == tag
           && (forall a :: a in r[i].attrs <==> a in attrs && a !in names)
           && (forall a | a in r[i].attrs :: r[i].attrs[a] == attrs[a])
           && AttrsRestricted(children, r[i].children, names)
  }

  /** The first pass, `for el in soup(html_tag_ignore): el.decompose()`:
      every element whose tag is ignored is removed with its whole subtree. */
  function Decompose(ns: seq<Node>, tags: seq<string>): (r: seq<Node>)
    ensures NoTagIn(r, tags)
    ensures NoTagIn(ns, tags) ==> r == ns
    ensures |r| <= |ns|
    decreases ns
  {
    if |ns| == 0 then []
    else
      var head := match ns[0]
        case Text(_) => [ns[0]]
        case Element(tag, attrs, children) =>
          if tag in tags then [] else [Element(tag, attrs, Decompose(children, tags))];
      var rest := Decompose(ns[1..], tags);
      assert NoTagIn(ns, tags) ==> NoTagIn(ns[1..], tags) by {
        if NoTagIn(ns, tags) {
          forall i | 0 <= i < |ns[1..]| && ns[1..][i].Element?
            ensures ns[1..][i].tag !in tags && NoTagIn(ns[1..][i].children, tags)
          {
            assert ns[1..][i] == ns[i + 1];
          }
        }
      }
      assert NoTagIn(head + rest, tags) by {
        forall i | 0 <= i < |head + rest| && (head + rest)[i].Element?
          ensures (head + rest)[i].tag !in tags && NoTagIn((head + rest)[i].children, tags)
        {
          if i >= |head| {
            assert (head + rest)[i] == rest[i - |head|];
          }
        }
      }
      head + rest
  }

  /** The second pass, `for el in soup.find_all(True): del el[attr]` for
      each ignored attribute name; deleting a missing attribute is a no-op. */
  function StripAttrs(ns: seq<Node>, names: seq<string>): (r: seq<Node>)
    ensures NoAttrIn(r, names)
    ensures AttrsRestricted(ns, r, names)
    ensures Erase(r) == Erase(ns)
    ensures NoAttrIn(ns, names) ==> r == ns
    decreases ns, 2
  {
    if |ns| == 0 then []
    else
      var head := match ns[0]
        case Text(_) => ns[0]
        case Element(tag, attrs, children) =>
          Element(tag, map a | a in attrs && a !in names :: attrs[a], StripAttrs(children, names));
      var rest := StripAttrs(ns[1..], names);
      StripAttrsShape(ns, names, head, rest);
      StripAttrsErase(ns, names, head, rest);
      StripAttrsUnchanged(ns, names, head, rest);
      [head] + rest
  }

  /** `head` is the first node of `ns` with the attributes in `names`
      stripped, everywhere in its subtree. */
  predicate StrippedHead(ns: seq<Node>, names: seq<string>, head: Node)
    requires |ns| > 0
    decreases ns, 0
  {
    match ns[0]
    case Text(_) => head == ns[0]
    case Element(tag, attrs, children) =>
      head == Element(tag, map a | a in attrs && a !in names :: attrs[a], StripAttrs(children, names))
  }

  /** The inductive step of `StripAttrs` for its first two postconditions:
      the ignored attributes are gone and every other one stays. */
  lemma StripAttrsShape(ns: seq<Node>, names: seq<string>, head: Node, rest: seq<Node>)
    requires |ns| > 0 && StrippedHead(ns, names, head)
    requires NoAttrIn(rest, names) && AttrsRestricted(ns[1..], rest, names)
    ensures NoAttrIn([head] + rest, names)
    ensures AttrsRestricted(ns, [head] + rest, names)
    decreases ns, 1
  {
    var r := [head] + rest;
    assert r[0] == head && r[1..] == rest;
    forall i | 1 <= i < |r| ensures r[i] == rest[i - 1] && ns[i] == ns[1..][i - 1] {
    }
  }

  /** The inductive step of `StripAttrs` for its erasure. */
  lemma StripAttrsErase(ns: seq<Node>, names: seq<string>, head: Node, rest: seq<Node>)
    requires |ns| > 0 && StrippedHead(ns, names, head)
    requires Erase(rest) == Erase(ns[1..])
    ensures Erase([head] + rest) == Erase(ns)
    decreases ns, 1
  {
    var r := [head] + rest;
    assert r[1..] == rest;
    assert Erase(r)[1..] == Erase(rest);
    assert Erase(ns)[1..] == Erase(ns[1..]);
  }

  /** The inductive step of `StripAttrs` for a tree without ignored
      attributes. */
  lemma StripAttrsUnchanged(ns: seq<Node>, names: seq<string>, head: Node, rest: seq<Node>)
    requires |ns| > 0 && StrippedHead(ns, names, head)
    requires NoAttrIn(ns[1..], names) ==> rest == ns[1..]
    ensures NoAttrIn(ns, names) ==> [head] + rest == ns
    decreases ns, 1
  {
    if NoAttrIn(ns, names) {
      assert NoAttrIn(ns[1..], names) by {
        forall i | 0 <= i < |ns[1..]| && ns[1..][i].Element?
          ensures (forall a | a in names :: a !in ns[1..][i].attrs) && NoAttrIn(ns[1..][i].children, names)
        {
          assert ns[1..][i] == ns[i + 1];
        }
      }
      if ns[0].Element? {
        assert head.attrs == ns[0].attrs;
      }
      assert [head] + rest == [ns[0]] + ns[1..];
    }
  }

  /** `clean_html`'s tree transform: first delete the ignored elements,
      then strip the ignored attributes from what is left. */
  function Clean(ns: seq<Node>, tags: seq<string>, attrs: seq<string>): (r: seq<Node>)
    ensures NoTagIn(r, tags)
    ensures NoAttrIn(r, attrs)
    ensures NoTagIn(ns, tags) ==> AttrsRestricted(ns, r, attrs)
  {
    var kept := Decompose(ns, tags);
    var r := StripAttrs(kept, attrs);
    EraseKeepsTags(kept, r, tags);
    r
  }

  /** `NoTagIn` looks only at tags, so two trees with the same erasure agree
      on it. */
  lemma {:induction false} EraseKeepsTags(ns: seq<Node>, r: seq<Node>, tags: seq<string>)
    requires Erase(r) == Erase(ns)
    ensures NoTagIn(ns, tags) <==> NoTagIn(r, tags)
    decreases ns
  {
    if |ns| > 0 {
      assert |r| > 0;
      assert Erase(r)[1..] == Erase(r[1..]) && Erase(ns)[1..] == Erase(ns[1..]);
      EraseKeepsTags(ns[1..], r[1..], tags);
      assert Erase(r)[0] == Erase(ns)[0];
      if ns[0].Element? {
        EraseKeepsTags(ns[0].children, r[0].children, tags);
      }
      forall i | 1 <= i < |r| ensures r[i] == r[1..][i - 1] && ns[i] == ns[1..][i - 1] {
      }
    }
  }

  /** Cleaning an already-cleaned tree changes nothing. */
  lemma CleanIdempotent(ns: seq<Node>, tags: seq<string>, attrs: seq<string>)
    ensures Clean(Clean(ns, tags, attrs), tags, attrs) == Clean(ns, tags, attrs)
  {
  }

  /** An element with a kept tag keeps its place: it appears in the result
      with its tag and attributes unchanged and its own subtree cleaned of
      ignored elements. Text nodes are always kept. */
  lemma {:induction false} DecomposeKeeps(ns: seq<Node>, tags: seq<string>, i: nat)
    requires i < |ns|
    ensures ns[i].Text? ==> ns[i] in Decompose(ns, tags)
    ensures ns[i].Element? && ns[i].tag !in tags ==>
              Element(ns[i].tag, ns[i].attrs, Decompose(ns[i].children, tags)) in Decompose(ns, tags)
    ensures ns[i].Element? && ns[i].tag in tags ==> ns[i] !in Decompose(ns, tags)
    decreases i
  {
    if i > 0 {
      DecomposeKeeps(ns[1..], tags, i - 1);
      assert ns[1..][i - 1] == ns[i];
    }
  }

  /** The first pass on a single node: a text node stays, an ignored
      element goes with its subtree, any other element stays with its
      subtree cleaned. */
  lemma DecomposeSingle(n: Node, tags: seq<string>)
    ensures n.Text? ==> Decompose([n], tags) == [n]
    ensures n.Element? && n.tag in tags ==> Decompose([n], tags) == []
    ensures n.Element? && n.tag !in tags ==>
              Decompose([n], tags) == [Element(n.tag, n.attrs, Decompose(n.children, tags))]
  {
    assert [n][1..] == [];
  }

  /** The first node of a run is handled on its own. */
  lemma DecomposeCons(n: Node, ns: seq<Node>, tags: seq<string>)
    ensures Decompose([n] + ns, tags) == Decompose([n], tags) + Decompose(ns, tags)
  {
    assert ([n] + ns)[0] == n && ([n] + ns)[1..] == ns;
    assert [n][0] == n && [n][1..] == [];
  }

  /** The first pass works node by node: the kept nodes of two adjacent
      runs appear in the same order and as often as in the input. With
      `DecomposeSingle` this fixes the result of every input. */
  lemma {:induction false} DecomposeConcat(a: seq<Node>, b: seq<Node>, tags: seq<string>)
    ensures Decompose(a + b, tags) == Decompose(a, tags) + Decompose(b, tags)
    decreases a
  {
    if |a| == 0 {
      assert a + b == b;
    } else {
      var n, tail := a[0], a[1..];
      var d := Decompose([n], tags);
      calc {
        Decompose(a + b, tags);
        { assert a + b == [n] + (tail + b); }
        Decompose([n] + (tail + b), tags);
        { DecomposeCons(n, tail + b, tags); }
        d + Decompose(tail + b, tags);
        { DecomposeConcat(tail, b, tags); }
        d + (Decompose(tail, tags) + Decompose(b, tags));
        (d + Decompose(tail, tags)) + Decompose(b, tags);
        { DecomposeCons(n, tail, tags); assert a == [n] + tail; }
        Decompose(a, tags) + Decompose(b, tags);
      }
    }
  }
}
