/** A page of pagination links run through a fresh parser, from `<html>` to
    `</html>`: the page count the handlers reach, and the one the closing
    `</html>` writes into the dataset, is the largest number the links carry. */
module PaginationPages {
  import opened Wrappers
  import opened PyStr
  import opened Markup
  import opened Extraction
  import opened ExtractionLemmas
  import opened ExtractionExamples

  // ----- the largest number -----

  /** `MaxOf(n0, ns)` is the largest of `n0` and the numbers `ns`: no smaller
      than any of them, and one of them. */
  lemma {:induction false} MaxOfBounds(n0: int, ns: seq<int>)
    ensures n0 <= MaxOf(n0, ns)
    ensures forall i :: 0 <= i < |ns| ==> ns[i] <= MaxOf(n0, ns)
    ensures MaxOf(n0, ns) == n0 || MaxOf(n0, ns) in ns
    decreases |ns|
  {
    if ns != [] {
      MaxOfBounds(Max(n0, ns[0]), ns[1..]);
      forall i | 1 <= i < |ns| ensures ns[i] <= MaxOf(n0, ns) {
        assert ns[i] == ns[1..][i - 1];
      }
      if MaxOf(n0, ns) in ns[1..] {
        var k :| 0 <= k < |ns[1..]| && ns[1..][k] == MaxOf(n0, ns);
        assert ns[k + 1] == MaxOf(n0, ns);
      }
    }
  }

  /** The order in which the numbers come does not matter. */
  lemma MaxOfOrderFree(n0: int, ns: seq<int>, ms: seq<int>)
    requires multiset(ns) == multiset(ms)
    ensures MaxOf(n0, ns) == MaxOf(n0, ms)
  {
    MaxOfBounds(n0, ns);
    MaxOfBounds(n0, ms);
    var x, y := MaxOf(n0, ns), MaxOf(n0, ms);
    if x != n0 {
      assert x in multiset(ms);
      var j :| 0 <= j < |ms| && ms[j] == x;
    }
    if y != n0 {
      assert y in multiset(ns);
      var j :| 0 <= j < |ns| && ns[j] == y;
    }
  }

  // ----- the page -----

  const PaginatorLink := Tag("a", map["class" := Some(PaginatorClass)])
  const HtmlTag := Tag("html", map[])

  /** One pagination link with its text. */
  function LinkOf(text: string): seq<Event> {
    [Open("a", ClassAttr(PaginatorClass)), Text(text), Close("a")]
  }

  /** One pagination link per text, in order. */
  function Links(texts: seq<string>): seq<Event>
    decreases |texts|
  {
    if texts == [] then [] else LinkOf(texts[0]) + Links(texts[1..])
  }

  /** A page holding nothing but pagination links. */
  function PaginationPage(texts: seq<string>): seq<Event> {
    [Open("html", [])] + Links(texts) + [Close("html")]
  }

  /** A pagination link is no result link. */
  lemma PaginatorClassFacts()
    ensures Contains(PaginatorClass, PaginatorClass) && !Contains(PaginatorClass, ResultBlockClass)
  {
    var p, q := PaginatorClass, ResultBlockClass;
    assert StartsWith(p, p);
    ShorterHasNot(p[6..], q);
    NotAtHead(p[5..], q);
    NotAtHead(p[4..], q);
    NotAtHead(p[3..], q);
    NotAtHead(p[2..], q);
    NotAtHead(p[1..], q);
    NotAtHead(p, q);
  }

  /** A text whose first character differs from `sub`'s, and whose rest does
      not contain `sub`, does not contain it. */
  lemma NotAtHead(s: string, sub: string)
    requires s != [] && sub != [] && s[0] != sub[0] && !Contains(s[1..], sub)
    ensures !Contains(s, sub)
  {
  }

  lemma HtmlNameFacts()
    ensures Lower("html") == "html" && !IsHtmlVoidTag("html")
  {
    LowerOfLowerCase("html");
  }

  /** Inside a pagination link, text reading `n` raises the count to `n` at least. */
  lemma LinkTextStart(f: Fields, stack: seq<Tag>, text: string, n: int, r: Resolver)
    requires stack != [] && stack[|stack| - 1] == PaginatorLink && ParseInt(text) == Some(n)
    ensures HandleStartTag(f, stack, Some(text), r) == Ok(f.(numPages := Max(f.numPages, n)))
  {
    TagNameFacts();
    PaginatorClassFacts();
    assert GetClassName(PaginatorLink.attrs) == PaginatorClass;
  }

  /** A pagination link's closing handler changes nothing. */
  lemma LinkEnd(f: Fields, d: Data, r: Resolver)
    ensures HandleEndTag(f, d, "a", PaginatorLink.attrs, r) == Ok((f, d))
  {
    TagNameFacts();
    PaginatorClassFacts();
    assert GetClassName(PaginatorLink.attrs) == PaginatorClass;
  }

  /** After its text, a pagination link's closing tag pops it and changes nothing else. */
  lemma CloseLink(m: Machine, r: Resolver)
    requires m.lastTagHasData && m.stack != [] && m.stack[|m.stack| - 1] == PaginatorLink
    ensures Step(m, Close("a"), r) == Ok(m.(stack := m.stack[..|m.stack| - 1]))
  {
    var k := |m.stack| - 1;
    assert FindLast(m.stack, "a") == Some(k);
    assert RemoveAt(m.stack, k) == m.stack[..k];
    LinkEnd(m.fields, m.data, r);
  }

  /** One pagination link reading `n` raises the count to `n` at least, and
      leaves the stack as it found it. */
  lemma OneLink(m: Machine, text: string, n: int, r: Resolver)
    requires ParseInt(text) == Some(n)
    ensures Feed(m, LinkOf(text), r)
         == Ok(m.(fields := m.fields.(numPages := Max(m.fields.numPages, n)), lastTagHasData := true))
  {
    TagNameFacts();
    assert ToDict(ClassAttr(PaginatorClass)) == PaginatorLink.attrs;
    var m1 := m.(stack := m.stack + [PaginatorLink], lastTagHasData := false);
    OpenPushes(m, "a", ClassAttr(PaginatorClass), PaginatorLink, r);
    var f2 := m.fields.(numPages := Max(m.fields.numPages, n));
    LinkTextStart(m.fields, m1.stack, text, n, r);
    TextStep(m1, text, r, f2);
    var m2 := m1.(fields := f2, lastTagHasData := true);
    CloseLink(m2, r);
    assert m2.stack[..|m2.stack| - 1] == m.stack;
    var m3 := m.(fields := f2, lastTagHasData := true);
    FeedThree(m, m1, m2, m3, Open("a", ClassAttr(PaginatorClass)), Text(text), Close("a"), r);
  }

  /** Pagination links reading `ns` leave the largest of the starting count and
      `ns`; the stack and the dataset are untouched. */
  lemma {:induction false} LinksFeed(m: Machine, texts: seq<string>, ns: seq<int>, r: Resolver)
    requires |texts| == |ns| && forall i :: 0 <= i < |texts| ==> ParseInt(texts[i]) == Some(ns[i])
    ensures Feed(m, Links(texts), r)
         == Ok(m.(fields := m.fields.(numPages := MaxOf(m.fields.numPages, ns)),
                  lastTagHasData := m.lastTagHasData || texts != []))
    decreases |texts|
  {
    if texts == [] {
      assert Links(texts) == [];
    } else {
      var m1 := m.(fields := m.fields.(numPages := Max(m.fields.numPages, ns[0])), lastTagHasData := true);
      OneLink(m, texts[0], ns[0], r);
      FeedConcat(m, LinkOf(texts[0]), Links(texts[1..]), r);
      assert forall i :: 0 <= i < |texts[1..]| ==> ParseInt(texts[1..][i]) == Some(ns[1..][i]) by {
        forall i | 0 <= i < |texts[1..]| ensures ParseInt(texts[1..][i]) == Some(ns[1..][i]) {
          assert texts[1..][i] == texts[i + 1] && ns[1..][i] == ns[i + 1];
        }
      }
      LinksFeed(m1, texts[1..], ns[1..], r);
    }
  }

  lemma OpenHtml(d: Data, r: Resolver)
    ensures Step(Fresh(d), Open("html", []), r) == Ok(Machine([HtmlTag], false, InitialFields, d))
  {
    HtmlNameFacts();
    assert ToDict([]) == HtmlTag.attrs;
    OpenPushes(Fresh(d), "html", [], HtmlTag, r);
    assert [] + [HtmlTag] == [HtmlTag];
  }

  /** `</html>` on a stack holding only `<html>`: the page's count is written
      into the dataset. */
  lemma CloseHtml(m: Machine, r: Resolver)
    requires m.stack == [HtmlTag]
    ensures Step(m, Close("html"), r) == Ok(m.(stack := [], data := m.data.(numPages := m.fields.numPages)))
  {
    HtmlNameFacts();
    TagNameFacts();
    assert HandleStartTag(m.fields, m.stack, None, r) == Ok(m.fields);
    assert PendingOpen(m, r) == Ok(m.fields);
    assert FindLast(m.stack, "html") == Some(0);
    assert RemoveAt(m.stack, 0) == [];
  }

  /** A page of pagination links reading `ns` ends with the handlers' count and
      the dataset's count both equal to the largest of 0 and `ns`; no record is
      added. */
  lemma PaginationPageCount(d: Data, texts: seq<string>, ns: seq<int>, r: Resolver)
    requires |texts| == |ns| && forall i :: 0 <= i < |texts| ==> ParseInt(texts[i]) == Some(ns[i])
    ensures Feed(Fresh(d), PaginationPage(texts), r)
         == Ok(Machine([], texts != [], InitialFields.(numPages := MaxOf(0, ns)), d.(numPages := MaxOf(0, ns))))
    ensures RunPage(d, PaginationPage(texts), r) == Ok(d.(numPages := MaxOf(0, ns)))
  {
    var m1 := Machine([HtmlTag], false, InitialFields, d);
    OpenHtml(d, r);
    assert PaginationPage(texts) == [Open("html", [])] + (Links(texts) + [Close("html")]);
    FeedFrom(Fresh(d), Open("html", []), Links(texts) + [Close("html")], r, m1);
    LinksFeed(m1, texts, ns, r);
    FeedConcat(m1, Links(texts), [Close("html")], r);
    var m2 := Machine([HtmlTag], texts != [], InitialFields.(numPages := MaxOf(0, ns)), d);
    CloseHtml(m2, r);
    FeedFrom(m2, Close("html"), [], r, m2.(stack := [], data := d.(numPages := MaxOf(0, ns))));
    assert [Close("html")] == [Close("html")] + [];
  }

  /** Reordering the links does not change the count a page leaves. */
  lemma PageCountOrderFree(d: Data, texts: seq<string>, ns: seq<int>, others: seq<string>, ms: seq<int>, r: Resolver)
    requires |texts| == |ns| && forall i :: 0 <= i < |texts| ==> ParseInt(texts[i]) == Some(ns[i])
    requires |others| == |ms| && forall i :: 0 <= i < |others| ==> ParseInt(others[i]) == Some(ms[i])
    requires multiset(ns) == multiset(ms)
    ensures RunPage(d, PaginationPage(texts), r) == RunPage(d, PaginationPage(others), r)
  {
    PaginationPageCount(d, texts, ns, r);
    PaginationPageCount(d, others, ms, r);
    MaxOfOrderFree(0, ns, ms);
  }

  /** Four texts reading `ns`, one by one. */
  lemma ParsedFour(texts: seq<string>, ns: seq<int>)
    requires |texts| == 4 && |ns| == 4
    requires ParseInt(texts[0]) == Some(ns[0]) && ParseInt(texts[1]) == Some(ns[1])
    requires ParseInt(texts[2]) == Some(ns[2]) && ParseInt(texts[3]) == Some(ns[3])
    ensures forall i :: 0 <= i < |texts| ==> ParseInt(texts[i]) == Some(ns[i])
  {
    forall i | 0 <= i < 4 ensures ParseInt(texts[i]) == Some(ns[i]) {
      if i == 0 {} else if i == 1 {} else if i == 2 {} else {}
    }
  }

  /** Links reading 1, 2, 5, 3 leave 5, not the last number, and so do the same
      links in the order 5, 3, 1, 2. */
  lemma PaginationExample(d: Data, texts: seq<string>, r: Resolver)
    requires |texts| == 4
    requires ParseInt(texts[0]) == Some(1) && ParseInt(texts[1]) == Some(2)
    requires ParseInt(texts[2]) == Some(5) && ParseInt(texts[3]) == Some(3)
    ensures RunPage(d, PaginationPage(texts), r) == Ok(d.(numPages := 5))
    ensures RunPage(d, PaginationPage([texts[2], texts[3], texts[0], texts[1]]), r) == Ok(d.(numPages := 5))
  {
    MaxOfExample();
    var others := [texts[2], texts[3], texts[0], texts[1]];
    ParsedFour(texts, [1, 2, 5, 3]);
    ParsedFour(others, [5, 3, 1, 2]);
    PaginationPageCount(d, texts, [1, 2, 5, 3], r);
    PaginationPageCount(d, others, [5, 3, 1, 2], r);
  }

  /** The same page spelled out: links "1", "2", "5", "3" set the count to 5. */
  lemma LiteralPaginationExample(d: Data, r: Resolver)
    ensures RunPage(d, PaginationPage(["1", "2", "5", "3"]), r) == Ok(d.(numPages := 5))
    ensures RunPage(d, PaginationPage(["5", "3", "1", "2"]), r) == Ok(d.(numPages := 5))
  {
    var texts := ["1", "2", "5", "3"];
    assert ParseInt(texts[0]) == Some(1) && ParseInt(texts[1]) == Some(2)
        && ParseInt(texts[2]) == Some(5) && ParseInt(texts[3]) == Some(3) by {
      SmallNumbers();
    }
    PaginationExample(d, texts, r);
    assert [texts[2], texts[3], texts[0], texts[1]] == ["5", "3", "1", "2"];
  }
}
