/** The crawler's three stateful classes: the dataset, the tag handlers with
    their per-page fields, and the event-driven parser with its stack of open
    elements. Each method is proved to do exactly what the corresponding
    function of module Extraction says. */
module Ibsf {
  import opened Wrappers
  import opened PyStr
  import opened Markup
  import opened FlagPath
  import opened Extraction

  /** The athletes found so far, in discovery order, and the page count. */
  class DataSet {
    var athletes: seq<Athlete>
    var numPages: int

    function Value(): Data
      reads this
    {
      Data(athletes, numPages)
    }

    constructor ()
      ensures Value() == EmptyData
    {
      athletes := [];
      numPages := 0;
    }

    /** Appends the record; building it may fail on a display-name lookup,
        and then nothing is appended. */
    method AddAthlete(name: string, alpha2: string, continentCode: string, r: Resolver)
      returns (out: Outcome<Error>)
      modifies this
      ensures var a := MakeAthlete(name, alpha2, continentCode, r);
              out == Status(a) && numPages == old(numPages)
              && athletes == if a.Ok? then old(athletes) + [a.value] else old(athletes)
    {
      var a := MakeAthlete(name, alpha2, continentCode, r);
      if a.Err? {
        return Fail(a.error);
      }
      athletes := athletes + [a.value];
      out := Pass;
    }

    /** Overwrites the page count. */
    method SetNumPages(n: int)
      modifies this
      ensures numPages == n && athletes == old(athletes)
    {
      numPages := n;
    }
  }

  /** The handlers called for opening and closing tags, with the state of one page. */
  class TagHandlers {
    const dataset: DataSet
    const resolver: Resolver
    var numPages: int
    var isInResultBlock: bool
    var isInResultFlagBlock: bool
    var currentName: string
    var currentAlpha2: string
    var currentContinentCode: string

    function Value(): Fields
      reads this
    {
      Fields(numPages, isInResultBlock, isInResultFlagBlock, currentName, currentAlpha2, currentContinentCode)
    }

    constructor (dataset: DataSet, resolver: Resolver)
      ensures this.dataset == dataset && this.resolver == resolver
      ensures Value() == InitialFields
    {
      this.dataset := dataset;
      this.resolver := resolver;
      numPages := 0;
      isInResultBlock := false;
      isInResultFlagBlock := false;
      currentName := "";
      currentAlpha2 := "";
      currentContinentCode := "";
    }

    method HandleStartTag(data: Option<string>, openingTagStack: seq<Tag>) returns (out: Outcome<Error>)
      modifies this
      ensures var res := Extraction.HandleStartTag(old(Value()), openingTagStack, data, resolver);
              out == Status(res) && Value() == if res.Ok? then res.value else old(Value())
    {
      if openingTagStack == [] {
        return Fail(EmptyStack);
      }
      var top := openingTagStack[|openingTagStack| - 1];
      var name := Lower(top.name);
      if name == "a" {
        out := StartA(top.attrs, data);
      } else if name == "div" {
        StartDiv(top.attrs, data);
        out := Pass;
      } else if name == "img" {
        out := StartImg(top.attrs, data);
      } else {
        out := Pass;
      }
    }

    method HandleEndTag(name: string, attrs: Attrs) returns (out: Outcome<Error>)
      modifies this, dataset
      ensures var res := Extraction.HandleEndTag(old(Value()), old(dataset.Value()), name, attrs, resolver);
              out == Status(res)
              && (res.Ok? ==> Value() == res.value.0 && dataset.Value() == res.value.1)
              && (res.Err? ==> Value() == old(Value()) && dataset.Value() == old(dataset.Value()))
    {
      var lower := Lower(name);
      if lower == "a" {
        out := EndA(attrs);
      } else if lower == "div" {
        EndDiv(attrs);
        out := Pass;
      } else if lower == "html" {
        EndHtml(attrs);
        out := Pass;
      } else {
        out := Pass;
      }
    }

    method StartA(attrs: Attrs, data: Option<string>) returns (out: Outcome<Error>)
      modifies this
      ensures var res := Extraction.StartA(old(Value()), attrs, data);
              out == Status(res) && Value() == if res.Ok? then res.value else old(Value())
    {
      var className := GetClassName(attrs);
      if Contains(className, PaginatorClass) {
        var text := data.GetOr("");
        var n := ParseInt(text);
        if n.None? {
          return Fail(PageNumberNotInt(text));
        }
        numPages := Max(numPages, n.value);
        return Pass;
      }
      if Contains(className, ResultBlockClass) {
        isInResultBlock := true;
      }
      out := Pass;
    }

    method EndA(attrs: Attrs) returns (out: Outcome<Error>)
      modifies this, dataset
      ensures var res := Extraction.EndA(old(Value()), old(dataset.Value()), attrs, resolver);
              out == Status(res)
              && (res.Ok? ==> Value() == res.value.0 && dataset.Value() == res.value.1)
              && (res.Err? ==> Value() == old(Value()) && dataset.Value() == old(dataset.Value()))
    {
      if Contains(GetClassName(attrs), ResultBlockClass) {
        out := dataset.AddAthlete(currentName, currentAlpha2, currentContinentCode, resolver);
        if out.Fail? {
          return;
        }
        isInResultBlock := false;
        return;
      }
      out := Pass;
    }

    method StartDiv(attrs: Attrs, data: Option<string>)
      modifies this
      ensures Value() == Extraction.StartDiv(old(Value()), attrs, data)
    {
      var className := GetClassName(attrs);
      if isInResultBlock && Contains(className, FlagBlockClass) {
        isInResultFlagBlock := true;
        return;
      }
      if isInResultBlock && Contains(className, NameBlockClass) {
        currentName := Strip(PyStrOf(data));
      }
    }

    method EndDiv(attrs: Attrs)
      modifies this
      ensures Value() == Extraction.EndDiv(old(Value()), attrs)
    {
      if isInResultBlock && Contains(GetClassName(attrs), FlagBlockClass) {
        isInResultFlagBlock := false;
      }
    }

    method StartImg(attrs: Attrs, data: Option<string>) returns (out: Outcome<Error>)
      modifies this
      ensures var res := Extraction.StartImg(old(Value()), attrs, resolver);
              out == Status(res) && Value() == if res.Ok? then res.value else old(Value())
    {
      if isInResultFlagBlock && Contains(GetClassName(attrs), FlagImageClass) {
        var imgSrc := SourceOf(attrs);
        if imgSrc == "" {
          return Fail(FlagHasNoSource);
        }
        var m := MatchFlagPath(imgSrc);
        if m.None? {
          return Fail(FlagCodeNotFound(imgSrc));
        }
        var alpha2 := Lookup(resolver.toAlpha2, m.value);
        if alpha2.Err? {
          return Fail(alpha2.error);
        }
        var continentCode := Lookup(resolver.toContinentCode, alpha2.value);
        if continentCode.Err? {
          return Fail(continentCode.error);
        }
        currentAlpha2 := alpha2.value;
        currentContinentCode := continentCode.value;
      }
      out := Pass;
    }

    method EndHtml(attrs: Attrs)
      modifies dataset
      ensures dataset.Value() == Extraction.EndHtml(Value(), old(dataset.Value()))
    {
      dataset.SetNumPages(numPages);
    }
  }

  /** The tokenizer's client: keeps the open elements and routes each callback
      to the tag handlers. */
  class HtmlParser {
    const dataset: DataSet
    const tagHandlers: TagHandlers
    var openingTagStack: seq<Tag>
    var lastTagHasData: bool

    ghost predicate Valid() {
      tagHandlers.dataset == dataset
    }

    function Value(): Machine
      reads this, tagHandlers, dataset
    {
      Machine(openingTagStack, lastTagHasData, tagHandlers.Value(), dataset.Value())
    }

    constructor (dataset: DataSet, resolver: Resolver)
      ensures Valid() && this.dataset == dataset && tagHandlers.resolver == resolver
      ensures fresh(tagHandlers)
      ensures Value() == Fresh(dataset.Value())
    {
      this.dataset := dataset;
      tagHandlers := new TagHandlers(dataset, resolver);
      openingTagStack := [];
      lastTagHasData := false;
    }

    method HandleStartTag(tagName: string, attrs: seq<(string, Option<string>)>) returns (out: Outcome<Error>)
      requires Valid()
      modifies this, tagHandlers, dataset
      ensures var res := OnStartTag(old(Value()), tagName, attrs, tagHandlers.resolver);
              out == Status(res) && (res.Ok? ==> Value() == res.value)
    {
      openingTagStack := openingTagStack + [Tag(tagName, ToDict(attrs))];
      lastTagHasData := false;
      if IsHtmlVoidTag(tagName) {
        out := HandleEndTag(tagName);
      } else {
        out := Pass;
      }
    }

    method HandleEndTag(tagName: string) returns (out: Outcome<Error>)
      requires Valid()
      modifies this, tagHandlers, dataset
      ensures var res := OnEndTag(old(Value()), tagName, tagHandlers.resolver);
              out == Status(res) && (res.Ok? ==> Value() == res.value)
    {
      if !lastTagHasData {
        out := tagHandlers.HandleStartTag(None, openingTagStack);
        if out.Fail? {
          return;
        }
      }
      ghost var m1 := Value();
      for i := |openingTagStack| downto 0
        invariant Value() == m1
        invariant forall j :: i <= j < |openingTagStack| ==> openingTagStack[j].name != tagName
      {
        var endTagName, endTagAttrs := openingTagStack[i].name, openingTagStack[i].attrs;
        if endTagName == tagName {
          assert FindLast(openingTagStack, tagName) == Some(i);
          openingTagStack := openingTagStack[..i] + openingTagStack[i + 1..];
          out := tagHandlers.HandleEndTag(endTagName, endTagAttrs);
          return;
        }
      }
      out := Pass;
    }

    method HandleData(data: string) returns (out: Outcome<Error>)
      requires Valid()
      modifies this, tagHandlers
      ensures var res := OnData(old(Value()), data, tagHandlers.resolver);
              out == Status(res) && (res.Ok? ==> Value() == res.value)
    {
      if openingTagStack == [] {
        // `re.match(r"\s*", data)` matches the empty prefix of any text
        return Pass;
      }
      out := tagHandlers.HandleStartTag(Some(data), openingTagStack);
      if out.Fail? {
        return;
      }
      lastTagHasData := true;
    }

    /** The callbacks the tokenizer makes for one document, one per event. */
    method Feed(events: seq<Event>) returns (out: Outcome<Error>)
      requires Valid()
      modifies this, tagHandlers, dataset
      ensures var res := Extraction.Feed(old(Value()), events, tagHandlers.resolver);
              out == Status(res) && (res.Ok? ==> Value() == res.value)
    {
      var i := 0;
      while i < |events|
        invariant i <= |events|
        invariant Extraction.Feed(old(Value()), events, tagHandlers.resolver)
               == Extraction.Feed(Value(), events[i..], tagHandlers.resolver)
      {
        ghost var m := Value();
        ghost var res := Step(m, events[i], tagHandlers.resolver);
        match events[i] {
          case Open(name, attrList) =>
            out := HandleStartTag(name, attrList);
          case Close(name) =>
            out := HandleEndTag(name);
          case Text(text) =>
            out := HandleData(text);
        }
        assert out == Status(res) && (res.Ok? ==> Value() == res.value);
        if out.Fail? {
          return;
        }
        assert events[i..][0] == events[i] && events[i..][1..] == events[i + 1..];
        FeedAfterStep(m, events[i..], tagHandlers.resolver);
        i := i + 1;
      }
      out := Pass;
    }
  }
}
