/** One athlete's result block, as the tokenizer delivers it, run through a
    fresh parser from start to end. */
module ExtractionExamples {
  import opened Wrappers
  import opened PyStr
  import opened Markup
  import opened FlagPath
  import opened Extraction

  /** A text shorter than `sub` does not contain it. */
  lemma {:induction false} ShorterHasNot(s: string, sub: string)
    requires |s| < |sub|
    ensures !Contains(s, sub)
    decreases |s|
  {
    if s != [] {
      ShorterHasNot(s[1..], sub);
    }
  }

  /** A result link is no pagination link. */
  lemma ResultClassFacts()
    ensures Contains(ResultBlockClass, ResultBlockClass) && !Contains(ResultBlockClass, PaginatorClass)
  {
    ShorterHasNot(ResultBlockClass, PaginatorClass);
  }

  /** A name block is no flag block. */
  lemma NameClassFacts()
    ensures !Contains(NameBlockClass, FlagBlockClass)
  {
    ShorterHasNot(NameBlockClass[1..], FlagBlockClass);
    assert NameBlockClass[13] != FlagBlockClass[13];
  }

  /** The block and image classes pass their own tests. */
  lemma FlagClassFacts()
    ensures Contains(NameBlockClass, NameBlockClass)
    ensures Contains(FlagBlockClass, FlagBlockClass) && Contains(FlagImageClass, FlagImageClass)
  {
  }

  lemma TagNameFacts()
    ensures Lower("a") == "a" && Lower("div") == "div" && Lower("img") == "img"
    ensures !IsHtmlVoidTag("a") && !IsHtmlVoidTag("div") && IsHtmlVoidTag("img")
  {
    LowerOfLowerCase("a");
    LowerOfLowerCase("div");
    LowerOfLowerCase("img");
  }

  const SwissFlag := "/fileadmin/Images/Icons/Flags/Europe/SUI.png"

  lemma SwissFlagMatches()
    ensures MatchFlagPath(SwissFlag) == Some("SUI")
  {
    var rest := SwissFlag[|FlagDir|..];
    assert SwissFlag[..|FlagDir|] == FlagDir;
    assert rest == "Europe/SUI.png";
    IndexOfFirstSlash(rest, 6);
    assert rest[7..10] == "SUI";
    assert rest[11..14] == "png";
  }

  /** A name padded with one space on each side strips back to the name. */
  lemma StripPadded(t: string)
    requires t != [] && !IsSpace(t[0]) && !IsSpace(t[|t| - 1])
    ensures Strip([' '] + t + [' ']) == t
  {
    var s := [' '] + t + [' '];
    assert s[1..] == t + [' '];
    assert StripLeft(t + [' ']) == t + [' '];
    assert StripLeft(s) == t + [' '];
    assert (t + [' '])[..|t|] == t;
    assert StripRight(t + [' ']) == StripRight(t);
  }

  function ClassAttr(c: string): seq<(string, Option<string>)> {
    [("class", Some(c))]
  }

  /** The result link opens, then text, then the name block opens. */
  function LinkEvents(gap: string): seq<Event> {
    [Open("a", ClassAttr(ResultBlockClass)), Text(gap), Open("div", ClassAttr(NameBlockClass))]
  }

  /** The name block's text and closing tag, then the flag block opens. */
  function NameEvents(text: string): seq<Event> {
    [Text(text), Close("div"), Open("div", ClassAttr(FlagBlockClass))]
  }

  const FlagImageAttrs := [("class", Some(FlagImageClass)), ("src", Some(SwissFlag))]

  /** Text in the flag block, the flag image, the flag block's closing tag. */
  function FlagEvents(gap: string): seq<Event> {
    [Text(gap), Open("img", FlagImageAttrs), Close("div")]
  }

  /** The tokenizer's events for one result block: the name padded with
      spaces, and any text `gap` (on the page, white space) after the opening
      tags of the link and of the flag block. */
  function OneBlock(name: string, gap: string): seq<Event> {
    LinkEvents(gap) + NameEvents([' '] + name + [' ']) + FlagEvents(gap) + [Close("a")]
  }

  const ResultLink := Tag("a", map["class" := Some(ResultBlockClass)])
  const NameBlock := Tag("div", map["class" := Some(NameBlockClass)])
  const FlagBlock := Tag("div", map["class" := Some(FlagBlockClass)])
  const FlagImage := Tag("img", map["class" := Some(FlagImageClass), "src" := Some(SwissFlag)])

  /** A result link's opening handler enters the result block, whatever its text. */
  lemma ResultLinkStart(f: Fields, data: Option<string>)
    ensures StartA(f, ResultLink.attrs, data) == Ok(f.(inResultBlock := true))
  {
    assert GetClassName(ResultLink.attrs) == ResultBlockClass;
    ResultClassFacts();
  }

  /** An element that is not void is pushed, and nothing else happens. */
  lemma OpenPushes(m: Machine, name: string, attrList: seq<(string, Option<string>)>, t: Tag, r: Resolver)
    requires !IsHtmlVoidTag(name) && t == Tag(name, ToDict(attrList))
    ensures Step(m, Open(name, attrList), r) == Ok(m.(stack := m.stack + [t], lastTagHasData := false))
  {
  }

  lemma OpenResultLink(d: Data, r: Resolver)
    ensures Step(Fresh(d), Open("a", ClassAttr(ResultBlockClass)), r)
         == Ok(Machine([ResultLink], false, InitialFields, d))
  {
    TagNameFacts();
    assert ToDict(ClassAttr(ResultBlockClass)) == ResultLink.attrs;
    OpenPushes(Fresh(d), "a", ClassAttr(ResultBlockClass), ResultLink, r);
    assert [] + [ResultLink] == [ResultLink];
  }

  lemma TextInResultLink(d: Data, r: Resolver, f: Fields, gap: string)
    ensures Step(Machine([ResultLink], false, f, d), Text(gap), r)
         == Ok(Machine([ResultLink], true, f.(inResultBlock := true), d))
  {
    TagNameFacts();
    ResultLinkStart(f, Some(gap));
  }

  lemma OpenNameBlock(d: Data, r: Resolver, f: Fields)
    ensures Step(Machine([ResultLink], true, f, d), Open("div", ClassAttr(NameBlockClass)), r)
         == Ok(Machine([ResultLink, NameBlock], false, f, d))
  {
    TagNameFacts();
    assert ToDict(ClassAttr(NameBlockClass)) == NameBlock.attrs;
    OpenPushes(Machine([ResultLink], true, f, d), "div", ClassAttr(NameBlockClass), NameBlock, r);
    assert [ResultLink] + [NameBlock] == [ResultLink, NameBlock];
  }

  /** Inside a result block, the name block's opening handler takes the stripped text. */
  lemma NameBlockStart(f: Fields, stack: seq<Tag>, text: string, r: Resolver)
    requires f.inResultBlock && stack != [] && stack[|stack| - 1] == NameBlock
    ensures HandleStartTag(f, stack, Some(text), r) == Ok(f.(name := Strip(text)))
  {
    NameClassFacts();
    FlagClassFacts();
    assert GetClassName(NameBlock.attrs) == NameBlockClass;
    assert StartDiv(f, NameBlock.attrs, Some(text)) == f.(name := Strip(text));
    TagNameFacts();
  }

  /** Text inside an element settles the fields its opening handler computes. */
  lemma TextStep(m: Machine, text: string, r: Resolver, f1: Fields)
    requires m.stack != [] && HandleStartTag(m.fields, m.stack, Some(text), r) == Ok(f1)
    ensures Step(m, Text(text), r) == Ok(m.(fields := f1, lastTagHasData := true))
  {
  }

  lemma TextInNameBlock(d: Data, r: Resolver, f: Fields, text: string)
    requires f.inResultBlock
    ensures Step(Machine([ResultLink, NameBlock], false, f, d), Text(text), r)
         == Ok(Machine([ResultLink, NameBlock], true, f.(name := Strip(text)), d))
  {
    var m := Machine([ResultLink, NameBlock], false, f, d);
    NameBlockStart(f, m.stack, text, r);
    TextStep(m, text, r, f.(name := Strip(text)));
  }

  /** A name block's closing handler changes nothing. */
  lemma NameBlockEnd(f: Fields, d: Data, r: Resolver)
    ensures HandleEndTag(f, d, "div", NameBlock.attrs, r) == Ok((f, d))
  {
    NameClassFacts();
    assert GetClassName(NameBlock.attrs) == NameBlockClass;
    assert EndDiv(f, NameBlock.attrs) == f;
    TagNameFacts();
  }

  lemma CloseNameBlock(d: Data, r: Resolver, f: Fields)
    ensures Step(Machine([ResultLink, NameBlock], true, f, d), Close("div"), r)
         == Ok(Machine([ResultLink], true, f, d))
  {
    NameBlockEnd(f, d, r);
    assert FindLast([ResultLink, NameBlock], "div") == Some(1);
    assert RemoveAt([ResultLink, NameBlock], 1) == [ResultLink];
  }

  lemma OpenFlagBlock(d: Data, r: Resolver, f: Fields)
    ensures Step(Machine([ResultLink], true, f, d), Open("div", ClassAttr(FlagBlockClass)), r)
         == Ok(Machine([ResultLink, FlagBlock], false, f, d))
  {
    TagNameFacts();
    assert ToDict(ClassAttr(FlagBlockClass)) == FlagBlock.attrs;
    OpenPushes(Machine([ResultLink], true, f, d), "div", ClassAttr(FlagBlockClass), FlagBlock, r);
    assert [ResultLink] + [FlagBlock] == [ResultLink, FlagBlock];
  }

  lemma TextInFlagBlock(d: Data, r: Resolver, f: Fields, gap: string)
    requires f.inResultBlock
    ensures Step(Machine([ResultLink, FlagBlock], false, f, d), Text(gap), r)
         == Ok(Machine([ResultLink, FlagBlock], true, f.(inResultFlagBlock := true), d))
  {
    TagNameFacts();
    FlagClassFacts();
    assert GetClassName(FlagBlock.attrs) == FlagBlockClass;
  }

  /** The flag image is a void element: its opening handler runs at once and
      it leaves the stack as it found it. */
  lemma OpenFlagImage(d: Data, r: Resolver, f: Fields, alpha2: string, continentCode: string)
    requires f.inResultFlagBlock
    requires r.toAlpha2("SUI") == Some(alpha2) && r.toContinentCode(alpha2) == Some(continentCode)
    ensures Step(Machine([ResultLink, FlagBlock], true, f, d), Open("img", FlagImageAttrs), r)
         == Ok(Machine([ResultLink, FlagBlock], false, f.(alpha2 := alpha2, continentCode := continentCode), d))
  {
    TagNameFacts();
    FlagClassFacts();
    SwissFlagMatches();
    assert FlagImageAttrs[..1] == [("class", Some(FlagImageClass))];
    assert ToDict(FlagImageAttrs) == FlagImage.attrs;
    assert GetClassName(FlagImage.attrs) == FlagImageClass;
    assert SourceOf(FlagImage.attrs) == SwissFlag;
    var f1 := f.(alpha2 := alpha2, continentCode := continentCode);
    var m := Machine([ResultLink, FlagBlock], true, f, d);
    var s := [ResultLink, FlagBlock, FlagImage];
    var m1 := m.(stack := s, lastTagHasData := false);
    assert m.stack + [FlagImage] == s;
    assert StartImg(f, FlagImage.attrs, r) == Ok(f1);
    assert HandleStartTag(f, s, None, r) == Ok(f1);
    assert PendingOpen(m1, r) == Ok(f1);
    assert FindLast(s, "img") == Some(2);
    assert HandleEndTag(f1, d, "img", FlagImage.attrs, r) == Ok((f1, d));
    assert RemoveAt(s, 2) == [ResultLink, FlagBlock];
    assert OnEndTag(m1, "img", r) == Ok(Machine([ResultLink, FlagBlock], false, f1, d));
  }

  /** The flag block's opening handler is owed again after the image, and
      runs before the block's closing handler. */
  lemma CloseFlagBlock(d: Data, r: Resolver, f: Fields)
    requires f.inResultBlock
    ensures Step(Machine([ResultLink, FlagBlock], false, f, d), Close("div"), r)
         == Ok(Machine([ResultLink], false, f.(inResultFlagBlock := false), d))
  {
    TagNameFacts();
    FlagClassFacts();
    assert GetClassName(FlagBlock.attrs) == FlagBlockClass;
    assert FindLast([ResultLink, FlagBlock], "div") == Some(1);
    assert RemoveAt([ResultLink, FlagBlock], 1) == [ResultLink];
  }

  lemma CloseResultLink(d: Data, r: Resolver, f: Fields, athlete: Athlete)
    requires MakeAthlete(f.name, f.alpha2, f.continentCode, r) == Ok(athlete)
    ensures Step(Machine([ResultLink], false, f, d), Close("a"), r)
         == Ok(Machine([], false, f.(inResultBlock := false), d.(athletes := d.athletes + [athlete])))
  {
    TagNameFacts();
    ResultLinkStart(f, None);
    assert GetClassName(ResultLink.attrs) == ResultBlockClass;
    ResultClassFacts();
    assert FindLast([ResultLink], "a") == Some(0);
    assert RemoveAt([ResultLink], 0) == [];
  }

  /** A document whose first event leads to `m1` continues from `m1`. */
  lemma FeedFrom(m: Machine, e: Event, rest: seq<Event>, r: Resolver, m1: Machine)
    requires Step(m, e, r) == Ok(m1)
    ensures Feed(m, [e] + rest, r) == Feed(m1, rest, r)
  {
    assert ([e] + rest)[0] == e && ([e] + rest)[1..] == rest;
  }

  /** Two documents fed one after the other are one document. */
  lemma {:induction false} FeedConcat(m: Machine, a: seq<Event>, b: seq<Event>, r: Resolver)
    requires Feed(m, a, r).Ok?
    ensures Feed(m, a + b, r) == Feed(Feed(m, a, r).value, b, r)
    decreases |a|
  {
    if a == [] {
      assert a + b == b;
    } else {
      var m1 := Step(m, a[0], r).value;
      FeedAfterStep(m, a, r);
      assert (a + b)[0] == a[0] && (a + b)[1..] == a[1..] + b;
      FeedAfterStep(m, a + b, r);
      FeedConcat(m1, a[1..], b, r);
    }
  }

  /** Three steps in a row. */
  lemma FeedThree(m0: Machine, m1: Machine, m2: Machine, m3: Machine, e0: Event, e1: Event, e2: Event, r: Resolver)
    requires Step(m0, e0, r) == Ok(m1) && Step(m1, e1, r) == Ok(m2) && Step(m2, e2, r) == Ok(m3)
    ensures Feed(m0, [e0, e1, e2], r) == Ok(m3)
  {
    FeedFrom(m2, e2, [], r, m3);
    FeedFrom(m1, e1, [e2], r, m2);
    FeedFrom(m0, e0, [e1, e2], r, m1);
  }

  /** The link opens, its text enters the result block, the name block opens. */
  lemma LinkSection(d: Data, r: Resolver, gap: string)
    ensures Feed(Fresh(d), LinkEvents(gap), r)
         == Ok(Machine([ResultLink, NameBlock], false, InitialFields.(inResultBlock := true), d))
  {
    var f1 := InitialFields.(inResultBlock := true);
    OpenResultLink(d, r);
    TextInResultLink(d, r, InitialFields, gap);
    OpenNameBlock(d, r, f1);
    FeedThree(Fresh(d), Machine([ResultLink], false, InitialFields, d), Machine([ResultLink], true, f1, d),
              Machine([ResultLink, NameBlock], false, f1, d),
              Open("a", ClassAttr(ResultBlockClass)), Text(gap), Open("div", ClassAttr(NameBlockClass)), r);
  }

  /** The name block's text becomes the name; the name block closes; the flag block opens. */
  lemma NameSection(d: Data, r: Resolver, f: Fields, text: string)
    requires f.inResultBlock
    ensures Feed(Machine([ResultLink, NameBlock], false, f, d), NameEvents(text), r)
         == Ok(Machine([ResultLink, FlagBlock], false, f.(name := Strip(text)), d))
  {
    var f2 := f.(name := Strip(text));
    TextInNameBlock(d, r, f, text);
    CloseNameBlock(d, r, f2);
    OpenFlagBlock(d, r, f2);
    FeedThree(Machine([ResultLink, NameBlock], false, f, d), Machine([ResultLink, NameBlock], true, f2, d),
              Machine([ResultLink], true, f2, d), Machine([ResultLink, FlagBlock], false, f2, d),
              Text(text), Close("div"), Open("div", ClassAttr(FlagBlockClass)), r);
  }

  /** The flag block's text enters it; the flag image sets the codes; the flag block closes. */
  lemma FlagSection(d: Data, r: Resolver, f: Fields, gap: string, alpha2: string, continentCode: string)
    requires f.inResultBlock
    requires r.toAlpha2("SUI") == Some(alpha2) && r.toContinentCode(alpha2) == Some(continentCode)
    ensures Feed(Machine([ResultLink, FlagBlock], false, f, d), FlagEvents(gap), r)
         == Ok(Machine([ResultLink], false,
                       f.(inResultFlagBlock := false, alpha2 := alpha2, continentCode := continentCode), d))
  {
    var f3 := f.(inResultFlagBlock := true);
    var f4 := f3.(alpha2 := alpha2, continentCode := continentCode);
    TextInFlagBlock(d, r, f, gap);
    OpenFlagImage(d, r, f3, alpha2, continentCode);
    CloseFlagBlock(d, r, f4);
    FeedThree(Machine([ResultLink, FlagBlock], false, f, d), Machine([ResultLink, FlagBlock], true, f3, d),
              Machine([ResultLink, FlagBlock], false, f4, d), Machine([ResultLink], false, f4.(inResultFlagBlock := false), d),
              Text(gap), Open("img", FlagImageAttrs), Close("div"), r);
  }

  /** A result block with a name block and a matching flag image, on a fresh
      parser, appends exactly one complete record and changes nothing else
      in the dataset. */
  lemma OneBlockEmitsOneRecord(d: Data, r: Resolver, name: string, gap: string)
    requires name != [] && !IsSpace(name[0]) && !IsSpace(name[|name| - 1])
    requires r.toAlpha2("SUI") == Some("CH") && r.toContinentCode("CH") == Some("EU")
    requires r.countryName("CH") == Some("Switzerland") && r.continentName("EU") == Some("Europe")
    ensures RunPage(d, OneBlock(name, gap), r)
            == Ok(d.(athletes := d.athletes + [Athlete(name, "CH", "EU", "Switzerland", "Europe")]))
  {
    var athlete := Athlete(name, "CH", "EU", "Switzerland", "Europe");
    var padded := [' '] + name + [' '];
    StripPadded(name);
    var f1 := InitialFields.(inResultBlock := true);
    var f5 := f1.(name := name, alpha2 := "CH", continentCode := "EU");
    var e0, e1, e2 := LinkEvents(gap), NameEvents(padded), FlagEvents(gap);
    LinkSection(d, r, gap);
    NameSection(d, r, f1, padded);
    FlagSection(d, r, f1.(name := name), gap, "CH", "EU");
    CloseResultLink(d, r, f5, athlete);
    FeedFrom(Machine([ResultLink], false, f5, d), Close("a"), [], r,
             Machine([], false, f5.(inResultBlock := false), d.(athletes := d.athletes + [athlete])));
    FeedConcat(Fresh(d), e0, e1, r);
    FeedConcat(Fresh(d), e0 + e1, e2, r);
    FeedConcat(Fresh(d), e0 + e1 + e2, [Close("a")], r);
  }
}
