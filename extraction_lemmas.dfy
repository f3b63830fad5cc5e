/** What the extraction state machine guarantees: the stack discipline of
    the parser callbacks, the page count, record emission and the handlers'
    class-attribute rules. */
module ExtractionLemmas {
  import opened Wrappers
  import opened PyStr
  import opened Markup
  import opened FlagPath
  import opened Extraction

  // ----- parser callbacks -----

  /** A closing tag removes exactly the topmost entry with its name, keeping the
      others in order, and hands that entry's attributes to the closing handler;
      with no such entry the stack and the dataset stay as they are. */
  lemma CloseRemovesTopmost(m: Machine, name: string, r: Resolver)
    requires OnEndTag(m, name, r).Ok?
    ensures PendingOpen(m, r).Ok?
    ensures var m1 := OnEndTag(m, name, r).value;
            (forall j :: 0 <= j < |m.stack| ==> m.stack[j].name != name)
            ==> m1 == m.(fields := PendingOpen(m, r).value)
    ensures var m1 := OnEndTag(m, name, r).value;
            (exists j :: 0 <= j < |m.stack| && m.stack[j].name == name)
            ==> exists i :: 0 <= i < |m.stack| && m.stack[i].name == name
                  && (forall j :: i < j < |m.stack| ==> m.stack[j].name != name)
                  && m1.stack == m.stack[..i] + m.stack[i + 1..]
                  && HandleEndTag(PendingOpen(m, r).value, m.data, name, m.stack[i].attrs, r)
                     == Ok((m1.fields, m1.data))
  {
    match FindLast(m.stack, name)
    case None =>
    case Some(i) =>
      assert m.stack[i].name == name;
  }

  /** A closing tag on an empty stack with no text since the last opening tag
      fails on the missing top entry. */
  lemma CloseOnEmptyStackFails(m: Machine, name: string, r: Resolver)
    requires m.stack == [] && !m.lastTagHasData
    ensures OnEndTag(m, name, r) == Err(EmptyStack)
  {
  }

  /** After text, a closing tag owes no opening handler. */
  lemma TextSettlesPendingOpen(m: Machine, text: string, r: Resolver)
    requires m.stack != [] && OnData(m, text, r).Ok?
    ensures PendingOpen(OnData(m, text, r).value, r) == Ok(OnData(m, text, r).value.fields)
  {
  }

  /** Text outside every element changes nothing; the raise after the
      whitespace match can never be reached. */
  lemma TextOutsideElementsIgnored(m: Machine, text: string, r: Resolver)
    requires m.stack == []
    ensures OnData(m, text, r) == Ok(m)
  {
  }

  /** Inside an element, text runs the top entry's opening handler with that text
      and marks the element as having text. */
  lemma TextRunsOpenHandler(m: Machine, text: string, r: Resolver)
    requires m.stack != []
    ensures OnData(m, text, r).Ok? <==> HandleStartTag(m.fields, m.stack, Some(text), r).Ok?
    ensures OnData(m, text, r).Ok? ==>
              var m1 := OnData(m, text, r).value;
              m1.stack == m.stack && m1.data == m.data && m1.lastTagHasData
              && Ok(m1.fields) == HandleStartTag(m.fields, m.stack, Some(text), r)
  {
  }

  /** A void element is opened and closed in one callback: its opening handler
      runs once with `None`, then its closing handler, and the stack ends as it
      began. */
  lemma VoidTagClosesAtOnce(m: Machine, name: string, attrList: seq<(string, Option<string>)>, r: Resolver)
    requires IsHtmlVoidTag(name)
    ensures var t := Tag(name, ToDict(attrList));
            OnStartTag(m, name, attrList, r) ==
              match HandleStartTag(m.fields, m.stack + [t], None, r)
              case Err(e) => Err(e)
              case Ok(f1) =>
                match HandleEndTag(f1, m.data, name, t.attrs, r)
                case Err(e) => Err(e)
                case Ok(fd) => Ok(Machine(m.stack, false, fd.0, fd.1))
  {
    var t := Tag(name, ToDict(attrList));
    var s := m.stack + [t];
    assert FindLast(s, name) == Some(|m.stack|);
    assert RemoveAt(s, |m.stack|) == m.stack;
  }

  /** Only `a`, `div` and `img` have an opening handler: any other element's
      text, or its missing text, leaves the fields as they are. */
  lemma OtherOpenTagsIgnored(f: Fields, stack: seq<Tag>, data: Option<string>, r: Resolver)
    requires stack != []
    requires var name := Lower(stack[|stack| - 1].name); name != "a" && name != "div" && name != "img"
    ensures HandleStartTag(f, stack, data, r) == Ok(f)
  {
  }

  /** Only `a`, `div` and `html` have a closing handler: closing any other
      element leaves the fields and the dataset as they are. */
  lemma OtherCloseTagsIgnored(f: Fields, d: Data, name: string, attrs: Attrs, r: Resolver)
    requires Lower(name) != "a" && Lower(name) != "div" && Lower(name) != "html"
    ensures HandleEndTag(f, d, name, attrs, r) == Ok((f, d))
  {
  }

  // ----- page count -----

  /** `events[k]` is text whose number is `n`. */
  ghost predicate Announced(events: seq<Event>, k: int, n: int) {
    0 <= k < |events| && events[k].Text? && ParseInt(events[k].data) == Some(n)
  }

  /** `n` is the page count `n0` the run started from, or a number some text announced. */
  ghost predicate CountFrom(n0: int, events: seq<Event>, n: int) {
    n == n0 || exists k :: Announced(events, k, n)
  }

  /** A pagination link with no text fails: `None` becomes the empty string, which is no number. */
  lemma PaginatorWithoutTextFails(f: Fields, attrs: Attrs)
    requires Contains(GetClassName(attrs), PaginatorClass)
    ensures StartA(f, attrs, None) == Err(PageNumberNotInt(""))
  {
    ParseIntDecimal(0);
  }

  lemma StartAPageCount(f: Fields, attrs: Attrs, data: Option<string>)
    requires StartA(f, attrs, data).Ok?
    ensures var f1 := StartA(f, attrs, data).value;
            f1.numPages >= f.numPages
            && (f1.numPages == f.numPages || (data.Some? && ParseInt(data.value) == Some(f1.numPages)))
  {
    if data.None? && Contains(GetClassName(attrs), PaginatorClass) {
      PaginatorWithoutTextFails(f, attrs);
    }
  }

  lemma OpenHandlerPageCount(f: Fields, stack: seq<Tag>, data: Option<string>, r: Resolver)
    requires HandleStartTag(f, stack, data, r).Ok?
    ensures var f1 := HandleStartTag(f, stack, data, r).value;
            f1.numPages >= f.numPages
            && (f1.numPages == f.numPages || (data.Some? && ParseInt(data.value) == Some(f1.numPages)))
  {
    var top := stack[|stack| - 1];
    if Lower(top.name) == "a" {
      StartAPageCount(f, top.attrs, data);
    }
  }

  lemma ClosePageCount(m: Machine, name: string, r: Resolver)
    requires OnEndTag(m, name, r).Ok?
    ensures var m1 := OnEndTag(m, name, r).value;
            m1.fields.numPages == m.fields.numPages
            && (m1.data.numPages == m.data.numPages || m1.data.numPages == m.fields.numPages)
  {
    if !m.lastTagHasData {
      OpenHandlerPageCount(m.fields, m.stack, None, r);
    }
  }

  lemma StepPageCount(m: Machine, e: Event, r: Resolver)
    requires Step(m, e, r).Ok?
    ensures var m1 := Step(m, e, r).value;
            m1.fields.numPages >= m.fields.numPages
            && (m1.fields.numPages == m.fields.numPages || (e.Text? && ParseInt(e.data) == Some(m1.fields.numPages)))
            && (m1.data.numPages == m.data.numPages || m1.data.numPages == m.fields.numPages)
  {
    match e
    case Text(text) =>
      if m.stack != [] {
        OpenHandlerPageCount(m.fields, m.stack, Some(text), r);
      }
    case Close(name) => ClosePageCount(m, name, r);
    case Open(name, attrList) =>
      var m0 := m.(stack := m.stack + [Tag(name, ToDict(attrList))], lastTagHasData := false);
      if IsHtmlVoidTag(name) {
        ClosePageCount(m0, name, r);
      }
  }

  /** Over a document the handlers' page count never decreases and is always the
      starting count or a number announced by some text; the dataset's count is
      its old value or such a number too. */
  lemma {:induction false} FeedPageCount(m: Machine, events: seq<Event>, r: Resolver)
    requires Feed(m, events, r).Ok?
    ensures var m1 := Feed(m, events, r).value;
            m1.fields.numPages >= m.fields.numPages
            && CountFrom(m.fields.numPages, events, m1.fields.numPages)
            && (m1.data.numPages == m.data.numPages || CountFrom(m.fields.numPages, events, m1.data.numPages))
    decreases |events|
  {
    if events != [] {
      var mA := Step(m, events[0], r).value;
      var rest := events[1..];
      StepPageCount(m, events[0], r);
      FeedPageCount(mA, rest, r);
      var m1 := Feed(mA, rest, r).value;
      assert Feed(m, events, r) == Feed(mA, rest, r);
      forall n | CountFrom(mA.fields.numPages, rest, n) ensures CountFrom(m.fields.numPages, events, n) {
        if n == mA.fields.numPages {
          if n != m.fields.numPages {
            assert Announced(events, 0, n);
          }
        } else {
          var k :| Announced(rest, k, n);
          assert Announced(events, k + 1, n);
        }
      }
    }
  }

  /** A page leaves the dataset's count as it was, or sets it to 0 or to a
      number announced on that page. */
  lemma PageCount(d: Data, events: seq<Event>, r: Resolver)
    requires RunPage(d, events, r).Ok?
    ensures var d1 := RunPage(d, events, r).value;
            d1.numPages == d.numPages || CountFrom(0, events, d1.numPages)
  {
    FeedPageCount(Fresh(d), events, r);
  }

  /** Each pagination text raises the count to the larger of the two. */
  lemma PaginatorTakesMax(f: Fields, attrs: Attrs, text: string, n: int)
    requires Contains(GetClassName(attrs), PaginatorClass) && ParseInt(text) == Some(n)
    ensures StartA(f, attrs, Some(text)) == Ok(f.(numPages := Max(f.numPages, n)))
  {
  }

  lemma SmallNumbers()
    ensures ParseInt("1") == Some(1) && ParseInt("2") == Some(2)
    ensures ParseInt("3") == Some(3) && ParseInt("5") == Some(5)
  {
    ParseIntDecimal(1);
    ParseIntDecimal(2);
    ParseIntDecimal(3);
    ParseIntDecimal(5);
    assert Decimal(1) == "1" && Decimal(2) == "2" && Decimal(3) == "3" && Decimal(5) == "5";
  }

  function MaxOf(n0: int, ns: seq<int>): int
    decreases |ns|
  {
    if ns == [] then n0 else MaxOf(Max(n0, ns[0]), ns[1..])
  }

  lemma MaxOfExample()
    ensures MaxOf(0, [1, 2, 5, 3]) == 5 && MaxOf(0, [5, 3, 1, 2]) == 5
  {
    var n1, n2 := [1, 2, 5, 3], [5, 3, 1, 2];
    assert n1[1..] == [2, 5, 3] && n1[1..][1..] == [5, 3] && n1[1..][1..][1..] == [3];
    assert n2[1..] == [3, 1, 2] && n2[1..][1..] == [1, 2] && n2[1..][1..][1..] == [2];
  }

  // ----- records -----

  /** The record constructor copies the three fields and looks up both display
      names; it fails exactly when a lookup does. */
  lemma MakeAthleteFields(name: string, alpha2: string, continentCode: string, r: Resolver)
    ensures MakeAthlete(name, alpha2, continentCode, r).Ok?
            <==> r.countryName(alpha2).Some? && r.continentName(continentCode).Some?
    ensures MakeAthlete(name, alpha2, continentCode, r).Ok? ==>
              var a := MakeAthlete(name, alpha2, continentCode, r).value;
              a.name == name && a.alpha2 == alpha2 && a.continentCode == continentCode
              && r.countryName(alpha2) == Some(a.countryName) && r.continentName(continentCode) == Some(a.continentName)
  {
  }

  /** Closing a result link appends exactly one record built from the current
      fields, whether or not a result block is open, and leaves the block; the
      fields are not cleared. */
  lemma EndAEmitsOne(f: Fields, d: Data, attrs: Attrs, r: Resolver)
    requires Contains(GetClassName(attrs), ResultBlockClass)
    ensures EndA(f, d, attrs, r).Ok? <==> MakeAthlete(f.name, f.alpha2, f.continentCode, r).Ok?
    ensures EndA(f, d, attrs, r).Ok? ==>
              var (f1, d1) := EndA(f, d, attrs, r).value;
              |d1.athletes| == |d.athletes| + 1 && d1.athletes[..|d.athletes|] == d.athletes
              && Ok(d1.athletes[|d.athletes|]) == MakeAthlete(f.name, f.alpha2, f.continentCode, r)
              && d1.numPages == d.numPages && f1 == f.(inResultBlock := false)
  {
    if EndA(f, d, attrs, r).Ok? {
      var (f1, d1) := EndA(f, d, attrs, r).value;
      assert d1.athletes[..|d.athletes|] == d.athletes;
    }
  }

  /** A result link opens a result block, whatever text follows its opening tag. */
  lemma ResultLinkOpens(f: Fields, attrs: Attrs, data: Option<string>)
    requires Contains(GetClassName(attrs), ResultBlockClass) && !Contains(GetClassName(attrs), PaginatorClass)
    ensures StartA(f, attrs, data) == Ok(f.(inResultBlock := true))
  {
  }

  /** Inside a result block, a flag block's closing tag leaves the flag block. */
  lemma FlagBlockCloses(f: Fields, attrs: Attrs)
    requires f.inResultBlock && Contains(GetClassName(attrs), FlagBlockClass)
    ensures EndDiv(f, attrs) == f.(inResultFlagBlock := false)
  {
  }

  /** Inside a result block, a name block's text, stripped, becomes the current name. */
  lemma NameBlockTakesText(f: Fields, attrs: Attrs, text: string)
    requires f.inResultBlock && Contains(GetClassName(attrs), NameBlockClass)
    requires !Contains(GetClassName(attrs), FlagBlockClass)
    ensures StartDiv(f, attrs, Some(text)) == f.(name := Strip(text))
  {
  }

  lemma CloseAppendsOnly(m: Machine, name: string, r: Resolver)
    requires OnEndTag(m, name, r).Ok?
    ensures m.data.athletes <= OnEndTag(m, name, r).value.data.athletes
  {
    var f1 := PendingOpen(m, r).value;
    match FindLast(m.stack, name)
    case None =>
    case Some(i) =>
      var attrs := m.stack[i].attrs;
      if Lower(m.stack[i].name) == "a" && Contains(GetClassName(attrs), ResultBlockClass) {
        EndAEmitsOne(f1, m.data, attrs, r);
      }
  }

  lemma StepAppendsOnly(m: Machine, e: Event, r: Resolver)
    requires Step(m, e, r).Ok?
    ensures m.data.athletes <= Step(m, e, r).value.data.athletes
  {
    match e
    case Text(_) =>
    case Close(name) => CloseAppendsOnly(m, name, r);
    case Open(name, attrList) =>
      var m0 := m.(stack := m.stack + [Tag(name, ToDict(attrList))], lastTagHasData := false);
      if IsHtmlVoidTag(name) {
        CloseAppendsOnly(m0, name, r);
      }
  }

  /** A document only appends records: those already collected stay, in order. */
  lemma {:induction false} FeedAppendsOnly(m: Machine, events: seq<Event>, r: Resolver)
    requires Feed(m, events, r).Ok?
    ensures m.data.athletes <= Feed(m, events, r).value.data.athletes
    decreases |events|
  {
    if events != [] {
      var mA := Step(m, events[0], r).value;
      StepAppendsOnly(m, events[0], r);
      FeedAppendsOnly(mA, events[1..], r);
    }
  }

  /** The machine with `pre` placed before the records collected so far. */
  function Shift(m: Machine, pre: seq<Athlete>): Machine {
    m.(data := m.data.(athletes := pre + m.data.athletes))
  }

  function ShiftResult(res: Result<Machine, Error>, pre: seq<Athlete>): Result<Machine, Error> {
    match res
    case Ok(m) => Ok(Shift(m, pre))
    case Err(e) => Err(e)
  }

  lemma CloseShift(m: Machine, name: string, r: Resolver, pre: seq<Athlete>)
    ensures OnEndTag(Shift(m, pre), name, r) == ShiftResult(OnEndTag(m, name, r), pre)
  {
    assert PendingOpen(Shift(m, pre), r) == PendingOpen(m, r);
    match PendingOpen(m, r)
    case Err(_) =>
    case Ok(f1) =>
      match FindLast(m.stack, name)
      case None =>
      case Some(i) =>
        var attrs := m.stack[i].attrs;
        var d := m.data;
        if Contains(GetClassName(attrs), ResultBlockClass) && Lower(name) == "a" {
          match MakeAthlete(f1.name, f1.alpha2, f1.continentCode, r)
          case Err(_) =>
          case Ok(a) =>
            assert pre + (d.athletes + [a]) == (pre + d.athletes) + [a];
        }
  }

  lemma StepShift(m: Machine, e: Event, r: Resolver, pre: seq<Athlete>)
    ensures Step(Shift(m, pre), e, r) == ShiftResult(Step(m, e, r), pre)
  {
    match e
    case Text(_) =>
    case Close(name) => CloseShift(m, name, r, pre);
    case Open(name, attrList) =>
      var m0 := m.(stack := m.stack + [Tag(name, ToDict(attrList))], lastTagHasData := false);
      assert Shift(m, pre).(stack := m0.stack, lastTagHasData := false) == Shift(m0, pre);
      CloseShift(m0, name, r, pre);
  }

  lemma {:induction false} FeedShift(m: Machine, events: seq<Event>, r: Resolver, pre: seq<Athlete>)
    ensures Feed(Shift(m, pre), events, r) == ShiftResult(Feed(m, events, r), pre)
    decreases |events|
  {
    if events != [] {
      StepShift(m, events[0], r, pre);
      if Step(m, events[0], r).Ok? {
        FeedShift(Step(m, events[0], r).value, events[1..], r, pre);
      }
    }
  }

  /** A page's records do not depend on the records collected before it: they
      are appended after them, and the page fails or not regardless. */
  lemma PageIndependentOfEarlierRecords(d: Data, events: seq<Event>, r: Resolver, pre: seq<Athlete>)
    ensures RunPage(d.(athletes := pre + d.athletes), events, r)
            == match RunPage(d, events, r)
               case Ok(d1) => Ok(d1.(athletes := pre + d1.athletes))
               case Err(e) => Err(e)
  {
    assert Fresh(d.(athletes := pre + d.athletes)) == Shift(Fresh(d), pre);
    FeedShift(Fresh(d), events, r, pre);
  }

  // ----- class-attribute rules -----

  /** Inside a flag block a flag image without a source fails, one whose source
      is not a flag path fails, and one whose source is a flag path sets the
      country and continent codes its lookups give and nothing else. */
  lemma FlagImageOutcome(f: Fields, attrs: Attrs, r: Resolver)
    requires f.inResultFlagBlock && Contains(GetClassName(attrs), FlagImageClass)
    ensures SourceOf(attrs) == "" ==> StartImg(f, attrs, r) == Err(FlagHasNoSource)
    ensures SourceOf(attrs) != "" && (forall region, code :: !FlagShape(SourceOf(attrs), region, code))
            ==> StartImg(f, attrs, r) == Err(FlagCodeNotFound(SourceOf(attrs)))
    ensures forall region, code, alpha2, continentCode ::
              FlagShape(SourceOf(attrs), region, code)
              && r.toAlpha2(code) == Some(alpha2) && r.toContinentCode(alpha2) == Some(continentCode)
              ==> StartImg(f, attrs, r) == Ok(f.(alpha2 := alpha2, continentCode := continentCode))
    ensures StartImg(f, attrs, r).Ok? ==>
              var f1 := StartImg(f, attrs, r).value;
              f1 == f.(alpha2 := f1.alpha2, continentCode := f1.continentCode)
              && exists region, code :: FlagShape(SourceOf(attrs), region, code)
                   && r.toAlpha2(code) == Some(f1.alpha2) && r.toContinentCode(f1.alpha2) == Some(f1.continentCode)
  {
    var src := SourceOf(attrs);
    if src != "" {
      match MatchFlagPath(src)
      case None =>
        forall region, code | FlagShape(src, region, code) ensures false {
          MatchFlagPathIff(src, code);
        }
      case Some(code) =>
        MatchFlagPathIff(src, code);
        forall region, code' | FlagShape(src, region, code') ensures code' == code {
          MatchFlagPathIff(src, code');
        }
    }
  }

  /** A flag image whose source has the flag-path shape sets the codes its lookups give. */
  lemma FlagImageMatched(f: Fields, attrs: Attrs, r: Resolver, region: string, code: string, alpha2: string, continentCode: string)
    requires f.inResultFlagBlock && Contains(GetClassName(attrs), FlagImageClass)
    requires FlagShape(SourceOf(attrs), region, code)
    requires r.toAlpha2(code) == Some(alpha2) && r.toContinentCode(alpha2) == Some(continentCode)
    ensures StartImg(f, attrs, r) == Ok(f.(alpha2 := alpha2, continentCode := continentCode))
  {
    MatchFlagPathIff(SourceOf(attrs), code);
  }

  /** A name block closed before any text takes the name "None". */
  lemma NameWithoutTextIsNone(f: Fields, attrs: Attrs)
    requires f.inResultBlock && Contains(GetClassName(attrs), NameBlockClass)
    requires !Contains(GetClassName(attrs), FlagBlockClass)
    ensures StartDiv(f, attrs, None) == f.(name := "None")
  {
    StripUntrimmed("None");
  }

  /** A div with both block classes opens the flag block and leaves the name alone. */
  lemma FlagClassWins(f: Fields, attrs: Attrs, data: Option<string>)
    requires f.inResultBlock && Contains(GetClassName(attrs), FlagBlockClass)
    ensures StartDiv(f, attrs, data) == f.(inResultFlagBlock := true)
  {
  }

  /** Outside a result block divs do nothing, even a flag block's closing tag. */
  lemma DivOutsideResultBlock(f: Fields, attrs: Attrs, data: Option<string>)
    requires !f.inResultBlock
    ensures StartDiv(f, attrs, data) == f && EndDiv(f, attrs) == f
  {
  }

  /** An element without a class attribute leaves every handler's state alone. */
  lemma NoClassNoEffect(f: Fields, d: Data, attrs: Attrs, data: Option<string>, r: Resolver)
    requires "class" !in attrs || attrs["class"] == None
    ensures StartA(f, attrs, data) == Ok(f) && EndA(f, d, attrs, r) == Ok((f, d))
    ensures StartDiv(f, attrs, data) == f && EndDiv(f, attrs) == f && StartImg(f, attrs, r) == Ok(f)
  {
    assert GetClassName(attrs) == "";
  }
}
