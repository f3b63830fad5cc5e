/** The extraction state machine as values: what each tag handler and each
    parser callback does to the per-page state and to the dataset. The classes
    in module Ibsf are proved to behave exactly as these functions say. */
module Extraction {
  import opened Wrappers
  import opened PyStr
  import opened Markup
  import opened FlagPath

  /** The exceptions the core can raise. */
  datatype Error =
    | EmptyStack                      // IndexError on `openingTagStack[-1]`
    | PageNumberNotInt(text: string)  // ValueError from `int()` on a pagination link
    | FlagHasNoSource                 // RuntimeError: flag image without `src`
    | FlagCodeNotFound(src: string)   // RuntimeError: `src` does not match the flag path
    | LookupFailed(key: string)       // a country or continent table has no entry

  /** The country and continent tables, as partial functions (`None`: the lookup raised).
      `toAlpha2` stands for the IOC-then-default conversion of a federation code. */
  datatype Resolver = Resolver(
    toAlpha2: string -> Option<string>,
    toContinentCode: string -> Option<string>,
    countryName: string -> Option<string>,
    continentName: string -> Option<string>)

  function Lookup(table: string -> Option<string>, key: string): Result<string, Error> {
    match table(key)
    case Some(v) => Ok(v)
    case None => Err(LookupFailed(key))
  }

  /** One athlete record, with the display names its constructor looks up. */
  datatype Athlete = Athlete(
    name: string, alpha2: string, continentCode: string, countryName: string, continentName: string)

  /** The record constructor: fails when either display-name lookup fails. */
  function MakeAthlete(name: string, alpha2: string, continentCode: string, r: Resolver): Result<Athlete, Error> {
    var countryName :- Lookup(r.countryName, alpha2);
    var continentName :- Lookup(r.continentName, continentCode);
    Ok(Athlete(name, alpha2, continentCode, countryName, continentName))
  }

  /** The dataset: the athletes in discovery order and the last committed page count. */
  datatype Data = Data(athletes: seq<Athlete>, numPages: int)

  const EmptyData := Data([], 0)

  /** The tag handlers' per-page state. */
  datatype Fields = Fields(
    numPages: int,
    inResultBlock: bool,
    inResultFlagBlock: bool,
    name: string,
    alpha2: string,
    continentCode: string)

  const InitialFields := Fields(0, false, false, "", "", "")

  const PaginatorClass := "paginator--browselink"
  const ResultBlockClass := "resultBlock__col"
  const FlagBlockClass := "resultBlock__flag"
  const NameBlockClass := "resultBlock__name"
  const FlagImageClass := "flag"

  function Max(a: int, b: int): int {
    if a < b then b else a
  }

  /** Python's `str(data)` for text or `None`. */
  function PyStrOf(data: Option<string>): string {
    match data
    case None => "None"
    case Some(s) => s
  }

  /** Opening handler of `<a>`: a pagination link raises the page count to its
      number; otherwise a result link enters a result block. */
  function StartA(f: Fields, attrs: Attrs, data: Option<string>): Result<Fields, Error> {
    var className := GetClassName(attrs);
    if Contains(className, PaginatorClass) then
      var text := data.GetOr("");
      match ParseInt(text)
      case None => Err(PageNumberNotInt(text))
      case Some(n) => Ok(f.(numPages := Max(f.numPages, n)))
    else if Contains(className, ResultBlockClass) then
      Ok(f.(inResultBlock := true))
    else
      Ok(f)
  }

  /** Closing handler of `<a>`: a result link appends the record built from the
      current fields and leaves the result block. */
  function EndA(f: Fields, d: Data, attrs: Attrs, r: Resolver): Result<(Fields, Data), Error> {
    if Contains(GetClassName(attrs), ResultBlockClass) then
      var athlete :- MakeAthlete(f.name, f.alpha2, f.continentCode, r);
      Ok((f.(inResultBlock := false), d.(athletes := d.athletes + [athlete])))
    else
      Ok((f, d))
  }

  /** Opening handler of `<div>`: inside a result block, a flag block is entered
      or the name block's text becomes the current name. */
  function StartDiv(f: Fields, attrs: Attrs, data: Option<string>): Fields {
    var className := GetClassName(attrs);
    if f.inResultBlock && Contains(className, FlagBlockClass) then
      f.(inResultFlagBlock := true)
    else if f.inResultBlock && Contains(className, NameBlockClass) then
      f.(name := Strip(PyStrOf(data)))
    else
      f
  }

  /** Closing handler of `<div>`: a flag block is left, provided the result block is open. */
  function EndDiv(f: Fields, attrs: Attrs): Fields {
    if f.inResultBlock && Contains(GetClassName(attrs), FlagBlockClass) then
      f.(inResultFlagBlock := false)
    else
      f
  }

  /** The flag image's `src`; missing, valueless and empty all read as "". */
  function SourceOf(attrs: Attrs): string {
    if "src" in attrs then attrs["src"].GetOr("") else ""
  }

  /** Opening handler of `<img>`: inside a flag block, a flag image's path gives
      the country code, which sets the current country and continent. */
  function StartImg(f: Fields, attrs: Attrs, r: Resolver): Result<Fields, Error> {
    if f.inResultFlagBlock && Contains(GetClassName(attrs), FlagImageClass) then
      var src := SourceOf(attrs);
      if src == "" then Err(FlagHasNoSource)
      else
        match MatchFlagPath(src)
        case None => Err(FlagCodeNotFound(src))
        case Some(code) =>
          var alpha2 :- Lookup(r.toAlpha2, code);
          var continentCode :- Lookup(r.toContinentCode, alpha2);
          Ok(f.(alpha2 := alpha2, continentCode := continentCode))
    else
      Ok(f)
  }

  /** Closing handler of `<html>`: the page's count is written over the dataset's. */
  function EndHtml(f: Fields, d: Data): Data {
    d.(numPages := f.numPages)
  }

  /** `handleStartTag`: the opening handler of the stack's top entry, chosen by
      its lower-cased name; `data` is the text that arrived, or `None`. */
  function HandleStartTag(f: Fields, stack: seq<Tag>, data: Option<string>, r: Resolver): Result<Fields, Error> {
    if stack == [] then Err(EmptyStack)
    else
      var top := stack[|stack| - 1];
      var name := Lower(top.name);
      if name == "a" then StartA(f, top.attrs, data)
      else if name == "div" then Ok(StartDiv(f, top.attrs, data))
      else if name == "img" then StartImg(f, top.attrs, r)
      else Ok(f)
  }

  /** `handleEndTag`: the closing handler for the removed entry's lower-cased name. */
  function HandleEndTag(f: Fields, d: Data, name: string, attrs: Attrs, r: Resolver): Result<(Fields, Data), Error> {
    var lower := Lower(name);
    if lower == "a" then EndA(f, d, attrs, r)
    else if lower == "div" then Ok((EndDiv(f, attrs), d))
    else if lower == "html" then Ok((f, EndHtml(f, d)))
    else Ok((f, d))
  }

  /** The parser's state: the stack of open elements, whether text arrived since
      the last opening tag, the handlers' fields and the dataset. */
  datatype Machine = Machine(stack: seq<Tag>, lastTagHasData: bool, fields: Fields, data: Data)

  /** A fresh parser over an existing dataset. */
  function Fresh(d: Data): Machine {
    Machine([], false, InitialFields, d)
  }

  /** The opening handler a closing tag owes the top entry: none when text
      arrived since the last opening tag, otherwise one run with `None`. */
  function PendingOpen(m: Machine, r: Resolver): Result<Fields, Error> {
    if m.lastTagHasData then Ok(m.fields) else HandleStartTag(m.fields, m.stack, None, r)
  }

  /** Closing-tag callback: the pending opening handler runs; then the topmost
      entry named `name` is removed and its closing handler runs. */
  function OnEndTag(m: Machine, name: string, r: Resolver): Result<Machine, Error> {
    var f1 :- PendingOpen(m, r);
    match FindLast(m.stack, name)
    case None => Ok(m.(fields := f1))
    case Some(i) =>
      var fd :- HandleEndTag(f1, m.data, m.stack[i].name, m.stack[i].attrs, r);
      Ok(m.(stack := RemoveAt(m.stack, i), fields := fd.0, data := fd.1))
  }

  /** Opening-tag callback: push the entry, note that no text has arrived, and
      close a void element at once. */
  function OnStartTag(m: Machine, name: string, attrList: seq<(string, Option<string>)>, r: Resolver): Result<Machine, Error> {
    var m1 := m.(stack := m.stack + [Tag(name, ToDict(attrList))], lastTagHasData := false);
    if IsHtmlVoidTag(name) then OnEndTag(m1, name, r) else Ok(m1)
  }

  /** Text callback: ignored outside every element; otherwise the top entry's
      opening handler runs with the text. */
  function OnData(m: Machine, text: string, r: Resolver): Result<Machine, Error> {
    if m.stack == [] then Ok(m)
    else
      var f1 :- HandleStartTag(m.fields, m.stack, Some(text), r);
      Ok(m.(fields := f1, lastTagHasData := true))
  }

  function Step(m: Machine, e: Event, r: Resolver): Result<Machine, Error> {
    match e
    case Open(name, attrList) => OnStartTag(m, name, attrList, r)
    case Close(name) => OnEndTag(m, name, r)
    case Text(data) => OnData(m, data, r)
  }

  /** The events of one document, in order; the first exception ends the run. */
  function Feed(m: Machine, events: seq<Event>, r: Resolver): Result<Machine, Error>
    decreases |events|
  {
    if events == [] then Ok(m)
    else
      var m1 :- Step(m, events[0], r);
      Feed(m1, events[1..], r)
  }

  /** A document whose first event succeeds continues from the state that event leaves. */
  lemma FeedAfterStep(m: Machine, events: seq<Event>, r: Resolver)
    requires events != [] && Step(m, events[0], r).Ok?
    ensures Feed(m, events, r) == Feed(Step(m, events[0], r).value, events[1..], r)
  {
  }

  /** One page: a fresh parser fed the page's events, sharing the dataset. */
  function RunPage(d: Data, events: seq<Event>, r: Resolver): Result<Data, Error> {
    var m :- Feed(Fresh(d), events, r);
    Ok(m.data)
  }
}
