/** What the extractor receives from the tokenizer, and the open-element stack it keeps. */
module Markup {
  import opened Wrappers

  /** An attribute list as a dictionary; a valueless attribute maps to `None`. */
  type Attrs = map<string, Option<string>>

  /** One entry of the open-element stack: tag name and attribute dictionary. */
  datatype Tag = Tag(name: string, attrs: Attrs)

  /** The tokenizer's callbacks, in document order. A self-closing tag
      arrives as an `Open` followed by a `Close`. */
  datatype Event =
    | Open(name: string, attrList: seq<(string, Option<string>)>)
    | Close(name: string)
    | Text(data: string)

  const VoidTags: set<string> :=
    {"area", "base", "br", "col", "embed", "hr", "img", "input", "link", "meta", "source", "track", "wbr"}

  /** Elements that never get a closing tag; the parser closes them itself. */
  predicate IsHtmlVoidTag(name: string) {
    name in VoidTags
  }

  /** Of the elements that have handlers, only `img` is void: an image is
      closed as soon as it is opened, while links, divs and the document stay
      open until their closing tags. */
  lemma HandledTagsVoidness()
    ensures |VoidTags| == 13
    ensures IsHtmlVoidTag("img")
    ensures !IsHtmlVoidTag("a") && !IsHtmlVoidTag("div") && !IsHtmlVoidTag("html")
  {
  }

  /** Python's `dict(attrs)`: every listed name is a key, every key is a listed
      name, and a name listed twice keeps its last value. */
  function ToDict(attrs: seq<(string, Option<string>)>): (d: Attrs)
    ensures forall k :: k in d ==> exists i :: 0 <= i < |attrs| && attrs[i].0 == k
    ensures forall i :: 0 <= i < |attrs| ==> attrs[i].0 in d
    ensures forall i :: 0 <= i < |attrs| && (forall j :: i < j < |attrs| ==> attrs[j].0 != attrs[i].0)
                        ==> d[attrs[i].0] == attrs[i].1
  {
    if attrs == [] then map[]
    else
      var init := attrs[..|attrs| - 1];
      var last := attrs[|attrs| - 1];
      assert forall i :: 0 <= i < |init| ==> init[i] == attrs[i];
      ToDict(init)[last.0 := last.1]
  }

  /** The class attribute's value; the empty string when the attribute is
      missing or has no value. */
  function GetClassName(attrs: Attrs): (className: string)
    ensures className != "" ==> "class" in attrs && attrs["class"] == Some(className)
    ensures "class" in attrs && attrs["class"].Some? ==> className == attrs["class"].value
  {
    if "class" in attrs && attrs["class"].Some? then attrs["class"].value else ""
  }

  /** Index of the topmost stack entry named `name`, as the reverse scan of the
      closing-tag callback finds it. */
  function FindLast(stack: seq<Tag>, name: string): (r: Option<nat>)
    ensures r.Some? ==> r.value < |stack| && stack[r.value].name == name
                        && forall j :: r.value < j < |stack| ==> stack[j].name != name
    ensures r.None? ==> forall j :: 0 <= j < |stack| ==> stack[j].name != name
  {
    if stack == [] then None
    else if stack[|stack| - 1].name == name then Some(|stack| - 1)
    else FindLast(stack[..|stack| - 1], name)
  }

  /** `del stack[i]`. */
  function RemoveAt(stack: seq<Tag>, i: nat): seq<Tag>
    requires i < |stack|
  {
    stack[..i] + stack[i + 1..]
  }
}
