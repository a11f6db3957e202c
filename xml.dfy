/** The project files are read as XML. The model takes a document as a tree of
    elements: each element has a name, its attributes, the character data it
    holds directly (what a read of its text that skips child elements
    returns) and its child elements in document order. */
module Xml {

  datatype Element = Element(
    name: string,
    attributes: map<string, string>,
    text: string,
    children: seq<Element>)

  /** An attribute's value; an absent attribute reads as "". */
  function Attr(e: Element, key: string): string
  {
    if key in e.attributes then e.attributes[key] else ""
  }

  predicate HasAttr(e: Element, key: string)
  {
    key in e.attributes
  }
}
