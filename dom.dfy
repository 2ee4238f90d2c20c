/**
 An abstract, read-only view of a parsed HTML document, standing in for the
 queries the scraper makes through its HTML library: a node's tag name, its
 classes, its `href` attribute, its first child, its text, and its descendants
 in document order.
 */
module Dom {
  import opened Wrappers

  /** The first child of a node, as far as number extraction needs it. */
  datatype FirstChild = NoChild | TextChild(content: string) | ElementChild

  /**
   One node of the document. `name` is the tag name (a text node has none),
   `text` is the concatenated text of the node, and `descendants` lists every
   node below this one in document order, the node itself excluded.
   */
  datatype Node = Node(
    name: Option<string>,
    classes: set<string>,
    href: Option<string>,
    firstChild: FirstChild,
    text: string,
    descendants: seq<Node>)

  /** The two kinds of selector the scraper uses: by class and by tag name. */
  datatype Selector = Class(className: string) | Name(tag: string)

  predicate Matches(n: Node, sel: Selector) {
    match sel
    case Class(c) => c in n.classes
    case Name(t) => n.name == Some(t)
  }

  /** `i` is the position of the first node of `ns` that matches `sel`. */
  predicate IsFirst(ns: seq<Node>, sel: Selector, i: int) {
    0 <= i < |ns| && Matches(ns[i], sel) &&
    forall j | 0 <= j < i :: !Matches(ns[j], sel)
  }

  /** `i` is the position of the last node of `ns` that matches `sel`. */
  predicate IsLast(ns: seq<Node>, sel: Selector, i: int) {
    0 <= i < |ns| && Matches(ns[i], sel) &&
    forall j | i < j < |ns| :: !Matches(ns[j], sel)
  }

  predicate NoneMatch(ns: seq<Node>, sel: Selector) {
    forall j | 0 <= j < |ns| :: !Matches(ns[j], sel)
  }

  /** The position of the first match, as `find(sel).next()` yields it. */
  function FindFirst(ns: seq<Node>, sel: Selector): (r: Option<nat>)
    ensures r.Some? ==> IsFirst(ns, sel, r.value)
    ensures r.None? <==> NoneMatch(ns, sel)
  {
    if ns == [] then None
    else if Matches(ns[0], sel) then Some(0)
    else match FindFirst(ns[1..], sel)
      case None => None
      case Some(i) => Some(i + 1)
  }

  /** The position of the last match, as `find(sel).last()` yields it. */
  function FindLast(ns: seq<Node>, sel: Selector): (r: Option<nat>)
    ensures r.Some? ==> IsLast(ns, sel, r.value)
    ensures r.None? <==> NoneMatch(ns, sel)
  {
    if ns == [] then None
    else if Matches(ns[|ns| - 1], sel) then Some(|ns| - 1)
    else FindLast(ns[..|ns| - 1], sel)
  }
}
