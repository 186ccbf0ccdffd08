/**
 * The parsed response document, as far as the client looks into it: an
 * element has a name, its own text and its child elements in order.
 */
module Xml {
  import opened Wrappers
  import opened ByteStrings

  datatype Node = Node(name: Bytes, text: Bytes, children: seq<Node>)

  /** The index of the first element of `cs` called `name`. */
  function FirstNamed(cs: seq<Node>, name: Bytes): (r: Option<nat>)
    ensures r.Some? ==> r.value < |cs| && cs[r.value].name == name
    ensures r.Some? ==> forall j :: 0 <= j < r.value ==> cs[j].name != name
    ensures r.None? <==> forall j :: 0 <= j < |cs| ==> cs[j].name != name
  {
    if |cs| == 0 then None
    else if cs[0].name == name then Some(0)
    else match FirstNamed(cs[1..], name)
      case None => None
      case Some(i) => Some(i + 1)
  }

  /**
   * `$n->name`: the first child element called `name`; `isset($n->name)`
   * holds exactly when it is present.
   */
  function Child(n: Node, name: Bytes): (r: Option<Node>)
    ensures r.Some? ==> r.value in n.children && r.value.name == name
    ensures r.Some? ==>
      exists i :: 0 <= i < |n.children| && r.value == n.children[i] &&
        forall j :: 0 <= j < i ==> n.children[j].name != name
    ensures r.None? <==> forall c :: c in n.children ==> c.name != name
  {
    match FirstNamed(n.children, name)
    case None => None
    case Some(i) => Some(n.children[i])
  }

  /** The element reached by following child names from `n`. */
  function Descend(n: Node, path: seq<Bytes>): Option<Node>
  {
    if |path| == 0 then Some(n)
    else match Child(n, path[0])
      case None => None
      case Some(c) => Descend(c, path[1..])
  }

  /** The text of the element at `path`, `(string)` of `$n->a->b`. */
  function TextAt(n: Node, path: seq<Bytes>): Option<Bytes>
  {
    match Descend(n, path)
    case None => None
    case Some(m) => Some(m.text)
  }
}
