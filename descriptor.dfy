/**
 * The domain descriptor as minidom presents it, and `get_network_info` /
 * `get_disk_info`: every attribute of every non-`#` child of every element with a
 * given tag, collected into one dict where later attributes overwrite earlier ones.
 */
module Descriptor {
  import opened Text
  import opened Pairs

  datatype Attr = Attr(name: string, value: string)

  /**
   * The parsed nodes of a descriptor; `TextNode`, `Comment` and `CData` carry no attributes.
   * A descriptor is taken to hold no processing instruction.
   */
  datatype Node =
    | Element(tag: string, attrs: seq<Attr>, children: seq<Node>)
    | TextNode(data: string)
    | Comment(data: string)
    | CData(data: string)

  datatype Document = Document(children: seq<Node>)

  const InterfaceTag: string := "interface"
  const DiskTag: string := "disk"

  /** minidom's `nodeName`. */
  function NodeName(n: Node): string
  {
    match n
    case Element(tag, _, _) => tag
    case TextNode(_) => "#text"
    case Comment(_) => "#comment"
    case CData(_) => "#cdata-section"
  }

  /** `node.nodeName[0:1] == "#"`: the node is passed over. */
  predicate Skipped(n: Node)
  {
    |NodeName(n)| > 0 && NodeName(n)[0] == '#'
  }

  /** Only elements are looked at, and only those whose tag does not start with '#'. */
  lemma NotSkippedIsElement(n: Node)
    ensures !Skipped(n) <==> n.Element? && (|n.tag| == 0 || n.tag[0] != '#')
  {
  }

  /** The elements with the tag among the nodes and their descendants, each before its descendants. */
  function ElementsIn(nodes: seq<Node>, tag: string): (r: seq<Node>)
    ensures forall e :: e in r ==> e.Element? && e.tag == tag
    decreases nodes
  {
    if nodes == [] then []
    else
      var n := nodes[0];
      (if n.Element? && n.tag == tag then [n] else [])
      + (if n.Element? then ElementsIn(n.children, tag) else [])
      + ElementsIn(nodes[1..], tag)
  }

  /** `xml_doc.getElementsByTagName(tag)`. */
  function ElementsByTagName(doc: Document, tag: string): (r: seq<Node>)
    ensures forall e :: e in r ==> e.Element? && e.tag == tag
  {
    ElementsIn(doc.children, tag)
  }

  /** Every element with the tag, at any depth, is found. */
  lemma {:induction false} ElementsInComplete(nodes: seq<Node>, tag: string, n: Node)
    requires n in nodes
    ensures n.Element? && n.tag == tag ==> n in ElementsIn(nodes, tag)
    ensures n.Element? ==> forall e :: e in ElementsIn(n.children, tag) ==> e in ElementsIn(nodes, tag)
    decreases nodes
  {
    if n != nodes[0] {
      assert n in nodes[1..];
      ElementsInComplete(nodes[1..], tag, n);
    }
  }

  /** The attributes a child node contributes: all of them unless the node is skipped. */
  function ChildAttrs(c: Node): (r: seq<Attr>)
    ensures Skipped(c) ==> r == []
  {
    if Skipped(c) then [] else match c
      case Element(_, attrs, _) => attrs
      case _ => []
  }

  /** The attributes an element contributes, child by child. */
  function ElementAttrs(e: Node): seq<Attr>
  {
    match e
    case Element(_, _, children) => Concat(seq(|children|, j requires 0 <= j < |children| => ChildAttrs(children[j])))
    case _ => []
  }

  /** The attributes the loops visit, in the order they assign them. */
  function Supplied(doc: Document, tag: string): seq<Attr>
  {
    var els := ElementsByTagName(doc, tag);
    Concat(seq(|els|, i requires 0 <= i < |els| => ElementAttrs(els[i])))
  }

  function AsPairs(attrs: seq<Attr>): (r: seq<(string, string)>)
    ensures |r| == |attrs|
    ensures forall i :: 0 <= i < |attrs| ==> r[i] == (attrs[i].name, attrs[i].value)
  {
    seq(|attrs|, i requires 0 <= i < |attrs| => (attrs[i].name, attrs[i].value))
  }

  /** The dict `get_network_info` / `get_disk_info` return for the tag. */
  function Flatten(doc: Document, tag: string): map<string, string>
  {
    Assigned(AsPairs(Supplied(doc, tag)))
  }

  /** What an element contributes: exactly the attributes of its non-skipped children. */
  lemma ElementMember(e: Node, a: Attr)
    requires e.Element?
    ensures a in ElementAttrs(e) <==> exists c :: c in e.children && c.Element? && !Skipped(c) && a in c.attrs
  {
    var children := e.children;
    var inner := seq(|children|, j requires 0 <= j < |children| => ChildAttrs(children[j]));
    ConcatMember(inner, a);
    if a in ElementAttrs(e) {
      var j :| 0 <= j < |inner| && a in inner[j];
      assert children[j] in children;
    }
    if exists c :: c in e.children && c.Element? && !Skipped(c) && a in c.attrs {
      var c :| c in e.children && c.Element? && !Skipped(c) && a in c.attrs;
      var j :| 0 <= j < |children| && children[j] == c;
      assert a in inner[j];
    }
  }

  /** An element none of whose children is both unskipped and attributed contributes nothing. */
  lemma ElementWithoutAttributedChildren(e: Node)
    requires e.Element?
    requires forall c :: c in e.children ==> Skipped(c) || (c.Element? && c.attrs == [])
    ensures ElementAttrs(e) == []
  {
    if ElementAttrs(e) != [] {
      var a := ElementAttrs(e)[0];
      ElementMember(e, a);
    }
  }

  /**
   * The attributes visited are exactly those of the non-skipped children of the elements
   * with the tag.
   */
  lemma SuppliedMember(doc: Document, tag: string, a: Attr)
    ensures a in Supplied(doc, tag) <==>
      exists e :: e in ElementsByTagName(doc, tag) && e.Element? &&
        exists c :: c in e.children && c.Element? && !Skipped(c) && a in c.attrs
  {
    var els := ElementsByTagName(doc, tag);
    var outer := seq(|els|, i requires 0 <= i < |els| => ElementAttrs(els[i]));
    ConcatMember(outer, a);
    if a in Supplied(doc, tag) {
      var i :| 0 <= i < |outer| && a in outer[i];
      ElementMember(els[i], a);
      assert els[i] in els;
    }
    if exists e :: e in els && e.Element? && exists c :: c in e.children && c.Element? && !Skipped(c) && a in c.attrs {
      var e :| e in els && e.Element? && exists c :: c in e.children && c.Element? && !Skipped(c) && a in c.attrs;
      var i :| 0 <= i < |els| && els[i] == e;
      ElementMember(e, a);
      assert a in outer[i];
    }
  }

  /** The dict's keys are exactly the names of the attributes visited. */
  lemma FlattenKeys(doc: Document, tag: string, k: string)
    ensures k in Flatten(doc, tag) <==> exists a :: a in Supplied(doc, tag) && a.name == k
  {
    var sup := Supplied(doc, tag);
    AssignedKeys(AsPairs(sup), k);
    if exists a :: a in sup && a.name == k {
      var a :| a in sup && a.name == k;
      var i :| 0 <= i < |sup| && sup[i] == a;
      assert AsPairs(sup)[i].0 == k;
    }
  }

  /** Each key holds the value of the last attribute with that name in document order. */
  lemma FlattenLastWins(doc: Document, tag: string, i: nat)
    requires i < |Supplied(doc, tag)|
    requires forall j :: i < j < |Supplied(doc, tag)| ==> Supplied(doc, tag)[j].name != Supplied(doc, tag)[i].name
    ensures var a := Supplied(doc, tag)[i];
      a.name in Flatten(doc, tag) && Flatten(doc, tag)[a.name] == a.value
  {
    AssignedLast(AsPairs(Supplied(doc, tag)), i);
  }

  lemma AsPairsAppend(a: seq<Attr>, b: seq<Attr>)
    ensures AsPairs(a + b) == AsPairs(a) + AsPairs(b)
  {
  }

  /** Assigning a run after a run: the dict so far, overwritten by the new run's dict. */
  lemma AssignRun(m: map<string, string>, done: seq<Attr>, more: seq<Attr>)
    ensures m + Assigned(AsPairs(done)) + Assigned(AsPairs(more)) == m + Assigned(AsPairs(done + more))
  {
    AsPairsAppend(done, more);
    AssignedAppend(AsPairs(done), AsPairs(more));
  }

  /** One attribute assigned after a run of them. */
  lemma AssignOne(m: map<string, string>, done: seq<Attr>, a: Attr)
    ensures m + Assigned(AsPairs(done + [a])) == (m + Assigned(AsPairs(done)))[a.name := a.value]
  {
    AsPairsAppend(done, [a]);
    AssignedStep(m, AsPairs(done), (a.name, a.value));
  }

  /** The innermost loop: `result[attr.name] = attr.value` for each attribute of one child. */
  method AssignAttrs(m: map<string, string>, attrs: seq<Attr>) returns (r: map<string, string>)
    ensures r == m + Assigned(AsPairs(attrs))
  {
    r := m;
    for k := 0 to |attrs|
      invariant r == m + Assigned(AsPairs(attrs[..k]))
    {
      assert attrs[..k + 1] == attrs[..k] + [attrs[k]];
      AssignOne(m, attrs[..k], attrs[k]);
      r := r[attrs[k].name := attrs[k].value];
    }
    assert attrs[..|attrs|] == attrs;
  }

  /** Which children the middle loop reads: exactly those whose name does not start with '#'. */
  lemma ChildAttrsOf(c: Node)
    ensures (|NodeName(c)| == 0 || NodeName(c)[0] != '#') ==> c.Element? && ChildAttrs(c) == c.attrs
    ensures !(|NodeName(c)| == 0 || NodeName(c)[0] != '#') ==> ChildAttrs(c) == []
  {
  }

  /** The middle loop: the attributes of every non-skipped child of one element. */
  method AssignElement(m: map<string, string>, e: Node) returns (r: map<string, string>)
    requires e.Element?
    ensures r == m + Assigned(AsPairs(ElementAttrs(e)))
  {
    r := m;
    var children := e.children;
    ghost var inner := seq(|children|, j requires 0 <= j < |children| => ChildAttrs(children[j]));
    for j := 0 to |children|
      invariant r == m + Assigned(AsPairs(Concat(inner[..j])))
    {
      var node := children[j];
      ghost var before := Concat(inner[..j]);
      assert Concat(inner[..j + 1]) == before + ChildAttrs(node) by {
        ConcatSnoc(inner, j);
      }
      if |NodeName(node)| == 0 || NodeName(node)[0] != '#' {
        assert node.Element? && ChildAttrs(node) == node.attrs by {
          ChildAttrsOf(node);
        }
        r := AssignAttrs(r, node.attrs);
        AssignRun(m, before, node.attrs);
      } else {
        assert ChildAttrs(node) == [] by {
          ChildAttrsOf(node);
        }
        assert before + [] == before;
      }
    }
    assert inner[..|children|] == inner;
  }

  /** The loops shared by `get_network_info` and `get_disk_info`. */
  method CollectAttributes(doc: Document, tag: string) returns (result: map<string, string>)
    ensures result == Flatten(doc, tag)
  {
    result := map[];
    var elements := ElementsByTagName(doc, tag);
    ghost var outer := seq(|elements|, i requires 0 <= i < |elements| => ElementAttrs(elements[i]));
    assert Concat(outer[..0]) == [];
    for i := 0 to |elements|
      invariant result == map[] + Assigned(AsPairs(Concat(outer[..i])))
    {
      ConcatSnoc(outer, i);
      AssignRun(map[], Concat(outer[..i]), outer[i]);
      result := AssignElement(result, elements[i]);
    }
    assert outer[..|elements|] == outer;
  }

  method GetNetworkInfo(doc: Document) returns (info: map<string, string>)
    ensures info == Flatten(doc, InterfaceTag)
  {
    info := CollectAttributes(doc, InterfaceTag);
  }

  method GetDiskInfo(doc: Document) returns (info: map<string, string>)
    ensures info == Flatten(doc, DiskTag)
  {
    info := CollectAttributes(doc, DiskTag);
  }
}
