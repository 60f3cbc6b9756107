/**
 * The element tree the scripts build with `ET.Element` and `ET.SubElement`:
 * a tag, attributes, an optional text and the children in insertion order.
 * Serialisation to XML text is not part of this model.
 */
module Xml {
  import opened Wrappers

  /** The element names the two scripts create; `Name` gives each one's XML spelling. */
  datatype Tag =
    | CustomField | FullName | Label | Type | Required | Length | Precision | Scale | DefaultValue
    | ReferenceTo | ValueSet | ValueSetName | ValueSetDefinition | Restricted | Sorted | Value | Default
  {
    function Name(): string
    {
      match this
      case CustomField => "CustomField"
      case FullName => "fullName"
      case Label => "label"
      case Type => "type"
      case Required => "required"
      case Length => "length"
      case Precision => "precision"
      case Scale => "scale"
      case DefaultValue => "defaultValue"
      case ReferenceTo => "referenceTo"
      case ValueSet => "valueSet"
      case ValueSetName => "valueSetName"
      case ValueSetDefinition => "valueSetDefinition"
      case Restricted => "restricted"
      case Sorted => "sorted"
      case Value => "value"
      case Default => "default"
    }
  }

  datatype Attr = Attr(name: string, value: string)

  /** `text` is `None` for an element whose `.text` was never assigned. */
  datatype Elem = Elem(tag: Tag, attrs: seq<Attr>, text: Option<string>, children: seq<Elem>)

  /** A child created by `ET.SubElement(parent, tag).text = text`. */
  function Leaf(tag: Tag, text: string): Elem
  {
    Elem(tag, [], Some(text), [])
  }

  /** A child created by `ET.SubElement(parent, tag)` that only holds other elements. */
  function Node(tag: Tag, children: seq<Elem>): Elem
  {
    Elem(tag, [], None, children)
  }

  /** The tags of `es`, in document order. */
  function Tags(es: seq<Elem>): seq<Tag>
  {
    seq(|es|, i requires 0 <= i < |es| => es[i].tag)
  }

  /** The first element of `es` tagged `tag`, as `parent.find(tag)` returns it. */
  function Find(es: seq<Elem>, tag: Tag): Option<Elem>
  {
    if es == [] then None
    else if es[0].tag == tag then Some(es[0])
    else Find(es[1..], tag)
  }

  /** The text of the first element of `es` tagged `tag`, as `parent.findtext(tag)` returns it. */
  function TextOf(es: seq<Elem>, tag: Tag): Option<string>
  {
    match Find(es, tag)
    case Some(e) => e.text
    case None => None
  }

  /** A tag no element carries is not found. */
  lemma {:induction false} FindMissing(es: seq<Elem>, tag: Tag)
    requires forall k | 0 <= k < |es| :: es[k].tag != tag
    ensures Find(es, tag) == None
  {
    if es != [] {
      FindMissing(es[1..], tag);
    }
  }

  /** Looking a tag up in `a + b` looks in `a` first, then in `b`. */
  lemma {:induction false} FindConcat(a: seq<Elem>, b: seq<Elem>, tag: Tag)
    ensures Find(a + b, tag) == if Find(a, tag).Some? then Find(a, tag) else Find(b, tag)
  {
    if a == [] {
      assert a + b == b;
    } else {
      assert (a + b)[0] == a[0];
      assert (a + b)[1..] == a[1..] + b;
      FindConcat(a[1..], b, tag);
    }
  }

  /** `parent + [child]`: what `ET.SubElement(parent, ...)` does to the parent's children. */
  function Append(children: seq<Elem>, child: Elem): seq<Elem>
  {
    children + [child]
  }

  lemma FindAppend(es: seq<Elem>, e: Elem, tag: Tag)
    ensures Find(Append(es, e), tag) == if Find(es, tag).Some? then Find(es, tag) else if e.tag == tag then Some(e) else None
  {
    FindConcat(es, [e], tag);
    assert [e][1..] == [];
  }

  /**
   * Appending a child leaves every earlier lookup as it was and makes the new
   * child the answer for its tag if no earlier child had that tag.
   */
  lemma AppendFacts(es: seq<Elem>, e: Elem)
    ensures Tags(Append(es, e)) == Tags(es) + [e.tag]
    ensures forall tag {:trigger Find(Append(es, e), tag)} ::
      Find(Append(es, e), tag) == if Find(es, tag).Some? then Find(es, tag) else if e.tag == tag then Some(e) else None
  {
    forall tag ensures Find(Append(es, e), tag) == if Find(es, tag).Some? then Find(es, tag) else if e.tag == tag then Some(e) else None {
      FindAppend(es, e, tag);
    }
  }
}
