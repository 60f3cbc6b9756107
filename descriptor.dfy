/**
 * What a `CustomField` element tree says about the field it describes: the
 * reading of the tree that the metadata deployment performs. Both builders
 * are specified by what this reader recovers from the trees they produce.
 */
module FieldDescriptor {
  import opened Wrappers
  import opened Xml

  /** The namespace attribute on every `CustomField` root. */
  const Namespace := "http://soap.sforce.com/2006/04/metadata"

  datatype PicklistValue = PicklistValue(fullName: string, isDefault: string, labelText: Option<string>)

  /** A picklist draws its values either from a named global value set or from an inline list. */
  datatype ValueSet =
    | GlobalSet(name: string, restricted: Option<string>)
    | InlineSet(sorted: Option<string>, values: seq<PicklistValue>, restricted: Option<string>)

  /** The field types with the type-specific values each one carries. */
  datatype Kind =
    | TextKind(length: string)
    | NumberKind(precision: string, scale: string, defaultValue: Option<string>)
    | CurrencyKind(precision: string, scale: string, defaultValue: Option<string>)
    | DateKind
    | DateTimeKind
    | CheckboxKind(checkedByDefault: string)
    | LookupKind(referenceTo: string)
    | PicklistKind(valueSet: ValueSet)

  datatype Field = Field(fullName: string, labelText: string, required: string, kind: Kind)

  /** A `CustomField` root in the metadata namespace holding `children`. */
  function Root(children: seq<Elem>): Elem
  {
    Elem(CustomField, [Attr("xmlns", Namespace)], None, children)
  }

  /** The field a tree describes, or `None` when the tree is not a well-formed field. */
  function Decode(r: Elem): Option<Field>
  {
    if r.tag != CustomField || r.attrs != [Attr("xmlns", Namespace)] then None
    else
      var cs := r.children;
      match (TextOf(cs, FullName), TextOf(cs, Label), TextOf(cs, Required), TextOf(cs, Type))
      case (Some(name), Some(labelText), Some(required), Some(typeName)) =>
        (match DecodeKind(typeName, cs)
         case Some(kind) => Some(Field(name, labelText, required, kind))
         case None => None)
      case _ => None
  }

  /** The type-specific part of a field whose `type` element reads `typeName`. */
  function DecodeKind(typeName: string, cs: seq<Elem>): Option<Kind>
  {
    match typeName
    case "Text" =>
      (match TextOf(cs, Length) case Some(n) => Some(TextKind(n)) case None => None)
    case "Number" =>
      (match (TextOf(cs, Precision), TextOf(cs, Scale))
       case (Some(p), Some(s)) => Some(NumberKind(p, s, TextOf(cs, DefaultValue)))
       case _ => None)
    case "Currency" =>
      (match (TextOf(cs, Precision), TextOf(cs, Scale))
       case (Some(p), Some(s)) => Some(CurrencyKind(p, s, TextOf(cs, DefaultValue)))
       case _ => None)
    case "Date" => Some(DateKind)
    case "DateTime" => Some(DateTimeKind)
    case "Checkbox" =>
      (match TextOf(cs, DefaultValue) case Some(d) => Some(CheckboxKind(d)) case None => None)
    case "Lookup" =>
      (match TextOf(cs, ReferenceTo) case Some(o) => Some(LookupKind(o)) case None => None)
    case "Picklist" =>
      (match Find(cs, ValueSet)
       case Some(vs) =>
         (match DecodeValueSet(vs.children) case Some(v) => Some(PicklistKind(v)) case None => None)
       case None => None)
    case _ => None
  }

  /** A `valueSet` element: a `valueSetName` reference, or a `valueSetDefinition` list. */
  function DecodeValueSet(cs: seq<Elem>): Option<ValueSet>
  {
    match Find(cs, ValueSetName)
    case Some(n) =>
      (match n.text
       case Some(name) => Some(GlobalSet(name, TextOf(cs, Restricted)))
       case None => None)
    case None =>
      match Find(cs, ValueSetDefinition)
      case Some(d) =>
        (match DecodeValues(d.children)
         case Some(vs) => Some(InlineSet(TextOf(d.children, Sorted), vs, TextOf(cs, Restricted)))
         case None => None)
      case None => None
  }

  /** A restricted `valueSet` whose only other child is the `valueSetDefinition` `d` reads back as `d`'s list. */
  lemma DecodeRestrictedDefinition(d: Elem, pvs: seq<PicklistValue>)
    requires d.tag == ValueSetDefinition && DecodeValues(d.children) == Some(pvs)
    ensures DecodeValueSet(Append(Append([], d), Leaf(Restricted, "true")))
         == Some(InlineSet(TextOf(d.children, Sorted), pvs, Some("true")))
  {
    AppendFacts([], d);
    AppendFacts(Append([], d), Leaf(Restricted, "true"));
  }

  /** The `value` elements of a `valueSetDefinition`, in order; other children are not values. */
  function DecodeValues(es: seq<Elem>): Option<seq<PicklistValue>>
  {
    if es == [] then Some([])
    else
      var rest := DecodeValues(es[1..]);
      if es[0].tag != Value then rest
      else
        var cs := es[0].children;
        match (TextOf(cs, FullName), TextOf(cs, Default), rest)
        case (Some(name), Some(d), Some(vs)) => Some([PicklistValue(name, d, TextOf(cs, Label))] + vs)
        case _ => None
  }

  /** The text of the `type` element of a field of kind `k`. */
  function TypeName(k: Kind): string
  {
    match k
    case TextKind(_) => "Text"
    case NumberKind(_, _, _) => "Number"
    case CurrencyKind(_, _, _) => "Currency"
    case DateKind => "Date"
    case DateTimeKind => "DateTime"
    case CheckboxKind(_) => "Checkbox"
    case LookupKind(_) => "Lookup"
    case PicklistKind(_) => "Picklist"
  }

  /** The type-specific children of `cs` say what `k` carries. */
  predicate Carries(cs: seq<Elem>, k: Kind)
  {
    match k
    case TextKind(n) => TextOf(cs, Length) == Some(n)
    case NumberKind(p, s, d) => TextOf(cs, Precision) == Some(p) && TextOf(cs, Scale) == Some(s) && TextOf(cs, DefaultValue) == d
    case CurrencyKind(p, s, d) => TextOf(cs, Precision) == Some(p) && TextOf(cs, Scale) == Some(s) && TextOf(cs, DefaultValue) == d
    case DateKind => true
    case DateTimeKind => true
    case CheckboxKind(d) => TextOf(cs, DefaultValue) == Some(d)
    case LookupKind(o) => TextOf(cs, ReferenceTo) == Some(o)
    case PicklistKind(v) => Find(cs, ValueSet).Some? && DecodeValueSet(Find(cs, ValueSet).value.children) == Some(v)
  }

  /** Children that carry `k` decode as `k` under its own type name. */
  lemma DecodeKindOf(cs: seq<Elem>, k: Kind)
    requires Carries(cs, k)
    ensures DecodeKind(TypeName(k), cs) == Some(k)
  {
    match k
    case TextKind(_) =>
    case NumberKind(_, _, _) =>
    case CurrencyKind(_, _, _) =>
    case DateKind =>
    case DateTimeKind =>
    case CheckboxKind(_) =>
    case LookupKind(_) =>
    case PicklistKind(_) =>
  }

  /**
   * A `CustomField` root whose header children name `f` and whose other
   * children carry its kind decodes as `f`.
   */
  lemma DecodeRoot(cs: seq<Elem>, f: Field)
    requires TextOf(cs, FullName) == Some(f.fullName) && TextOf(cs, Label) == Some(f.labelText)
    requires TextOf(cs, Required) == Some(f.required) && TextOf(cs, Type) == Some(TypeName(f.kind))
    requires Carries(cs, f.kind)
    ensures Decode(Root(cs)) == Some(f)
  {
    DecodeKindOf(cs, f.kind);
  }
}
