/**
 * The batch script: `create_field_xml` builds one descriptor from a field
 * identifier, a type name and a details column, and `process_input_file`
 * turns every meaningful line of the input file into such a descriptor.
 */
module BatchCreator {
  import opened Wrappers
  import opened PyStrings
  import opened Xml
  import opened FieldDescriptor
  import opened Normalizer

  /**
   * Why `create_field_xml` raises: a number or currency details column with
   * more than one comma does not unpack into `precision, scale`.
   */
  datatype BuildError = TooManyValuesToUnpack(parts: nat)

  /**
   * `precision, scale = details.split(",") if "," in details else ("0", "0")`,
   * before stripping.
   */
  function NumberDetails(details: string): (r: Result<(string, string), BuildError>)
    ensures r.Failure? <==> multiset(details)[','] >= 2
    ensures ',' !in details ==> r == Success(("0", "0"))
    ensures r.Success? && ',' in details ==>
      ',' !in r.value.0 && ',' !in r.value.1 && details == r.value.0 + "," + r.value.1
  {
    SplitOnCount(details, ',');
    if ',' in details then
      var parts := SplitOn(details, ',');
      if |parts| == 2 then
        assert Join([','], parts) == parts[0] + [','] + parts[1];
        Success((parts[0], parts[1]))
      else Failure(TooManyValuesToUnpack(|parts|))
    else Success(("0", "0"))
  }

  /** The inverse of `NumberDetails` on a `precision,scale` column. */
  lemma NumberDetailsOfPair(precision: string, scale: string)
    requires ',' !in precision && ',' !in scale
    ensures NumberDetails(precision + "," + scale) == Success((precision, scale))
  {
    var d := precision + "," + scale;
    assert d == precision + [','] + scale;
    SplitOnFirst(precision, scale, ',');
    assert SplitOn(d, ',') == [precision, scale];
  }

  /** `details.lower().startswith("global:")`: the column names a global value set. */
  predicate IsGlobalRef(details: string)
  {
    StartsWith(Lower(details), "global:")
  }

  /** The `;`-separated picklist values of a details column: nonblank items, stripped, in order. */
  function PicklistItems(details: string): seq<string>
  {
    NonBlankItems(details, ';')
  }

  /** Batch picklist values carry their label, equal to the value. */
  function LabelledValues(vs: seq<string>): seq<PicklistValue>
  {
    seq(|vs|, i requires 0 <= i < |vs| => PicklistValue(vs[i], "false", Some(vs[i])))
  }

  /**
   * The value set the batch script means for a picklist column: a global set
   * after `global:` (case-insensitive), else the `;` list, unsorted; both restricted.
   */
  function BatchValueSet(details: string): ValueSet
  {
    if IsGlobalRef(details) then GlobalSet(Strip(details[7..]), Some("true"))
    else InlineSet(Some("false"), LabelledValues(PicklistItems(details)), Some("true"))
  }

  /**
   * The descriptor kind the batch script means for a stripped, lower-cased
   * type name and a details column; the only failure is an unpackable number
   * or currency column. Any unknown name means a 255-character text field.
   */
  function BatchKind(typeName: string, details: string): Result<Kind, BuildError>
  {
    if typeName == "number" || typeName == "currency" then
      match NumberDetails(details)
      case Failure(e) => Failure(e)
      case Success((p, s)) =>
        Success(if typeName == "number" then NumberKind(Strip(p), Strip(s), None)
                else CurrencyKind(Strip(p), Strip(s), None))
    else if typeName == "date" then Success(DateKind)
    else if typeName == "datetime" || typeName == "date time" then Success(DateTimeKind)
    else if typeName == "checkbox" || typeName == "boolean" then Success(CheckboxKind("false"))
    else if typeName == "lookup" then Success(LookupKind(if details != "" then Strip(details) else "Account"))
    else if typeName == "picklist" then Success(PicklistKind(BatchValueSet(details)))
    else Success(TextKind("255"))
  }

  /** The first four children of every batch descriptor: `fullName`, `label`, `required`, `type`. */
  function Header(labelText: string, devName: string, typeName: string): (cs: seq<Elem>)
    ensures Tags(cs) == [FullName, Label, Required, Type]
    ensures TextOf(cs, FullName) == Some(devName) && TextOf(cs, Label) == Some(labelText)
    ensures TextOf(cs, Required) == Some("false") && TextOf(cs, Type) == Some(typeName)
    ensures forall tag | tag != FullName && tag != Label && tag != Required && tag != Type :: Find(cs, tag) == None
  {
    var c1 := Append([], Leaf(FullName, devName));
    AppendFacts([], Leaf(FullName, devName));
    var c2 := Append(c1, Leaf(Label, labelText));
    AppendFacts(c1, Leaf(Label, labelText));
    var c3 := Append(c2, Leaf(Required, "false"));
    AppendFacts(c2, Leaf(Required, "false"));
    AppendFacts(c3, Leaf(Type, typeName));
    Append(c3, Leaf(Type, typeName))
  }

  /** One `value` element of a batch `valueSetDefinition`: its name, `false` as the default, and its name as the label. */
  function ValueElem(v: string): (e: Elem)
    ensures e.tag == Value && Tags(e.children) == [FullName, Default, Label]
    ensures TextOf(e.children, FullName) == Some(v) && TextOf(e.children, Default) == Some("false")
    ensures TextOf(e.children, Label) == Some(v)
  {
    var c1 := Append([], Leaf(FullName, v));
    AppendFacts([], Leaf(FullName, v));
    var c2 := Append(c1, Leaf(Default, "false"));
    AppendFacts(c1, Leaf(Default, "false"));
    AppendFacts(c2, Leaf(Label, v));
    Node(Value, Append(c2, Leaf(Label, v)))
  }

  function ValueElems(vs: seq<string>): seq<Elem>
  {
    seq(|vs|, i requires 0 <= i < |vs| => ValueElem(vs[i]))
  }

  /** The `value` elements read back as the labelled values they were built from. */
  lemma {:induction false} DecodeValueElems(vs: seq<string>)
    ensures DecodeValues(ValueElems(vs)) == Some(LabelledValues(vs))
  {
    if vs == [] {
      assert ValueElems(vs) == [] && LabelledValues(vs) == [];
    } else {
      ValueElemsCons(vs);
      DecodeValueElems(vs[1..]);
      DecodeValueCons(vs[0], ValueElems(vs[1..]), LabelledValues(vs[1..]));
    }
  }

  lemma ValueElemsCons(vs: seq<string>)
    requires vs != []
    ensures ValueElems(vs) == [ValueElem(vs[0])] + ValueElems(vs[1..])
    ensures LabelledValues(vs) == [PicklistValue(vs[0], "false", Some(vs[0]))] + LabelledValues(vs[1..])
  {
  }

  /** One more `value` element in front decodes to one more value in front. */
  lemma DecodeValueCons(v: string, rest: seq<Elem>, pvs: seq<PicklistValue>)
    requires DecodeValues(rest) == Some(pvs)
    ensures DecodeValues([ValueElem(v)] + rest) == Some([PicklistValue(v, "false", Some(v))] + pvs)
  {
    assert ([ValueElem(v)] + rest)[1..] == rest;
  }


  /**
   * The loop that fills `valueSetDefinition` after its `sorted` child: one
   * `value` per `;` item that is not blank once stripped, in input order.
   */
  method PicklistValueElems(details: string) returns (elems: seq<Elem>)
    ensures elems == ValueElems(PicklistItems(details))
  {
    var items := SplitOn(details, ';');
    elems := [];
    for k := 0 to |items|
      invariant elems == ValueElems(NonBlankStripped(items[..k]))
    {
      var v := Strip(items[k]);
      ValueElemsStep(items, k);
      if v != "" {
        elems := elems + [ValueElem(v)];
      }
    }
    assert items[..|items|] == items;
  }

  /** One more item extends the `value` elements by its own element, when it is not blank. */
  lemma ValueElemsStep(items: seq<string>, k: nat)
    requires k < |items|
    ensures ValueElems(NonBlankStripped(items[..k + 1]))
         == ValueElems(NonBlankStripped(items[..k])) + (if Strip(items[k]) != "" then [ValueElem(Strip(items[k]))] else [])
  {
    var pre := items[..k + 1];
    assert pre[..k] == items[..k] && pre[k] == items[k];
    NonBlankStrippedLast(pre);
    ValueElemsSnoc(NonBlankStripped(items[..k]), Strip(items[k]));
  }

  lemma ValueElemsSnoc(vs: seq<string>, v: string)
    ensures ValueElems(vs + (if v == [] then [] else [v])) == ValueElems(vs) + (if v != "" then [ValueElem(v)] else [])
  {
    if v != "" {
      assert ValueElems(vs + [v]) == ValueElems(vs) + [ValueElem(v)];
    } else {
      assert vs + [] == vs;
    }
  }

  /** The children of a `valueSet` naming a global set. */
  function GlobalValueSetChildren(name: string): (cs: seq<Elem>)
    ensures DecodeValueSet(cs) == Some(GlobalSet(name, Some("true")))
    ensures Tags(cs) == [ValueSetName, Restricted]
  {
    var c := Append([], Leaf(ValueSetName, name));
    AppendFacts([], Leaf(ValueSetName, name));
    AppendFacts(c, Leaf(Restricted, "true"));
    Append(c, Leaf(Restricted, "true"))
  }

  /** The children of a `valueSet` defining the items `vs` inline, unsorted and restricted. */
  function InlineValueSetChildren(vs: seq<string>): (cs: seq<Elem>)
    ensures DecodeValueSet(cs) == Some(InlineSet(Some("false"), LabelledValues(vs), Some("true")))
    ensures Tags(cs) == [ValueSetDefinition, Restricted]
    ensures cs[0].children == [Leaf(Sorted, "false")] + ValueElems(vs)
  {
    var definition := Node(ValueSetDefinition, [Leaf(Sorted, "false")] + ValueElems(vs));
    var cs := Append(Append([], definition), Leaf(Restricted, "true"));
    AppendFacts([], definition);
    AppendFacts(Append([], definition), Leaf(Restricted, "true"));
    InlineValueSetDecodes(vs, definition, cs);
    cs
  }

  lemma InlineValueSetDecodes(vs: seq<string>, definition: Elem, cs: seq<Elem>)
    requires definition == Node(ValueSetDefinition, [Leaf(Sorted, "false")] + ValueElems(vs))
    requires cs == Append(Append([], definition), Leaf(Restricted, "true"))
    ensures DecodeValueSet(cs) == Some(InlineSet(Some("false"), LabelledValues(vs), Some("true")))
  {
    DecodeValueElems(vs);
    SortedFirst(ValueElems(vs));
    DecodeRestrictedDefinition(definition, LabelledValues(vs));
  }

  /** A leading `sorted` leaf is skipped by the value reader and found by the lookup. */
  lemma SortedFirst(es: seq<Elem>)
    ensures DecodeValues([Leaf(Sorted, "false")] + es) == DecodeValues(es)
    ensures TextOf([Leaf(Sorted, "false")] + es, Sorted) == Some("false")
  {
    assert ([Leaf(Sorted, "false")] + es)[1..] == es;
  }

  /** The `valueSet` element of a batch picklist descriptor. */
  function ValueSetElem(details: string): (e: Elem)
    ensures e.tag == ValueSet
    ensures DecodeValueSet(e.children) == Some(BatchValueSet(details))
    ensures IsGlobalRef(details) ==> Tags(e.children) == [ValueSetName, Restricted]
    ensures !IsGlobalRef(details) ==>
      && Tags(e.children) == [ValueSetDefinition, Restricted]
      && e.children[0].children == [Leaf(Sorted, "false")] + ValueElems(PicklistItems(details))
  {
    if IsGlobalRef(details) then Node(ValueSet, GlobalValueSetChildren(Strip(details[7..])))
    else Node(ValueSet, InlineValueSetChildren(PicklistItems(details)))
  }

  /** The header and one type-specific leaf. */
  function OneLeafChildren(n: Names, typeName: string, tag: Tag, text: string): (cs: seq<Elem>)
    requires tag != FullName && tag != Label && tag != Required && tag != Type
    ensures Tags(cs) == [FullName, Label, Required, Type, tag]
    ensures TextOf(cs, FullName) == Some(n.devName) && TextOf(cs, Label) == Some(n.labelText)
    ensures TextOf(cs, Required) == Some("false") && TextOf(cs, Type) == Some(typeName)
    ensures TextOf(cs, tag) == Some(text)
  {
    var h := Header(n.labelText, n.devName, typeName);
    AppendFacts(h, Leaf(tag, text));
    Append(h, Leaf(tag, text))
  }

  /** The layout of a number or currency field: the header, precision and scale. */
  function NumericChildren(n: Names, typeName: string, precision: string, scale: string): (cs: seq<Elem>)
    ensures Tags(cs) == [FullName, Label, Required, Type, Precision, Scale]
    ensures TextOf(cs, FullName) == Some(n.devName) && TextOf(cs, Label) == Some(n.labelText)
    ensures TextOf(cs, Required) == Some("false") && TextOf(cs, Type) == Some(typeName)
    ensures TextOf(cs, Precision) == Some(precision) && TextOf(cs, Scale) == Some(scale)
  {
    var h := Header(n.labelText, n.devName, typeName);
    AppendFacts(h, Leaf(Precision, precision));
    var c := Append(h, Leaf(Precision, precision));
    AppendFacts(c, Leaf(Scale, scale));
    Append(c, Leaf(Scale, scale))
  }

  /** A batch number or currency descriptor has no default value. */
  lemma NumericLacksDefault(n: Names, typeName: string, precision: string, scale: string)
    ensures TextOf(NumericChildren(n, typeName, precision, scale), DefaultValue) == None
  {
    var h := Header(n.labelText, n.devName, typeName);
    FindAppend(h, Leaf(Precision, precision), DefaultValue);
    var c := Append(h, Leaf(Precision, precision));
    FindAppend(c, Leaf(Scale, scale), DefaultValue);
  }

  /** The layout of a picklist field: the header, then the `valueSet` element `vs`. */
  function PicklistChildren(n: Names, vs: Elem): (cs: seq<Elem>)
    requires vs.tag == ValueSet
    ensures Tags(cs) == [FullName, Label, Required, Type, ValueSet]
    ensures TextOf(cs, FullName) == Some(n.devName) && TextOf(cs, Label) == Some(n.labelText)
    ensures TextOf(cs, Required) == Some("false") && TextOf(cs, Type) == Some("Picklist")
    ensures Find(cs, ValueSet) == Some(vs)
  {
    var h := Header(n.labelText, n.devName, "Picklist");
    AppendFacts(h, vs);
    Append(h, vs)
  }

  /**
   * The child tags `create_field_xml` writes for a field of kind `k`: the
   * header `fullName`, `label`, `required`, `type`, then the kind's own children.
   */
  function Layout(k: Kind): (tags: seq<Tag>)
    ensures 4 <= |tags| && tags[..4] == [FullName, Label, Required, Type]
  {
    match k
    case TextKind(_) => [FullName, Label, Required, Type, Length]
    case NumberKind(_, _, _) => [FullName, Label, Required, Type, Precision, Scale]
    case CurrencyKind(_, _, _) => [FullName, Label, Required, Type, Precision, Scale]
    case DateKind => [FullName, Label, Required, Type]
    case DateTimeKind => [FullName, Label, Required, Type]
    case CheckboxKind(_) => [FullName, Label, Required, Type, DefaultValue]
    case LookupKind(_) => [FullName, Label, Required, Type, ReferenceTo]
    case PicklistKind(_) => [FullName, Label, Required, Type, ValueSet]
  }

  /** The field kinds `create_field_xml` lays out, each after the common header. */
  function TextField(n: Names): (r: Elem)
    ensures Decode(r) == Some(Field(n.devName, n.labelText, "false", TextKind("255")))
    ensures Tags(r.children) == [FullName, Label, Required, Type, Length]
    ensures Tags(r.children) == Layout(Decode(r).value.kind)
  {
    var cs := OneLeafChildren(n, "Text", Length, "255");
    DecodeRoot(cs, Field(n.devName, n.labelText, "false", TextKind("255")));
    Root(cs)
  }

  /** A number field: precision and scale, and no default value. */
  function NumberField(n: Names, precision: string, scale: string): (r: Elem)
    ensures Decode(r) == Some(Field(n.devName, n.labelText, "false", NumberKind(precision, scale, None)))
    ensures Tags(r.children) == [FullName, Label, Required, Type, Precision, Scale]
    ensures Tags(r.children) == Layout(Decode(r).value.kind)
  {
    var cs := NumericChildren(n, "Number", precision, scale);
    NumericLacksDefault(n, "Number", precision, scale);
    DecodeRoot(cs, Field(n.devName, n.labelText, "false", NumberKind(precision, scale, None)));
    Root(cs)
  }

  /** A currency field: precision and scale, and no default value. */
  function CurrencyField(n: Names, precision: string, scale: string): (r: Elem)
    ensures Decode(r) == Some(Field(n.devName, n.labelText, "false", CurrencyKind(precision, scale, None)))
    ensures Tags(r.children) == [FullName, Label, Required, Type, Precision, Scale]
    ensures Tags(r.children) == Layout(Decode(r).value.kind)
  {
    var cs := NumericChildren(n, "Currency", precision, scale);
    NumericLacksDefault(n, "Currency", precision, scale);
    DecodeRoot(cs, Field(n.devName, n.labelText, "false", CurrencyKind(precision, scale, None)));
    Root(cs)
  }

  function DateField(n: Names): (r: Elem)
    ensures Decode(r) == Some(Field(n.devName, n.labelText, "false", DateKind))
    ensures Tags(r.children) == [FullName, Label, Required, Type]
    ensures Tags(r.children) == Layout(Decode(r).value.kind)
  {
    var cs := Header(n.labelText, n.devName, "Date");
    DecodeRoot(cs, Field(n.devName, n.labelText, "false", DateKind));
    Root(cs)
  }

  function DateTimeField(n: Names): (r: Elem)
    ensures Decode(r) == Some(Field(n.devName, n.labelText, "false", DateTimeKind))
    ensures Tags(r.children) == [FullName, Label, Required, Type]
    ensures Tags(r.children) == Layout(Decode(r).value.kind)
  {
    var cs := Header(n.labelText, n.devName, "DateTime");
    DecodeRoot(cs, Field(n.devName, n.labelText, "false", DateTimeKind));
    Root(cs)
  }

  function CheckboxField(n: Names): (r: Elem)
    ensures Decode(r) == Some(Field(n.devName, n.labelText, "false", CheckboxKind("false")))
    ensures Tags(r.children) == [FullName, Label, Required, Type, DefaultValue]
    ensures Tags(r.children) == Layout(Decode(r).value.kind)
  {
    var cs := OneLeafChildren(n, "Checkbox", DefaultValue, "false");
    DecodeRoot(cs, Field(n.devName, n.labelText, "false", CheckboxKind("false")));
    Root(cs)
  }

  function LookupField(n: Names, referenceTo: string): (r: Elem)
    ensures Decode(r) == Some(Field(n.devName, n.labelText, "false", LookupKind(referenceTo)))
    ensures Tags(r.children) == [FullName, Label, Required, Type, ReferenceTo]
    ensures Tags(r.children) == Layout(Decode(r).value.kind)
  {
    var cs := OneLeafChildren(n, "Lookup", ReferenceTo, referenceTo);
    DecodeRoot(cs, Field(n.devName, n.labelText, "false", LookupKind(referenceTo)));
    Root(cs)
  }

  function PicklistField(n: Names, details: string): (r: Elem)
    ensures Decode(r) == Some(Field(n.devName, n.labelText, "false", PicklistKind(BatchValueSet(details))))
    ensures Tags(r.children) == [FullName, Label, Required, Type, ValueSet]
    ensures Find(r.children, ValueSet) == Some(ValueSetElem(details))
    ensures Tags(r.children) == Layout(Decode(r).value.kind)
  {
    var cs := PicklistChildren(n, ValueSetElem(details));
    DecodeRoot(cs, Field(n.devName, n.labelText, "false", PicklistKind(BatchValueSet(details))));
    Root(cs)
  }

  /**
   * The layout `create_field_xml` picks for the stripped, lower-cased type
   * name `t`: the descriptor reads back as the field the batch script means,
   * and it fails exactly when that meaning does.
   */
  function BuildField(n: Names, t: string, details: string): (r: Result<Elem, BuildError>)
    ensures match BatchKind(t, details)
      case Failure(e) => r == Failure(e)
      case Success(k) =>
        && r.Success? && Decode(r.value) == Some(Field(n.devName, n.labelText, "false", k))
        && Tags(r.value.children) == Layout(k)
  {
    if t == "number" || t == "currency" then NumericField(n, t, details)
    else Success(OtherField(n, t, details))
  }

  /** The number and currency layouts: the details column must unpack into precision and scale. */
  function NumericField(n: Names, t: string, details: string): (r: Result<Elem, BuildError>)
    requires t == "number" || t == "currency"
    ensures match BatchKind(t, details)
      case Failure(e) => r == Failure(e)
      case Success(k) =>
        && r.Success? && Decode(r.value) == Some(Field(n.devName, n.labelText, "false", k))
        && Tags(r.value.children) == Layout(k)
  {
    match NumberDetails(details)
    case Failure(e) => Failure(e)
    case Success((p, s)) =>
      Success(if t == "number" then NumberField(n, Strip(p), Strip(s)) else CurrencyField(n, Strip(p), Strip(s)))
  }

  /** Every other layout, which cannot fail. */
  function OtherField(n: Names, t: string, details: string): (r: Elem)
    requires t != "number" && t != "currency"
    ensures BatchKind(t, details).Success? && Decode(r) == Some(Field(n.devName, n.labelText, "false", BatchKind(t, details).value))
    ensures Tags(r.children) == Layout(BatchKind(t, details).value)
  {
    if t == "date" then DateField(n)
    else if t == "datetime" || t == "date time" then DateTimeField(n)
    else if t == "checkbox" || t == "boolean" then CheckboxField(n)
    else if t == "lookup" then LookupField(n, if details != "" then Strip(details) else "Account")
    else if t == "picklist" then PicklistField(n, details)
    else TextField(n)
  }

  /** `create_field_xml` up to pretty-printing: the identifier is normalised and the type name stripped and lower-cased. */
  function CreateFieldXml(labelInput: string, fieldType: string, details: string): (r: Result<Elem, BuildError>)
    ensures var n := ProcessLabelInput(labelInput);
      match BatchKind(Lower(Strip(fieldType)), details)
      case Failure(e) => r == Failure(e)
      case Success(k) =>
        && r.Success? && Decode(r.value) == Some(Field(n.devName, n.labelText, "false", k))
        && Tags(r.value.children) == Layout(k)
  {
    BuildField(ProcessLabelInput(labelInput), Lower(Strip(fieldType)), details)
  }

  /** The only failure of the batch layout is a number or currency column with two or more commas. */
  lemma BatchKindFails(t: string, details: string)
    ensures BatchKind(t, details).Failure? <==> (t == "number" || t == "currency") && multiset(details)[','] >= 2
  {
  }

  // ---------------------------------------------------------------------
  // The input file, line by line.

  /** What one line of the input file says, once stripped. */
  datatype Line =
    | Skip                                                    // blank, or a `#` comment
    | Malformed(text: string)                                 // no comma: reported, no file
    | Entry(fieldId: string, fieldType: string, details: string)

  /**
   * The body of `process_input_file`'s loop up to building the descriptor:
   * strip the line, skip blanks and comments, split at the first two commas,
   * and strip each column; the details column is empty when there is no
   * second comma.
   */
  function ParseLine(line: string): (r: Line)
    ensures r.Skip? <==> Strip(line) == "" || StartsWith(Strip(line), "#")
    ensures r.Malformed? <==> !r.Skip? && ',' !in Strip(line)
    ensures r.Malformed? ==> r.text == Strip(line)
    ensures r.Entry? ==> var parts := SplitAtMost(Strip(line), ',', 2);
      && 2 <= |parts|
      && r.fieldId == Strip(parts[0]) && r.fieldType == Strip(parts[1])
      && r.details == (if |parts| > 2 then Strip(parts[2]) else "")
    ensures r.Entry? ==> Trimmed(r.fieldId) && Trimmed(r.fieldType) && Trimmed(r.details)
  {
    ParseStripped(Strip(line))
  }

  /** A stripped line: blank or comment, else its comma-separated columns. */
  function ParseStripped(t: string): (r: Line)
    ensures r.Skip? <==> t == "" || StartsWith(t, "#")
    ensures r.Malformed? <==> !r.Skip? && ',' !in t
    ensures r.Malformed? ==> r.text == t
    ensures r.Entry? ==> var parts := SplitAtMost(t, ',', 2);
      && 2 <= |parts|
      && r.fieldId == Strip(parts[0]) && r.fieldType == Strip(parts[1])
      && r.details == (if |parts| > 2 then Strip(parts[2]) else "")
    ensures r.Entry? ==> Trimmed(r.fieldId) && Trimmed(r.fieldType) && Trimmed(r.details)
  {
    if t == "" || StartsWith(t, "#") then Skip
    else
      var parts := SplitAtMost(t, ',', 2);
      assert |parts| < 2 ==> Join([','], parts) == parts[0];
      Columns(t, parts)
  }

  /**
   * `parts = line.split(",", 2)` taken apart: too few parts is a malformed
   * line, else the columns are the first two parts and the third (or
   * nothing), each stripped.
   */
  function Columns(t: string, parts: seq<string>): (r: Line)
    ensures r.Malformed? <==> |parts| < 2
    ensures r.Malformed? ==> r.text == t
    ensures r.Entry? ==>
      && 2 <= |parts|
      && r.fieldId == Strip(parts[0]) && r.fieldType == Strip(parts[1])
      && r.details == (if |parts| > 2 then Strip(parts[2]) else "")
    ensures r.Entry? ==> Trimmed(r.fieldId) && Trimmed(r.fieldType) && Trimmed(r.details)
  {
    if |parts| < 2 then Malformed(t)
    else Entry(Strip(parts[0]), Strip(parts[1]), if |parts| > 2 then Strip(parts[2]) else "")
  }

  /**
   * The line `a,b,c`, with no comma in `a` or `b` and no `#` in front of the
   * stripped `a`, reads back as its three columns stripped; any later commas
   * stay in the details.
   */
  lemma ParseThreeColumns(a: string, b: string, c: string)
    requires ',' !in a && ',' !in b && !StartsWith(Strip(a), "#")
    ensures ParseLine(a + "," + b + "," + c) == Entry(Strip(a), Strip(b), Strip(c))
  {
    var l, r := LStrip(a), RStrip(c);
    var rest := b + [','] + r;
    StripThreeColumns(a, b, c);
    StripFree(a, ',');
    SplitAtMostFirst(l, rest, ',', 2);
    SplitAtMostFirst(b, r, ',', 1);
    assert SplitAtMost(r, ',', 0) == [r];
    NotCommentLine(a, rest);
    StripLStrip(a);
    StripRStrip(c);
  }

  lemma StripThreeColumns(a: string, b: string, c: string)
    ensures Strip(a + "," + b + "," + c) == LStrip(a) + [','] + (b + [','] + RStrip(c))
  {
    var m := [','] + b + [','];
    CommaAround(a, b, c);
    StripAround(a, m, c);
    CommaAround(LStrip(a), b, RStrip(c));
  }

  /** How the line `a,b,c` is put together, grouped both ways. */
  lemma CommaAround(a: string, b: string, c: string)
    ensures a + "," + b + "," + c == a + ([','] + b + [',']) + c == a + [','] + (b + [','] + c)
  {
  }

  /**
   * The line `a,b`, with no comma in either and no `#` in front of the
   * stripped `a`, reads back as its two columns stripped and empty details.
   */
  lemma ParseTwoColumns(a: string, b: string)
    requires ',' !in a && ',' !in b && !StartsWith(Strip(a), "#")
    ensures ParseLine(a + "," + b) == Entry(Strip(a), Strip(b), "")
  {
    var l, r := LStrip(a), RStrip(b);
    StripTwoColumns(a, b);
    StripFree(a, ',');
    StripFree(b, ',');
    SplitAtMostFirst(l, r, ',', 2);
    assert SplitAtMost(r, ',', 1) == [r];
    NotCommentLine(a, r);
    StripLStrip(a);
    StripRStrip(b);
  }

  lemma StripTwoColumns(a: string, b: string)
    ensures Strip(a + "," + b) == LStrip(a) + [','] + RStrip(b)
  {
    assert a + "," + b == a + [','] + b;
    StripAround(a, [','], b);
  }

  /** A first column that is not a comment once stripped keeps the whole line from being one. */
  lemma NotCommentLine(a: string, rest: string)
    requires !StartsWith(Strip(a), "#")
    ensures var s := LStrip(a) + [','] + rest; s != [] && !StartsWith(s, "#") && ',' in s
  {
    var l := LStrip(a);
    CommaAfter(l, rest);
    if l != [] {
      RStripFirst(l);
      assert Strip(a)[..1] == l[..1];
    }
  }

  /** The line `l,rest` holds a comma and starts as `l` does, or with the comma. */
  lemma CommaAfter(l: string, rest: string)
    ensures var s := l + [','] + rest;
      && s != [] && ',' in s
      && s[..1] == (if l == [] then [','] else l[..1])
  {
    var s := l + [','] + rest;
    assert s[|l|] == ',';
    assert s[..1] == (if l == [] then [','] else l[..1]) by {
      assert s[0] == (if l == [] then ',' else l[0]);
    }
  }

  /** A line that is not skipped, with its 1-based line number. */
  datatype Numbered = Numbered(lineno: nat, line: Line)

  /** What every line of the file says, in order. */
  function ParseAll(lines: seq<string>): (r: seq<Line>)
    ensures |r| == |lines|
  {
    seq(|lines|, i requires 0 <= i < |lines| => ParseLine(lines[i]))
  }

  /** The lines that are not skipped, numbered from `first`, in file order. */
  function Listed(ls: seq<Line>, first: nat): (r: seq<Numbered>)
    ensures |r| <= |ls|
    ensures forall k | 0 <= k < |r| :: !r[k].line.Skip?
    decreases |ls|
  {
    if ls == [] then []
    else
      var rest := Listed(ls[1..], first + 1);
      if ls[0].Skip? then rest
      else
        var r := [Numbered(first, ls[0])] + rest;
        assert forall k | 0 < k < |r| :: r[k] == rest[k - 1];
        r
  }

  /** The lines of the file `process_input_file` acts on, numbered from 1. */
  function ParseLines(lines: seq<string>): seq<Numbered>
  {
    Listed(ParseAll(lines), 1)
  }

  /** Every listed line is what the file's line of that number says, and is not skipped. */
  lemma ParseLinesSound(lines: seq<string>, k: nat)
    requires k < |ParseLines(lines)|
    ensures var e := ParseLines(lines)[k];
      1 <= e.lineno <= |lines| && e.line == ParseLine(lines[e.lineno - 1]) && !e.line.Skip?
  {
    var ls := ParseAll(lines);
    var i := ListedIndex(ls, k);
    assert ls[i] == ParseLine(lines[i]);
  }

  lemma ListedIndex(ls: seq<Line>, k: nat) returns (i: nat)
    requires k < |Listed(ls, 1)|
    ensures i < |ls| && Listed(ls, 1)[k] == Numbered(i + 1, ls[i]) && !ls[i].Skip?
  {
    ListedSound(ls, 1, k);
    i := Listed(ls, 1)[k].lineno - 1;
  }

  /** The listed lines keep the order of the file. */
  lemma ParseLinesOrdered(lines: seq<string>, j: nat, k: nat)
    requires j < k < |ParseLines(lines)|
    ensures ParseLines(lines)[j].lineno < ParseLines(lines)[k].lineno
  {
    ListedOrdered(ParseAll(lines), 1, j, k);
  }

  /** Every line of the file that is not skipped is listed under its own number. */
  lemma ParseLinesComplete(lines: seq<string>, i: nat) returns (k: nat)
    requires i < |lines| && !ParseLine(lines[i]).Skip?
    ensures k < |ParseLines(lines)| && ParseLines(lines)[k] == Numbered(i + 1, ParseLine(lines[i]))
  {
    var ls := ParseAll(lines);
    k := ListedComplete(ls, 1, i);
    ListedSound(ls, 1, k);
  }

  /** Every line listed is what the file's line of that number says. */
  lemma {:induction false} ListedSound(ls: seq<Line>, first: nat, k: nat)
    requires k < |Listed(ls, first)|
    ensures var e := Listed(ls, first)[k];
      first <= e.lineno < first + |ls| && e.line == ls[e.lineno - first]
    decreases |ls|
  {
    var rest := Listed(ls[1..], first + 1);
    if ls[0].Skip? {
      ListedSound(ls[1..], first + 1, k);
    } else if k > 0 {
      ListedSound(ls[1..], first + 1, k - 1);
    }
  }

  /** Every line that is not skipped is listed. */
  lemma {:induction false} ListedComplete(ls: seq<Line>, first: nat, i: nat) returns (k: nat)
    requires i < |ls| && !ls[i].Skip?
    ensures k < |Listed(ls, first)| && Listed(ls, first)[k].lineno == first + i
    decreases i
  {
    if i == 0 {
      k := 0;
    } else {
      var k' := ListedComplete(ls[1..], first + 1, i - 1);
      k := if ls[0].Skip? then k' else k' + 1;
    }
  }

  /** Line numbers only grow down the list. */
  lemma {:induction false} ListedOrdered(ls: seq<Line>, first: nat, j: nat, k: nat)
    requires j < k < |Listed(ls, first)|
    ensures Listed(ls, first)[j].lineno < Listed(ls, first)[k].lineno
    decreases |ls|
  {
    if ls[0].Skip? {
      ListedOrdered(ls[1..], first + 1, j, k);
    } else if j > 0 {
      ListedOrdered(ls[1..], first + 1, j - 1, k - 1);
    } else {
      ListedSound(ls[1..], first + 1, k - 1);
    }
  }

  /** Listing a file in two pieces: the second piece is numbered on from the first. */
  lemma {:induction false} ListedConcat(a: seq<Line>, b: seq<Line>, first: nat)
    ensures Listed(a + b, first) == Listed(a, first) + Listed(b, first + |a|)
    decreases |a|
  {
    if a == [] {
      assert a + b == b;
    } else {
      assert (a + b)[1..] == a[1..] + b;
      ListedConcat(a[1..], b, first + 1);
    }
  }

  // ---------------------------------------------------------------------
  // Processing the file.

  /** What processing one listed line does, as seen from outside the script. */
  datatype Event =
    | Wrote(path: string, root: Elem)             // a descriptor file was written
    | ReportedInvalid(lineno: nat, text: string)  // "invalid format" was printed
    | Crashed(lineno: nat, error: BuildError)     // `create_field_xml` raised; processing stops

  /** The directory the descriptor files are written to. */
  const OutputDir := "output_xml"

  /** The extension of a field descriptor file. */
  const Extension := ".field-meta.xml"

  /** POSIX `os.path.join(dir, name)` for a `dir` that does not end with `/`. */
  function JoinPath(dir: string, name: string): (r: string)
    ensures StartsWith(name, "/") ==> r == name
    ensures !StartsWith(name, "/") ==> r == dir + "/" + name
  {
    if StartsWith(name, "/") then name else dir + "/" + name
  }

  /** Where the descriptor of the field named `devName` is written. */
  function OutputPath(devName: string): (path: string)
    ensures StartsWith(devName, "/") ==> path == devName + Extension
    ensures !StartsWith(devName, "/") ==> path == OutputDir + "/" + devName + Extension
    ensures EndsWith(path, Extension)
  {
    var name := devName + Extension;
    FirstOfName(devName);
    EndsWithConcat(if StartsWith(devName, "/") then [] else OutputDir + "/" + devName, Extension);
    JoinPath(OutputDir, name)
  }

  /** The file name starts with `/` exactly when the field name does. */
  lemma FirstOfName(devName: string)
    ensures StartsWith(devName + Extension, "/") <==> StartsWith(devName, "/")
  {
    var name := devName + Extension;
    if devName == [] {
      assert name == Extension && name[..1] == ".";
    } else {
      assert name[..1] == devName[..1];
    }
  }

  /** What processing one listed line does. */
  function LineEvent(e: Numbered): (ev: Event)
    requires !e.line.Skip?
    ensures e.line.Malformed? ==> ev == ReportedInvalid(e.lineno, e.line.text)
    ensures e.line.Entry? ==> var n := ProcessLabelInput(e.line.fieldId);
      match BatchKind(Lower(Strip(e.line.fieldType)), e.line.details)
      case Failure(err) => ev == Crashed(e.lineno, err)
      case Success(k) =>
        && ev.Wrote? && ev.path == OutputPath(n.devName)
        && Decode(ev.root) == Some(Field(n.devName, n.labelText, "false", k))
        && Tags(ev.root.children) == Layout(k)
  {
    match e.line
    case Malformed(text) => ReportedInvalid(e.lineno, text)
    case Entry(fieldId, fieldType, details) =>
      match CreateFieldXml(fieldId, fieldType, details)
      case Failure(err) => Crashed(e.lineno, err)
      case Success(root) => Wrote(OutputPath(ProcessLabelInput(fieldId).devName), root)
  }

  /** The events of `evs` up to and including the first crash. */
  function UpToCrash(evs: seq<Event>): (r: seq<Event>)
    ensures |r| <= |evs| && r == evs[..|r|]
    ensures forall k | 0 <= k < |r| - 1 :: !r[k].Crashed?
    ensures |r| < |evs| ==> r != [] && r[|r| - 1].Crashed?
  {
    if evs == [] then []
    else if evs[0].Crashed? then [evs[0]]
    else
      var rest := UpToCrash(evs[1..]);
      assert evs[..|rest| + 1] == [evs[0]] + evs[1..][..|rest|];
      [evs[0]] + rest
  }

  /** The event of every listed line, in order, as if none of them stopped the run. */
  function Events(entries: seq<Numbered>): (evs: seq<Event>)
    requires forall k | 0 <= k < |entries| :: !entries[k].line.Skip?
    ensures |evs| == |entries|
  {
    if entries == [] then [] else [LineEvent(entries[0])] + Events(entries[1..])
  }

  lemma {:induction false} EventsAt(entries: seq<Numbered>, k: nat)
    requires forall k | 0 <= k < |entries| :: !entries[k].line.Skip?
    requires k < |entries|
    ensures Events(entries)[k] == LineEvent(entries[k])
  {
    if k > 0 {
      EventsAt(entries[1..], k - 1);
    }
  }

  /**
   * The events of the listed lines, in order, up to and including the first
   * crash: event `k` is what line `k` did, and only the last event can be a crash.
   */
  function Emit(entries: seq<Numbered>): (events: seq<Event>)
    requires forall k | 0 <= k < |entries| :: !entries[k].line.Skip?
    ensures |events| <= |entries|
    ensures forall k | 0 <= k < |events| :: events[k] == LineEvent(entries[k])
    ensures forall k | 0 <= k < |events| - 1 :: !events[k].Crashed?
    ensures |events| < |entries| ==> events != [] && events[|events| - 1].Crashed?
  {
    var evs := Events(entries);
    var events := UpToCrash(evs);
    forall k | 0 <= k < |events| ensures events[k] == LineEvent(entries[k]) {
      EventsAt(entries, k);
    }
    events
  }

  /** The events of one more line in front: its own event, and the rest only if it did not crash. */
  lemma EmitCons(e: Numbered, tail: seq<Numbered>)
    requires !e.line.Skip? && forall k | 0 <= k < |tail| :: !tail[k].line.Skip?
    ensures var entries := [e] + tail;
      Emit(entries) == if LineEvent(e).Crashed? then [LineEvent(e)] else [LineEvent(e)] + Emit(tail)
  {
    var entries := [e] + tail;
    assert entries[0] == e && entries[1..] == tail;
    assert Events(entries) == [LineEvent(e)] + Events(tail);
  }

  /**
   * One turn of `process_input_file`'s loop keeps `all == done + <events of
   * the lines from i on>`: a skipped line adds nothing, another line adds its
   * event, and a crash leaves nothing after it.
   */
  lemma EmitFrom(ls: seq<Line>, i: nat, done: seq<Event>, all: seq<Event>)
    requires i < |ls|
    requires all == done + Emit(Listed(ls[i..], i + 1))
    ensures var rest := Emit(Listed(ls[i + 1..], i + 2));
      if ls[i].Skip? then all == done + rest
      else var ev := LineEvent(Numbered(i + 1, ls[i]));
        if ev.Crashed? then all == done + [ev] else all == (done + [ev]) + rest
  {
    var tail := Listed(ls[i + 1..], i + 2);
    ListedStep(ls, i);
    if !ls[i].Skip? {
      EmitCons(Numbered(i + 1, ls[i]), tail);
    }
  }

  /** Listing from line `i` on: line `i` itself unless it is skipped, then the lines after it. */
  lemma ListedStep(ls: seq<Line>, i: nat)
    requires i < |ls|
    ensures Listed(ls[i..], i + 1)
         == if ls[i].Skip? then Listed(ls[i + 1..], i + 2) else [Numbered(i + 1, ls[i])] + Listed(ls[i + 1..], i + 2)
  {
    assert ls[i..][0] == ls[i] && ls[i..][1..] == ls[i + 1..];
  }

  /**
   * `process_input_file` once the file is open: each line in turn is
   * stripped and split; a malformed line is reported, an entry's descriptor
   * is written to its file, and the first entry `create_field_xml` rejects
   * ends the run. The events are exactly `Emit` of the listed lines.
   */
  method ProcessInputFile(lines: seq<string>) returns (events: seq<Event>)
    ensures events == Emit(ParseLines(lines))
  {
    ghost var ls := ParseAll(lines);
    ghost var all := Emit(ParseLines(lines));
    assert ls[0..] == ls;
    assert ParseLines(lines) == Listed(ls[0..], 1);
    events := [];
    var i := 0;
    assert all == events + Emit(Listed(ls[i..], i + 1));
    while i < |lines|
      invariant 0 <= i <= |lines|
      invariant all == events + Emit(Listed(ls[i..], i + 1))
    {
      EmitFrom(ls, i, events, all);
      var line := ParseLine(lines[i]);
      assert line == ls[i];
      if !line.Skip? {
        var event := LineEvent(Numbered(i + 1, line));
        events := events + [event];
        if event.Crashed? {
          return;
        }
      }
      i := i + 1;
    }
    assert ls[i..] == [];
  }

  /**
   * Every file the run writes holds a well-formed descriptor and is named
   * after the field it describes.
   */
  lemma WrittenFilesNamedAfterField(lines: seq<string>, k: nat)
    requires k < |Emit(ParseLines(lines))| && Emit(ParseLines(lines))[k].Wrote?
    ensures var ev := Emit(ParseLines(lines))[k];
      && Decode(ev.root).Some? && ev.path == OutputPath(Decode(ev.root).value.fullName)
      && Tags(ev.root.children) == Layout(Decode(ev.root).value.kind)
  {
    var entries := ParseLines(lines);
    var e := entries[k];
    var ev := Emit(entries)[k];
    assert ev == LineEvent(e);
    var n := ProcessLabelInput(e.line.fieldId);
    var t := Lower(Strip(e.line.fieldType));
    assert CreateFieldXml(e.line.fieldId, e.line.fieldType, e.line.details) == Success(ev.root);
    assert BatchKind(t, e.line.details).Success?;
  }

  /**
   * Building a descriptor stops a run early only at an entry whose type is
   * number or currency and whose details hold two or more commas; that
   * entry's crash is the last event. (Opening an output file and
   * serialising the tree, which can also raise, are outside this model.)
   */
  lemma CrashOnlyOnUnpackableNumbers(lines: seq<string>, k: nat)
    requires k < |Emit(ParseLines(lines))| && Emit(ParseLines(lines))[k].Crashed?
    ensures var e := ParseLines(lines)[k];
      && k == |Emit(ParseLines(lines))| - 1
      && e.line.Entry?
      && (Lower(Strip(e.line.fieldType)) == "number" || Lower(Strip(e.line.fieldType)) == "currency")
      && multiset(e.line.details)[','] >= 2
  {
    var entries := ParseLines(lines);
    var e := entries[k];
    assert Emit(entries)[k] == LineEvent(e);
    assert e.line.Entry?;
    var t := Lower(Strip(e.line.fieldType));
    assert BatchKind(t, e.line.details).Failure?;
    BatchKindFails(t, e.line.details);
  }

  /** When no entry is rejected, every listed line has its event. */
  lemma RunWithoutCrash(lines: seq<string>)
    requires forall k | 0 <= k < |ParseLines(lines)| :: !LineEvent(ParseLines(lines)[k]).Crashed?
    ensures |Emit(ParseLines(lines))| == |ParseLines(lines)|
  {
  }
}
