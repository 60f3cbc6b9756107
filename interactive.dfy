/**
 * The interactive script: one `create_*_field` builder per field type,
 * `get_input`'s defaulting, and what one round of the prompt loop produces
 * from the answers it was given.
 */
module InteractiveCreator {
  import opened Wrappers
  import opened PyStrings
  import opened Xml
  import opened FieldDescriptor
  import opened Normalizer

  /** `get_input`: the entered text, or the default when nothing was entered. */
  function GetInput(entered: string, default: string): (r: string)
    ensures entered == "" ==> r == default
    ensures entered != "" ==> r == entered
  {
    if entered != "" then entered else default
  }

  /** The first three children every builder here appends: `fullName`, `label`, `type`. */
  function Header(labelText: string, devName: string, typeName: string): (cs: seq<Elem>)
    ensures Tags(cs) == [FullName, Label, Type]
    ensures TextOf(cs, FullName) == Some(devName) && TextOf(cs, Label) == Some(labelText)
    ensures TextOf(cs, Type) == Some(typeName)
    ensures forall tag | tag != FullName && tag != Label && tag != Type :: Find(cs, tag) == None
  {
    var c1 := Append([], Leaf(FullName, devName));
    AppendFacts([], Leaf(FullName, devName));
    var c2 := Append(c1, Leaf(Label, labelText));
    AppendFacts(c1, Leaf(Label, labelText));
    AppendFacts(c2, Leaf(Type, typeName));
    Append(c2, Leaf(Type, typeName))
  }

  /** The header followed by `required`: the layout of a date or date-time field. */
  function PlainChildren(labelText: string, devName: string, typeName: string): (cs: seq<Elem>)
    ensures Tags(cs) == [FullName, Label, Type, Required]
    ensures TextOf(cs, FullName) == Some(devName) && TextOf(cs, Label) == Some(labelText)
    ensures TextOf(cs, Type) == Some(typeName) && TextOf(cs, Required) == Some("false")
    ensures Find(cs, ValueSet) == None
  {
    var h := Header(labelText, devName, typeName);
    AppendFacts(h, Leaf(Required, "false"));
    Append(h, Leaf(Required, "false"))
  }

  /** The header and one type-specific leaf. */
  function HeaderThen(labelText: string, devName: string, typeName: string, tag: Tag, text: string): (cs: seq<Elem>)
    requires tag != FullName && tag != Label && tag != Type
    ensures Tags(cs) == [FullName, Label, Type, tag]
    ensures TextOf(cs, FullName) == Some(devName) && TextOf(cs, Label) == Some(labelText)
    ensures TextOf(cs, Type) == Some(typeName) && TextOf(cs, tag) == Some(text)
    ensures forall t | t != FullName && t != Label && t != Type && t != tag :: Find(cs, t) == None
  {
    var h := Header(labelText, devName, typeName);
    AppendFacts(h, Leaf(tag, text));
    Append(h, Leaf(tag, text))
  }

  /** The header, one type-specific leaf, then `required`. */
  function OneLeafChildren(labelText: string, devName: string, typeName: string, tag: Tag, text: string): (cs: seq<Elem>)
    requires tag != FullName && tag != Label && tag != Type && tag != Required
    ensures Tags(cs) == [FullName, Label, Type, tag, Required]
    ensures TextOf(cs, FullName) == Some(devName) && TextOf(cs, Label) == Some(labelText)
    ensures TextOf(cs, Type) == Some(typeName) && TextOf(cs, Required) == Some("false")
    ensures TextOf(cs, tag) == Some(text)
  {
    var c := HeaderThen(labelText, devName, typeName, tag, text);
    AppendFacts(c, Leaf(Required, "false"));
    Append(c, Leaf(Required, "false"))
  }

  /** The layout of a number or currency field: precision, scale, a zero default, then `required`. */
  function NumericChildren(labelText: string, devName: string, typeName: string, precision: string, scale: string): (cs: seq<Elem>)
    ensures Tags(cs) == [FullName, Label, Type, Precision, Scale, DefaultValue, Required]
    ensures TextOf(cs, FullName) == Some(devName) && TextOf(cs, Label) == Some(labelText)
    ensures TextOf(cs, Type) == Some(typeName) && TextOf(cs, Required) == Some("false")
    ensures TextOf(cs, Precision) == Some(precision) && TextOf(cs, Scale) == Some(scale)
    ensures TextOf(cs, DefaultValue) == Some("0")
  {
    var m := MeasureChildren(labelText, devName, typeName, precision, scale);
    MeasureLacks(labelText, devName, typeName, precision, scale);
    AppendFacts(m, Leaf(DefaultValue, "0"));
    var c := Append(m, Leaf(DefaultValue, "0"));
    AppendFacts(c, Leaf(Required, "false"));
    Append(c, Leaf(Required, "false"))
  }

  /** The header, then precision and scale. */
  function MeasureChildren(labelText: string, devName: string, typeName: string, precision: string, scale: string): (cs: seq<Elem>)
    ensures Tags(cs) == [FullName, Label, Type, Precision, Scale]
    ensures TextOf(cs, FullName) == Some(devName) && TextOf(cs, Label) == Some(labelText)
    ensures TextOf(cs, Type) == Some(typeName)
    ensures TextOf(cs, Precision) == Some(precision) && TextOf(cs, Scale) == Some(scale)
  {
    var h := Header(labelText, devName, typeName);
    AppendFacts(h, Leaf(Precision, precision));
    var c := Append(h, Leaf(Precision, precision));
    AppendFacts(c, Leaf(Scale, scale));
    Append(c, Leaf(Scale, scale))
  }

  /** No default value and no `required` yet after precision and scale. */
  lemma MeasureLacks(labelText: string, devName: string, typeName: string, precision: string, scale: string)
    ensures var cs := MeasureChildren(labelText, devName, typeName, precision, scale);
      Find(cs, DefaultValue) == None && Find(cs, Required) == None
  {
    var h := Header(labelText, devName, typeName);
    FindAppend(h, Leaf(Precision, precision), DefaultValue);
    FindAppend(h, Leaf(Precision, precision), Required);
    var c := Append(h, Leaf(Precision, precision));
    FindAppend(c, Leaf(Scale, scale), DefaultValue);
    FindAppend(c, Leaf(Scale, scale), Required);
  }

  function CreateTextField(labelText: string, devName: string): (r: Elem)
    ensures Decode(r) == Some(Field(devName, labelText, "false", TextKind("255")))
    ensures Tags(r.children) == [FullName, Label, Type, Length, Required]
    ensures Tags(r.children) == Layout(Decode(r).value.kind)
  {
    var cs := OneLeafChildren(labelText, devName, "Text", Length, "255");
    DecodeRoot(cs, Field(devName, labelText, "false", TextKind("255")));
    Root(cs)
  }

  function CreateNumberField(labelText: string, devName: string, precision: string, scale: string): (r: Elem)
    ensures Decode(r) == Some(Field(devName, labelText, "false", NumberKind(precision, scale, Some("0"))))
    ensures Tags(r.children) == [FullName, Label, Type, Precision, Scale, DefaultValue, Required]
    ensures Tags(r.children) == Layout(Decode(r).value.kind)
  {
    var cs := NumericChildren(labelText, devName, "Number", precision, scale);
    DecodeRoot(cs, Field(devName, labelText, "false", NumberKind(precision, scale, Some("0"))));
    Root(cs)
  }

  function CreateCurrencyField(labelText: string, devName: string, precision: string, scale: string): (r: Elem)
    ensures Decode(r) == Some(Field(devName, labelText, "false", CurrencyKind(precision, scale, Some("0"))))
    ensures Tags(r.children) == [FullName, Label, Type, Precision, Scale, DefaultValue, Required]
    ensures Tags(r.children) == Layout(Decode(r).value.kind)
  {
    var cs := NumericChildren(labelText, devName, "Currency", precision, scale);
    DecodeRoot(cs, Field(devName, labelText, "false", CurrencyKind(precision, scale, Some("0"))));
    Root(cs)
  }

  function CreateDateField(labelText: string, devName: string): (r: Elem)
    ensures Decode(r) == Some(Field(devName, labelText, "false", DateKind))
    ensures Tags(r.children) == [FullName, Label, Type, Required]
    ensures Tags(r.children) == Layout(Decode(r).value.kind)
  {
    var cs := PlainChildren(labelText, devName, "Date");
    DecodeRoot(cs, Field(devName, labelText, "false", DateKind));
    Root(cs)
  }

  function CreateDateTimeField(labelText: string, devName: string): (r: Elem)
    ensures Decode(r) == Some(Field(devName, labelText, "false", DateTimeKind))
    ensures Tags(r.children) == [FullName, Label, Type, Required]
    ensures Tags(r.children) == Layout(Decode(r).value.kind)
  {
    var cs := PlainChildren(labelText, devName, "DateTime");
    DecodeRoot(cs, Field(devName, labelText, "false", DateTimeKind));
    Root(cs)
  }

  function CreateBooleanField(labelText: string, devName: string): (r: Elem)
    ensures Decode(r) == Some(Field(devName, labelText, "false", CheckboxKind("false")))
    ensures Tags(r.children) == [FullName, Label, Type, DefaultValue, Required]
    ensures Tags(r.children) == Layout(Decode(r).value.kind)
  {
    var cs := OneLeafChildren(labelText, devName, "Checkbox", DefaultValue, "false");
    DecodeRoot(cs, Field(devName, labelText, "false", CheckboxKind("false")));
    Root(cs)
  }

  function CreateLookupField(labelText: string, devName: string, lookupObject: string): (r: Elem)
    ensures Decode(r) == Some(Field(devName, labelText, "false", LookupKind(lookupObject)))
    ensures Tags(r.children) == [FullName, Label, Type, ReferenceTo, Required]
    ensures Tags(r.children) == Layout(Decode(r).value.kind)
  {
    var cs := OneLeafChildren(labelText, devName, "Lookup", ReferenceTo, lookupObject);
    DecodeRoot(cs, Field(devName, labelText, "false", LookupKind(lookupObject)));
    Root(cs)
  }

  /** The picklist values a comma-separated answer lists: nonblank items, stripped, in order. */
  function PicklistItems(values: string): seq<string>
  {
    NonBlankItems(values, ',')
  }

  /** One `value` element of a `valueSetDefinition`: its name, `false` as the default, and no label. */
  function ValueElem(v: string): (e: Elem)
    ensures e.tag == Value && Tags(e.children) == [FullName, Default]
    ensures TextOf(e.children, FullName) == Some(v) && TextOf(e.children, Default) == Some("false")
    ensures TextOf(e.children, Label) == None
  {
    var c := Append([], Leaf(FullName, v));
    AppendFacts([], Leaf(FullName, v));
    AppendFacts(c, Leaf(Default, "false"));
    Node(Value, Append(c, Leaf(Default, "false")))
  }

  function ValueElems(vs: seq<string>): seq<Elem>
  {
    seq(|vs|, i requires 0 <= i < |vs| => ValueElem(vs[i]))
  }

  /** The values as the descriptor lists them: each its own name, not the default, no separate label. */
  function InlineValues(vs: seq<string>): seq<PicklistValue>
  {
    seq(|vs|, i requires 0 <= i < |vs| => PicklistValue(vs[i], "false", None))
  }

  lemma {:induction false} DecodeValueElems(vs: seq<string>)
    ensures DecodeValues(ValueElems(vs)) == Some(InlineValues(vs))
  {
    if vs == [] {
      assert ValueElems(vs) == [] && InlineValues(vs) == [];
    } else {
      ValueElemsCons(vs);
      DecodeValueElems(vs[1..]);
      DecodeValueCons(vs[0], ValueElems(vs[1..]), InlineValues(vs[1..]));
    }
  }

  lemma ValueElemsCons(vs: seq<string>)
    requires vs != []
    ensures ValueElems(vs) == [ValueElem(vs[0])] + ValueElems(vs[1..])
    ensures InlineValues(vs) == [PicklistValue(vs[0], "false", None)] + InlineValues(vs[1..])
  {
  }

  /** One more `value` element in front decodes to one more value in front. */
  lemma DecodeValueCons(v: string, rest: seq<Elem>, pvs: seq<PicklistValue>)
    requires DecodeValues(rest) == Some(pvs)
    ensures DecodeValues([ValueElem(v)] + rest) == Some([PicklistValue(v, "false", None)] + pvs)
  {
    assert ([ValueElem(v)] + rest)[1..] == rest;
  }


  /**
   * The loop that fills `valueSetDefinition`: one `value` per comma item that
   * is not blank once stripped, in input order.
   */
  method PicklistValues(values: string) returns (elems: seq<Elem>)
    ensures elems == ValueElems(PicklistItems(values))
  {
    var items := SplitOn(values, ',');
    elems := [];
    for k := 0 to |items|
      invariant elems == ValueElems(NonBlankStripped(items[..k]))
    {
      var v := Strip(items[k]);
      ValueElemsStep(items, k);
      if v != "" {
        elems := elems + [ValueElem(v)];
      }
    }
    assert items[..|items|] == items;
  }

  /** One more item extends the `value` elements by its own element, when it is not blank. */
  lemma ValueElemsStep(items: seq<string>, k: nat)
    requires k < |items|
    ensures ValueElems(NonBlankStripped(items[..k + 1]))
         == ValueElems(NonBlankStripped(items[..k])) + (if Strip(items[k]) != "" then [ValueElem(Strip(items[k]))] else [])
  {
    var pre := items[..k + 1];
    assert pre[..k] == items[..k] && pre[k] == items[k];
    NonBlankStrippedLast(pre);
    ValueElemsSnoc(NonBlankStripped(items[..k]), Strip(items[k]));
  }

  lemma ValueElemsSnoc(vs: seq<string>, v: string)
    ensures ValueElems(vs + (if v == [] then [] else [v])) == ValueElems(vs) + (if v != "" then [ValueElem(v)] else [])
  {
    if v != "" {
      assert ValueElems(vs + [v]) == ValueElems(vs) + [ValueElem(v)];
    } else {
      assert vs + [] == vs;
    }
  }

  /** The expected value set of a picklist: the global set if one is named, else the inline list. */
  function PicklistValueSet(globalVs: string, values: string): ValueSet
  {
    if globalVs != "" then GlobalSet(globalVs, None)
    else InlineSet(None, InlineValues(PicklistItems(values)), Some("true"))
  }

  /** The children of a `valueSet` that references the global set `globalVs`. */
  function GlobalValueSetChildren(globalVs: string): (cs: seq<Elem>)
    ensures DecodeValueSet(cs) == Some(GlobalSet(globalVs, None))
    ensures Tags(cs) == [ValueSetName]
  {
    AppendFacts([], Leaf(ValueSetName, globalVs));
    Append([], Leaf(ValueSetName, globalVs))
  }

  /** The children of a `valueSet` that defines the items `vs` inline, restricted. */
  function InlineValueSetChildren(vs: seq<string>): (cs: seq<Elem>)
    ensures DecodeValueSet(cs) == Some(InlineSet(None, InlineValues(vs), Some("true")))
    ensures Tags(cs) == [ValueSetDefinition, Restricted] && cs[0].children == ValueElems(vs)
  {
    var definition := Node(ValueSetDefinition, ValueElems(vs));
    var cs := Append(Append([], definition), Leaf(Restricted, "true"));
    AppendFacts([], definition);
    AppendFacts(Append([], definition), Leaf(Restricted, "true"));
    InlineValueSetDecodes(vs, definition, cs);
    cs
  }

  lemma InlineValueSetDecodes(vs: seq<string>, definition: Elem, cs: seq<Elem>)
    requires definition == Node(ValueSetDefinition, ValueElems(vs))
    requires cs == Append(Append([], definition), Leaf(Restricted, "true"))
    ensures DecodeValueSet(cs) == Some(InlineSet(None, InlineValues(vs), Some("true")))
  {
    DecodeValueElems(vs);
    FindMissing(ValueElems(vs), Sorted);
    DecodeRestrictedDefinition(definition, InlineValues(vs));
  }

  /** The `valueSet` element `create_picklist_field` appends last. */
  function ValueSetElem(globalVs: string, values: string): (e: Elem)
    ensures e.tag == ValueSet
    ensures DecodeValueSet(e.children) == Some(PicklistValueSet(globalVs, values))
    ensures globalVs != "" ==> Tags(e.children) == [ValueSetName]
    ensures globalVs == "" ==>
      && Tags(e.children) == [ValueSetDefinition, Restricted]
      && e.children[0].children == ValueElems(PicklistItems(values))
  {
    if globalVs != "" then Node(ValueSet, GlobalValueSetChildren(globalVs))
    else Node(ValueSet, InlineValueSetChildren(PicklistItems(values)))
  }

  /** The layout of a picklist field: the header, `required`, then the `valueSet` element `vs`. */
  function PicklistChildren(labelText: string, devName: string, vs: Elem): (cs: seq<Elem>)
    requires vs.tag == ValueSet
    ensures Tags(cs) == [FullName, Label, Type, Required, ValueSet]
    ensures TextOf(cs, FullName) == Some(devName) && TextOf(cs, Label) == Some(labelText)
    ensures TextOf(cs, Type) == Some("Picklist") && TextOf(cs, Required) == Some("false")
    ensures Find(cs, ValueSet) == Some(vs)
  {
    var p := PlainChildren(labelText, devName, "Picklist");
    AppendFacts(p, vs);
    Append(p, vs)
  }

  /**
   * `create_picklist_field`: a nonempty global value set name is referenced
   * and nothing else; otherwise the inline list from `values` is restricted.
   */
  function CreatePicklistField(labelText: string, devName: string, globalVs: string, values: string): (r: Elem)
    ensures Decode(r) == Some(Field(devName, labelText, "false", PicklistKind(PicklistValueSet(globalVs, values))))
    ensures Tags(r.children) == [FullName, Label, Type, Required, ValueSet]
    ensures Find(r.children, ValueSet) == Some(ValueSetElem(globalVs, values))
    ensures Tags(r.children) == Layout(Decode(r).value.kind)
  {
    var cs := PicklistChildren(labelText, devName, ValueSetElem(globalVs, values));
    DecodeRoot(cs, Field(devName, labelText, "false", PicklistKind(PicklistValueSet(globalVs, values))));
    Root(cs)
  }

  /**
   * What the user typed at the prompts of one round, before defaulting:
   * precision and scale (number, currency), the lookup object, the global
   * value set name and the comma-separated picklist values.
   */
  datatype Answers = Answers(precision: string, scale: string, lookupObject: string,
                             globalValueSet: string, values: string)

  /**
   * The descriptor kind `main` means to produce for a lower-cased type name:
   * each type with the defaults its prompts offer, and a 255-character text
   * field for any name it does not know.
   */
  function ExpectedKind(choice: string, a: Answers): Kind
  {
    if choice == "number" then NumberKind(GetInput(a.precision, "0"), GetInput(a.scale, "0"), Some("0"))
    else if choice == "currency" then CurrencyKind(GetInput(a.precision, "18"), GetInput(a.scale, "2"), Some("0"))
    else if choice == "date" then DateKind
    else if choice == "datetime" then DateTimeKind
    else if choice == "boolean" || choice == "checkbox" then CheckboxKind("false")
    else if choice == "lookup" then LookupKind(GetInput(a.lookupObject, "Account"))
    else if choice == "picklist" then
      PicklistKind(PicklistValueSet(a.globalValueSet, GetInput(a.values, "Option1, Option2")))
    else TextKind("255")
  }

  /**
   * The child tags the interactive builders write for a field of kind `k`:
   * `fullName`, `label`, `type`, the kind's own children, and `required`,
   * which the picklist builder puts before its `valueSet` instead.
   */
  function Layout(k: Kind): (tags: seq<Tag>)
    ensures 4 <= |tags| && tags[..3] == [FullName, Label, Type] && Required in tags
  {
    match k
    case TextKind(_) => [FullName, Label, Type, Length, Required]
    case NumberKind(_, _, _) => [FullName, Label, Type, Precision, Scale, DefaultValue, Required]
    case CurrencyKind(_, _, _) => [FullName, Label, Type, Precision, Scale, DefaultValue, Required]
    case DateKind => [FullName, Label, Type, Required]
    case DateTimeKind => [FullName, Label, Type, Required]
    case CheckboxKind(_) => [FullName, Label, Type, DefaultValue, Required]
    case LookupKind(_) => [FullName, Label, Type, ReferenceTo, Required]
    case PicklistKind(_) => [FullName, Label, Type, Required, ValueSet]
  }

  /**
   * The dispatch in `main`: the chosen type (`"Text"` when the answer has
   * none) is lower-cased and picks a builder, whose prompts are answered by `a`.
   */
  function CreateField(labelText: string, devName: string, fieldType: Option<string>, a: Answers): (r: Elem)
    ensures Decode(r) == Some(Field(devName, labelText, "false", ExpectedKind(Lower(fieldType.GetOr("Text")), a)))
    ensures Tags(r.children) == Layout(ExpectedKind(Lower(fieldType.GetOr("Text")), a))
  {
    var choice := Lower(fieldType.GetOr("Text"));
    if choice == "number" || choice == "currency" || choice == "date" || choice == "datetime" then
      CreateTypedField(labelText, devName, choice, a)
    else CreateOtherField(labelText, devName, choice, a)
  }

  /** The number, currency, date and date-time branches of the dispatch. */
  function CreateTypedField(labelText: string, devName: string, choice: string, a: Answers): (r: Elem)
    requires choice == "number" || choice == "currency" || choice == "date" || choice == "datetime"
    ensures Decode(r) == Some(Field(devName, labelText, "false", ExpectedKind(choice, a)))
    ensures Tags(r.children) == Layout(ExpectedKind(choice, a))
  {
    if choice == "number" then
      CreateNumberField(labelText, devName, GetInput(a.precision, "0"), GetInput(a.scale, "0"))
    else if choice == "currency" then
      CreateCurrencyField(labelText, devName, GetInput(a.precision, "18"), GetInput(a.scale, "2"))
    else if choice == "date" then CreateDateField(labelText, devName)
    else CreateDateTimeField(labelText, devName)
  }

  /** The remaining branches: text, checkbox, lookup, picklist, and text for any other name. */
  function CreateOtherField(labelText: string, devName: string, choice: string, a: Answers): (r: Elem)
    requires choice != "number" && choice != "currency" && choice != "date" && choice != "datetime"
    ensures Decode(r) == Some(Field(devName, labelText, "false", ExpectedKind(choice, a)))
    ensures Tags(r.children) == Layout(ExpectedKind(choice, a))
  {
    if choice == "text" then CreateTextField(labelText, devName)
    else if choice == "boolean" || choice == "checkbox" then CreateBooleanField(labelText, devName)
    else if choice == "lookup" then CreateLookupField(labelText, devName, GetInput(a.lookupObject, "Account"))
    else if choice == "picklist" then CreatePicklistChoice(labelText, devName, a)
    else CreateTextField(labelText, devName)
  }

  /** The picklist branch: the values prompt is only asked when no global value set was named. */
  function CreatePicklistChoice(labelText: string, devName: string, a: Answers): (r: Elem)
    ensures Decode(r) == Some(Field(devName, labelText, "false",
      PicklistKind(PicklistValueSet(a.globalValueSet, GetInput(a.values, "Option1, Option2")))))
    ensures Tags(r.children) == [FullName, Label, Type, Required, ValueSet]
    ensures Tags(r.children) == Layout(Decode(r).value.kind)
  {
    var values := if a.globalValueSet == "" then GetInput(a.values, "Option1, Option2") else "";
    assert PicklistValueSet(a.globalValueSet, values)
        == PicklistValueSet(a.globalValueSet, GetInput(a.values, "Option1, Option2"));
    CreatePicklistField(labelText, devName, a.globalValueSet, values)
  }

  /** The file one round writes: its name and the descriptor tree. */
  datatype OutputFile = OutputFile(path: string, root: Elem)

  /** The extension of a field descriptor file. */
  const Extension := ".field-meta.xml"

  /**
   * One round of `main`'s loop: empty input ends the loop (no file);
   * otherwise the input is normalised and the chosen field is written to
   * `<dev_name>.field-meta.xml`.
   */
  function Round(userInput: string, fieldType: Option<string>, a: Answers): (r: Option<OutputFile>)
    ensures r.None? <==> userInput == ""
    ensures r.Some? ==>
      var n := ProcessLabelInput(userInput);
      && r.value.path == n.devName + Extension
      && Decode(r.value.root) == Some(Field(n.devName, n.labelText, "false", ExpectedKind(Lower(fieldType.GetOr("Text")), a)))
      && Tags(r.value.root.children) == Layout(ExpectedKind(Lower(fieldType.GetOr("Text")), a))
  {
    if userInput == "" then None
    else
      var n := ProcessLabelInput(userInput);
      Some(OutputFile(n.devName + Extension, CreateField(n.labelText, n.devName, fieldType, a)))
  }

  /**
   * The file a round writes is named after the field it describes, and that
   * name is a custom-field API name with no space in it.
   */
  lemma RoundFileNamedAfterField(userInput: string, fieldType: Option<string>, a: Answers)
    requires userInput != ""
    ensures var r := Round(userInput, fieldType, a);
      && r.Some?
      && Decode(r.value.root).Some?
      && var f := Decode(r.value.root).value;
      && r.value.path == f.fullName + Extension
      && EndsWith(f.fullName, Suffix)
      && ' ' !in f.fullName
  {
  }

  /** Every entry of the type menu lower-cases to the name that selects its own builder. */
  lemma MenuChoicesSelectTheirKind(a: Answers)
    ensures ExpectedKind(Lower("Text"), a) == TextKind("255")
    ensures ExpectedKind(Lower("Number"), a).NumberKind?
    ensures ExpectedKind(Lower("Currency"), a).CurrencyKind?
    ensures ExpectedKind(Lower("Date"), a) == DateKind
    ensures ExpectedKind(Lower("DateTime"), a) == DateTimeKind
    ensures ExpectedKind(Lower("Boolean"), a) == CheckboxKind("false")
    ensures ExpectedKind(Lower("Picklist"), a).PicklistKind?
    ensures ExpectedKind(Lower("Lookup"), a).LookupKind?
  {
    LowerMenuTypes();
    LowerMenuOthers();
  }

  lemma LowerMenuTypes()
    ensures Lower("Text") == "text" && Lower("Number") == "number"
    ensures Lower("Currency") == "currency" && Lower("Date") == "date"
  {
    assert Lower("Text") == "text";
    assert Lower("Number") == "number";
    assert Lower("Currency") == "currency";
    assert Lower("Date") == "date";
  }

  lemma LowerMenuOthers()
    ensures Lower("DateTime") == "datetime" && Lower("Boolean") == "boolean"
    ensures Lower("Picklist") == "picklist" && Lower("Lookup") == "lookup"
  {
    assert Lower("DateTime") == "datetime";
    assert Lower("Boolean") == "boolean";
    assert Lower("Picklist") == "picklist";
    assert Lower("Lookup") == "lookup";
  }

  /** An inline picklist whose values prompt was left empty gets the two placeholder options. */
  lemma DefaultPicklistValues(values: string)
    requires values == ""
    ensures PicklistItems(GetInput(values, "Option1, Option2")) == ["Option1", "Option2"]
  {
    DefaultPicklistItems(GetInput(values, "Option1, Option2"), "Option1", "Option2");
  }

  /** The default answer `"Option1, Option2"` lists the values `Option1` and `Option2`. */
  lemma DefaultPicklistItems(values: string, w1: string, w2: string)
    requires w1 == "Option1" && w2 == "Option2" && values == "Option1, Option2"
    ensures PicklistItems(values) == [w1, w2]
  {
    assert ',' !in w1 && ',' !in w2 by {
      assert forall i | 0 <= i < 7 :: w1[i] != ',' && w2[i] != ',';
    }
    assert values == w1 + ", " + w2;
    TwoPicklistItems(w1, w2);
  }

  /** Two words with a comma and a blank between them are two picklist values. */
  lemma TwoPicklistItems(w1: string, w2: string)
    requires w1 != [] && !IsSpace(w1[0]) && !IsSpace(w1[|w1| - 1]) && ',' !in w1
    requires w2 != [] && !IsSpace(w2[0]) && !IsSpace(w2[|w2| - 1]) && ',' !in w2
    ensures PicklistItems(w1 + ", " + w2) == [w1, w2]
  {
    SplitTwoItems(w1, w2);
    StripTwoItems(w1, w2);
  }

  lemma SplitTwoItems(w1: string, w2: string)
    requires ',' !in w1 && ',' !in w2
    ensures SplitOn(w1 + ", " + w2, ',') == [w1, [' '] + w2]
  {
    var tail := [' '] + w2;
    assert w1 + ", " + w2 == w1 + [','] + tail;
    SplitOnFirst(w1, tail, ',');
    assert ',' !in tail;
  }

  lemma StripTwoItems(w1: string, w2: string)
    requires w1 != [] && !IsSpace(w1[0]) && !IsSpace(w1[|w1| - 1])
    requires w2 != [] && !IsSpace(w2[0]) && !IsSpace(w2[|w2| - 1])
    ensures NonBlankStripped([w1, [' '] + w2]) == [w1, w2]
  {
    var items := [w1, [' '] + w2];
    NonBlankStrippedLast(items);
    assert items[..1] == [w1];
    NonBlankStrippedLast([w1]);
    assert [w1][..0] == [];
    StripAfterBlank(w2);
  }
}
