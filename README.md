# Salesforce custom-field descriptor creator, modelled in Dafny

`Automatic-Fields-Creater` turns field descriptions into Salesforce
`CustomField` metadata descriptors, one `<dev_name>.field-meta.xml` file per
field. It has two front ends:

- `sfdx-field-creater.py`: an interactive loop that asks for a label or API
  name, a field type from a menu and the type's parameters;
- `sfdx-field-creater-via-file.py`: a batch run over a text file with one
  `identifier,type,details` line per field.

Both front ends share the same label / API-name normaliser and build the
descriptor as an element tree.

This project models that core:

| file | module | what it holds |
|---|---|---|
| `wrappers.dfy` | `Wrappers` | `Option` and `Result` |
| `strings.dfy` | `PyStrings` | Python's `strip`, `split()`, `split(sep)`, `split(sep, n)`, `join`, `lower` and `startswith`/`endswith`, over an explicit whitespace set (the characters `str.isspace` accepts) |
| `xml.dfy` | `Xml` | the element tree (`Elem`, with the tags the scripts use), appending a child (`ET.SubElement`), and child lookup by tag |
| `descriptor.dfy` | `FieldDescriptor` | what a `CustomField` tree says: `Decode` reads a tree back as a `Field` (name, label, required, kind). It is the reference against which every builder is specified |
| `normalizer.dfy` | `Normalizer` | `generate_developer_name_from_label`, `generate_label_from_developer_name`, `process_label_input` |
| `interactive.dfy` | `InteractiveCreator` | `get_input`, the eight `create_*_field` builders, the type dispatch in `main`, and one round of the prompt loop |
| `batch.dfy` | `BatchCreator` | `create_field_xml`, the line parser of `process_input_file`, and the loop over the file's lines as a method |

Each builder is written the way the source builds its tree: child by child
with `Append`. Each builder is proved to produce:

- a tree whose child tags come in the source's fixed order, down to the
  children of `valueSet`, `valueSetDefinition` and each `value`;
- a tree that `Decode` reads back as exactly the field the source means to describe.

For a picklist, the loop that adds one `value` per item is a `for` method.
It is proved equal to the list of `value` elements of the nonblank stripped
items.

`process_input_file` is a `while` method. It returns the sequence of what it
did, one event per line it acts on:

- a file written, with its path and tree;
- a line reported as invalid;
- `create_field_xml` raising.

The method is proved equal to `Emit`. `Emit` is the specification: it runs
over the numbered, non-skipped lines and stops at the first raise.

Where the batch script's `precision, scale = details.split(",")` meets a
number or currency column with two or more commas, Python raises
`ValueError`. `process_input_file` does not catch it, so the run ends there.
The model follows the code:

- `NumberDetails` returns a `TooManyValuesToUnpack` failure for such a column;
- the run records a `Crashed` event and stops.

`CrashOnlyOnUnpackableNumbers` shows that, among the steps modelled here,
this is the only way a run stops early. The script can also stop where the
model does not look: when an output file cannot be opened, or when the tree
cannot be serialised (see "Left out").

## Model

| member | source | states |
|---|---|---|
| `InteractiveCreator.GetInput` | Automatic-Fields-Creater/sfdx-field-creater.py:8-14 | the default is returned exactly when nothing was entered, otherwise the entered text |
| `Normalizer.DevNameFromLabel` | Automatic-Fields-Creater/sfdx-field-creater.py:30-32 | the API name is the whitespace-separated words of the label joined by `_`, followed by `__c` |
| `Normalizer.DevNameShape` | Automatic-Fields-Creater/sfdx-field-creater.py:30-32 | an API name built from any label ends in `__c` and contains no whitespace at all |
| `Normalizer.LabelFromDevName` | Automatic-Fields-Creater/sfdx-field-creater.py:34-39 | one trailing `__c`, if there is one, is removed and every `_` becomes a space, so the label contains no `_` |
| `Normalizer.ProcessLabelInput` | Automatic-Fields-Creater/sfdx-field-creater.py:41-48 | the API name always ends in `__c` and has no space; input with a space is kept as the label; space-free input already ending in `__c` is the API name unchanged (no double suffix), otherwise it gets `__c`; the label is then recovered from the API name |
| `Normalizer.ProcessIdempotent` | Automatic-Fields-Creater/sfdx-field-creater.py:41-48 | entering the produced API name again yields the same API name, with the label recovered from it |
| `Normalizer.RoundTrip` | Automatic-Fields-Creater/sfdx-field-creater.py:30-48 | for a label of nonempty words without whitespace or `_`, joined by single spaces: label → API name → label is the identity, and entering either the label or the API name gives the same pair |
| `Normalizer.LabelBack` | Automatic-Fields-Creater/sfdx-field-creater.py:30-39 | for such a label, the API name is the words joined by `_` plus `__c`, and converting it back gives the label |
| `Normalizer.SingleWord` | Automatic-Fields-Creater/sfdx-field-creater.py:41-46 | a one-word label has no space and no `__c` ending, so it is taken as an API name and gets the suffix |
| `Normalizer.StripWords` | Automatic-Fields-Creater/sfdx-field-creater.py:32 | stripping each word that `split()` produced changes nothing |
| `PyStrings.Strip` | Automatic-Fields-Creater/sfdx-field-creater-via-file.py:128 | the result has no leading or trailing whitespace, and an already trimmed string is kept |
| `PyStrings.StripBlank` | Automatic-Fields-Creater/sfdx-field-creater-via-file.py:129 | a string strips to empty exactly when it is all whitespace |
| `PyStrings.SplitWs` | Automatic-Fields-Creater/sfdx-field-creater.py:32 | `split()` yields nonempty words without whitespace |
| `PyStrings.SplitWsAt` | Automatic-Fields-Creater/sfdx-field-creater.py:32 | `split()` cuts at every whitespace character: the words of `a + [c] + b`, for a whitespace `c`, are the words of `a` followed by the words of `b` |
| `PyStrings.SplitWsCut` | Automatic-Fields-Creater/sfdx-field-creater.py:32 | the same cut at any point followed by whitespace or by the end of the string |
| `PyStrings.SplitWsJoin` | Automatic-Fields-Creater/sfdx-field-creater.py:32 | `split()` of words joined by single spaces gives back those words |
| `PyStrings.JoinCons` | Automatic-Fields-Creater/sfdx-field-creater.py:39 | `sep.join` puts the separator between a first part and the join of the nonempty rest |
| `PyStrings.Lower` | Automatic-Fields-Creater/sfdx-field-creater-via-file.py:55 | ASCII capitals move 32 code points up to their lower-case letter, every other character but the Kelvin sign is kept, the length is kept, and no ASCII capital is left |
| `PyStrings.LowerIdempotent` | Automatic-Fields-Creater/sfdx-field-creater-via-file.py:55 | lower-casing twice is lower-casing once |
| `PyStrings.StartsWithConcat` | Automatic-Fields-Creater/sfdx-field-creater-via-file.py:83 | a string starts with any prefix it was built from |
| `PyStrings.StartsWithSplit` | Automatic-Fields-Creater/sfdx-field-creater-via-file.py:83-84 | a string that starts with `p` is `p` followed by its slice from `len(p)` on, the kind of slice `details[len("global:"):]` takes |
| `PyStrings.EndsWithConcat` | Automatic-Fields-Creater/sfdx-field-creater.py:36 | a string ends with any suffix it was built from |
| `PyStrings.EndsWithSplit` | Automatic-Fields-Creater/sfdx-field-creater.py:36-37 | a string that ends with `p` is the slice before it followed by `p`, the slice `dev_name[:-3]` takes for `__c` |
| `PyStrings.StripAround` | Automatic-Fields-Creater/sfdx-field-creater-via-file.py:128 | stripping a string whose middle part begins and ends with a non-space removes only the whitespace outside that part |
| `PyStrings.StripFree` | Automatic-Fields-Creater/sfdx-field-creater-via-file.py:135-137 | stripping never introduces a character, so a comma-free column stays comma-free |
| `PyStrings.NonBlankItems` | Automatic-Fields-Creater/sfdx-field-creater.py:129-131 | the picklist values of an answer split at a separator (`,` here, `;` in the batch script): nonempty, trimmed and free of the separator, and at most one more than the separators in the answer |
| `PyStrings.SplitOn` | Automatic-Fields-Creater/sfdx-field-creater.py:39 | `split(c)` yields pieces without `c` that, joined with `c`, give back the string |
| `PyStrings.SplitOnCount` | Automatic-Fields-Creater/sfdx-field-creater-via-file.py:61 | `split(c)` yields one more piece than there are occurrences of `c` |
| `PyStrings.JoinSplitOn` | Automatic-Fields-Creater/sfdx-field-creater.py:39 | joining the pieces of `split("_")` with a space equals `Replace(s, '_', ' ')`, a reference definition of replacing every `_` by a space (neither script calls `str.replace`) |
| `PyStrings.SplitAtMost` | Automatic-Fields-Creater/sfdx-field-creater-via-file.py:131 | `split(c, n)` yields between 1 and n+1 pieces that join back to the string; all pieces but the last are free of `c`, and so is the last when fewer than n+1 were made |
| `PyStrings.NonBlankStripped` | Automatic-Fields-Creater/sfdx-field-creater.py:129-131 | the kept items are nonempty, trimmed and no more than the input items |
| `PyStrings.NonBlankStrippedSource` | Automatic-Fields-Creater/sfdx-field-creater.py:129-131 | every kept value is the stripped form of some input item |
| `PyStrings.NonBlankStrippedListed` | Automatic-Fields-Creater/sfdx-field-creater.py:129-131 | every input item that is not blank once stripped is kept |
| `InteractiveCreator.Header` | Automatic-Fields-Creater/sfdx-field-creater.py:51-54 | the first children are `fullName`, `label`, `type` holding the API name, the label and the type name, and nothing else |
| `InteractiveCreator.HeaderThen` | Automatic-Fields-Creater/sfdx-field-creater.py:51-55 | the header followed by one type-specific leaf holding the given text |
| `InteractiveCreator.OneLeafChildren` | Automatic-Fields-Creater/sfdx-field-creater.py:50-57 | the header, one type-specific leaf, then `required` = `false` last |
| `InteractiveCreator.MeasureChildren` | Automatic-Fields-Creater/sfdx-field-creater.py:59-65 | the header, then `precision` and `scale` holding the given values |
| `InteractiveCreator.MeasureLacks` | Automatic-Fields-Creater/sfdx-field-creater.py:59-65 | before the default is added there is no `defaultValue` and no `required` child |
| `InteractiveCreator.NumericChildren` | Automatic-Fields-Creater/sfdx-field-creater.py:59-68 | precision and scale are passed through unchanged, followed by `defaultValue` = `0` and `required` = `false` |
| `InteractiveCreator.PlainChildren` | Automatic-Fields-Creater/sfdx-field-creater.py:81-87 | the header followed only by `required` = `false` |
| `InteractiveCreator.CreateTextField` | Automatic-Fields-Creater/sfdx-field-creater.py:50-57 | the tree decodes as a Text field of length `255`, in the source's child order |
| `InteractiveCreator.CreateNumberField` | Automatic-Fields-Creater/sfdx-field-creater.py:59-68 | the tree decodes as a Number field with the given precision and scale and default `0` |
| `InteractiveCreator.CreateCurrencyField` | Automatic-Fields-Creater/sfdx-field-creater.py:70-79 | the tree decodes as a Currency field with the given precision and scale and default `0` |
| `InteractiveCreator.CreateDateField` | Automatic-Fields-Creater/sfdx-field-creater.py:81-87 | the tree decodes as a Date field |
| `InteractiveCreator.CreateDateTimeField` | Automatic-Fields-Creater/sfdx-field-creater.py:89-95 | the tree decodes as a DateTime field |
| `InteractiveCreator.CreateBooleanField` | Automatic-Fields-Creater/sfdx-field-creater.py:97-104 | the tree decodes as a Checkbox field with default `false` |
| `InteractiveCreator.CreateLookupField` | Automatic-Fields-Creater/sfdx-field-creater.py:106-113 | the tree decodes as a Lookup field referencing the given object |
| `InteractiveCreator.ValueElem` | Automatic-Fields-Creater/sfdx-field-creater.py:132-134 | a `value` element has the children `fullName` (the value) and `default` = `false`, in that order, and no label |
| `InteractiveCreator.DecodeValueElems` | Automatic-Fields-Creater/sfdx-field-creater.py:129-134 | the `value` elements read back as the same values, in the same order |
| `InteractiveCreator.PicklistValues` | Automatic-Fields-Creater/sfdx-field-creater.py:129-134 | the loop produces one `value` element per comma item that is nonblank once stripped, in input order |
| `InteractiveCreator.ValueElemsStep` | Automatic-Fields-Creater/sfdx-field-creater.py:129-134 | one more item adds its own `value` element exactly when it is nonblank once stripped |
| `InteractiveCreator.GlobalValueSetChildren` | Automatic-Fields-Creater/sfdx-field-creater.py:122-124 | a `valueSet` holding only `valueSetName` (its one child) reads as that global set, with no `restricted` |
| `InteractiveCreator.InlineValueSetChildren` | Automatic-Fields-Creater/sfdx-field-creater.py:125-134 | the children are `valueSetDefinition`, holding exactly the `value` elements of the items, then `restricted` = `true`; they read as the inline, restricted list of the values with no sort flag |
| `InteractiveCreator.InlineValueSetDecodes` | Automatic-Fields-Creater/sfdx-field-creater.py:125-134 | the definition followed by `restricted` decodes as the inline value list |
| `InteractiveCreator.ValueSetElem` | Automatic-Fields-Creater/sfdx-field-creater.py:122-134 | a nonempty global value set name is referenced and nothing else (children: `valueSetName`); otherwise the comma items are listed inline (children: `valueSetDefinition` holding one `value` per item, then `restricted`) |
| `InteractiveCreator.PicklistChildren` | Automatic-Fields-Creater/sfdx-field-creater.py:116-122 | `required` = `false` precedes the `valueSet`, which is the last child |
| `InteractiveCreator.CreatePicklistField` | Automatic-Fields-Creater/sfdx-field-creater.py:115-135 | the tree decodes as a Picklist field whose value set is the global set or the inline list, in the source's child order, and its `valueSet` child is exactly the element `ValueSetElem` lays out |
| `InteractiveCreator.Layout` | Automatic-Fields-Creater/sfdx-field-creater.py:50-135 | every interactive layout starts `fullName`, `label`, `type` and holds `required` |
| `InteractiveCreator.CreateField` | Automatic-Fields-Creater/sfdx-field-creater.py:156-185 | the chosen type, lower-cased, selects the builder: `boolean` and `checkbox` both give Checkbox, and an unknown name gives Text of length `255`; the prompt defaults are `0`/`0` for Number, `18`/`2` for Currency, `Account` for Lookup and `Option1, Option2` for Picklist; the children come in the `Layout` of that kind |
| `InteractiveCreator.CreateTypedField` | Automatic-Fields-Creater/sfdx-field-creater.py:160-171 | the number, currency, date and date-time branches build the expected kind, with the children in its `Layout` |
| `InteractiveCreator.CreateOtherField` | Automatic-Fields-Creater/sfdx-field-creater.py:172-185 | the text, checkbox, lookup, picklist and fallback branches build the expected kind, with the children in its `Layout` |
| `InteractiveCreator.CreatePicklistChoice` | Automatic-Fields-Creater/sfdx-field-creater.py:177-182 | the values prompt matters only when no global value set was named; the children are `fullName`, `label`, `type`, `required`, `valueSet` |
| `InteractiveCreator.Round` | Automatic-Fields-Creater/sfdx-field-creater.py:140-188 | a round writes no file exactly when the input is empty; otherwise it writes `<dev_name>.field-meta.xml` holding the chosen field for the normalised names, its children in the `Layout` of that field's kind |
| `InteractiveCreator.RoundFileNamedAfterField` | Automatic-Fields-Creater/sfdx-field-creater.py:144-188 | the file a round writes is named after the `fullName` of the field it holds, which ends in `__c` and has no space |
| `InteractiveCreator.MenuChoicesSelectTheirKind` | Automatic-Fields-Creater/sfdx-field-creater.py:151-177 | each of the eight menu entries, lower-cased, selects the builder of its own type |
| `InteractiveCreator.DefaultPicklistValues` | Automatic-Fields-Creater/sfdx-field-creater.py:178-182 | an empty values answer yields the two picklist values `Option1` and `Option2` |
| `InteractiveCreator.TwoPicklistItems` | Automatic-Fields-Creater/sfdx-field-creater.py:129-131 | two trimmed comma-free words separated by `, ` are exactly two picklist values |
| `BatchCreator.NumberDetails` | Automatic-Fields-Creater/sfdx-field-creater-via-file.py:61 | the unpack fails exactly when the column holds two or more commas; with no comma it gives `0`/`0`; with one comma it gives the two sides |
| `BatchCreator.NumberDetailsOfPair` | Automatic-Fields-Creater/sfdx-field-creater-via-file.py:61 | a `precision,scale` column unpacks into exactly that precision and scale |
| `BatchCreator.Header` | Automatic-Fields-Creater/sfdx-field-creater-via-file.py:50-57 | the first children are `fullName`, `label`, `required` = `false`, then `type`, and nothing else |
| `BatchCreator.OneLeafChildren` | Automatic-Fields-Creater/sfdx-field-creater-via-file.py:56-58 | the header followed by one type-specific leaf |
| `BatchCreator.NumericChildren` | Automatic-Fields-Creater/sfdx-field-creater-via-file.py:59-63 | the header followed by `precision` and `scale` holding the given values |
| `BatchCreator.NumericLacksDefault` | Automatic-Fields-Creater/sfdx-field-creater-via-file.py:59-68 | a batch number or currency field has no `defaultValue` |
| `BatchCreator.ValueElem` | Automatic-Fields-Creater/sfdx-field-creater-via-file.py:93-96 | a `value` element has the children `fullName` (the value), `default` = `false` and `label` (the value again), in that order |
| `BatchCreator.DecodeValueElems` | Automatic-Fields-Creater/sfdx-field-creater-via-file.py:91-96 | the `value` elements read back as the same values, each labelled with itself, in order |
| `BatchCreator.PicklistValueElems` | Automatic-Fields-Creater/sfdx-field-creater-via-file.py:91-96 | the loop produces one `value` element per `;` item that is nonblank once stripped, in input order |
| `BatchCreator.ValueElemsStep` | Automatic-Fields-Creater/sfdx-field-creater-via-file.py:91-96 | one more item adds its own `value` element exactly when it is nonblank once stripped |
| `BatchCreator.GlobalValueSetChildren` | Automatic-Fields-Creater/sfdx-field-creater-via-file.py:84-86 | the children are `valueSetName` then `restricted` = `true`, in that order, and read as the restricted global set |
| `BatchCreator.SortedFirst` | Automatic-Fields-Creater/sfdx-field-creater-via-file.py:88-89 | the leading `sorted` = `false` is read as the sort flag and is not taken for a value |
| `BatchCreator.InlineValueSetChildren` | Automatic-Fields-Creater/sfdx-field-creater-via-file.py:87-96 | the children are `valueSetDefinition`, holding `sorted` = `false` and then exactly the `value` elements of the items, followed by `restricted` = `true`; they read as the unsorted, restricted list |
| `BatchCreator.InlineValueSetDecodes` | Automatic-Fields-Creater/sfdx-field-creater-via-file.py:87-96 | the definition followed by `restricted` decodes as the labelled value list |
| `BatchCreator.ValueSetElem` | Automatic-Fields-Creater/sfdx-field-creater-via-file.py:82-96 | a column starting with `global:` in any case names a global set, the trimmed rest of the original column (children: `valueSetName`, `restricted`); any other column lists its `;` items inline (children: `valueSetDefinition` holding `sorted` and one `value` per item, then `restricted`) |
| `BatchCreator.PicklistChildren` | Automatic-Fields-Creater/sfdx-field-creater-via-file.py:80-82 | the header followed by the `valueSet` as last child |
| `BatchCreator.TextField` | Automatic-Fields-Creater/sfdx-field-creater-via-file.py:56-58 | decodes as a Text field of length `255`, with `required` before `type` |
| `BatchCreator.NumberField` | Automatic-Fields-Creater/sfdx-field-creater-via-file.py:59-63 | decodes as a Number field with the given precision and scale and no default |
| `BatchCreator.CurrencyField` | Automatic-Fields-Creater/sfdx-field-creater-via-file.py:64-68 | decodes as a Currency field with the given precision and scale and no default |
| `BatchCreator.DateField` | Automatic-Fields-Creater/sfdx-field-creater-via-file.py:69-70 | decodes as a Date field |
| `BatchCreator.DateTimeField` | Automatic-Fields-Creater/sfdx-field-creater-via-file.py:71-72 | decodes as a DateTime field |
| `BatchCreator.CheckboxField` | Automatic-Fields-Creater/sfdx-field-creater-via-file.py:73-75 | decodes as a Checkbox field with default `false` |
| `BatchCreator.LookupField` | Automatic-Fields-Creater/sfdx-field-creater-via-file.py:76-79 | decodes as a Lookup field referencing the given object |
| `BatchCreator.PicklistField` | Automatic-Fields-Creater/sfdx-field-creater-via-file.py:80-96 | decodes as a Picklist field with the global or inline value set the column names, and its `valueSet` child is exactly the element `ValueSetElem` lays out |
| `BatchCreator.Layout` | Automatic-Fields-Creater/sfdx-field-creater-via-file.py:50-99 | every batch layout starts `fullName`, `label`, `required`, `type` |
| `BatchCreator.BuildField` | Automatic-Fields-Creater/sfdx-field-creater-via-file.py:55-99 | the builder fails exactly where the meant kind does, and otherwise produces a tree that decodes as that kind, with the children in the `Layout` of that kind |
| `BatchCreator.NumericField` | Automatic-Fields-Creater/sfdx-field-creater-via-file.py:59-68 | number and currency take the stripped precision and scale from the column, or fail to unpack it; a built field has the numeric `Layout` |
| `BatchCreator.OtherField` | Automatic-Fields-Creater/sfdx-field-creater-via-file.py:69-99 | every other type cannot fail: `datetime` and `date time` give DateTime, `checkbox` and `boolean` give Checkbox, Lookup defaults to `Account`, and unknown names give Text; the children come in the `Layout` of the kind |
| `BatchCreator.CreateFieldXml` | Automatic-Fields-Creater/sfdx-field-creater-via-file.py:47-101 | the type is stripped and lower-cased before dispatch; the names come from `process_label_input`; the result is the field the type and details mean, or the unpack failure; a built tree has the children in the `Layout` of its kind |
| `BatchCreator.BatchKindFails` | Automatic-Fields-Creater/sfdx-field-creater-via-file.py:59-68 | building fails exactly for a number or currency type whose details hold two or more commas |
| `BatchCreator.ParseLine` | Automatic-Fields-Creater/sfdx-field-creater-via-file.py:128-137 | a line is skipped exactly when it strips to empty or starts with `#`; it is malformed exactly when it is not skipped and has no comma, and is reported as its stripped text; otherwise its columns are the first two parts of `split(",", 2)` of the stripped line and the third part (or nothing), each stripped |
| `BatchCreator.ParseStripped` | Automatic-Fields-Creater/sfdx-field-creater-via-file.py:129-137 | the same, for a line already stripped: blank or `#` is skipped, no comma is malformed, else the stripped parts of `split(",", 2)` |
| `BatchCreator.Columns` | Automatic-Fields-Creater/sfdx-field-creater-via-file.py:131-137 | fewer than two parts is a malformed line; otherwise the identifier and the type are the first two parts stripped, and the details the third part stripped, or empty without one |
| `BatchCreator.ParseThreeColumns` | Automatic-Fields-Creater/sfdx-field-creater-via-file.py:131-137 | for any `a`, `b` without a comma and `a` not a comment once stripped, the line `a,b,c` is the entry of `a`, `b` and `c`, each stripped; later commas stay in the details |
| `BatchCreator.ParseTwoColumns` | Automatic-Fields-Creater/sfdx-field-creater-via-file.py:131-137 | for any `a`, `b` without a comma and `a` not a comment once stripped, the line `a,b` is the entry of `a` and `b`, each stripped, with empty details |
| `BatchCreator.NotCommentLine` | Automatic-Fields-Creater/sfdx-field-creater-via-file.py:129 | such a line is neither blank nor a comment, and holds a comma |
| `BatchCreator.ParseAll` | Automatic-Fields-Creater/sfdx-field-creater-via-file.py:127-128 | every line of the file is parsed, one outcome per line |
| `BatchCreator.Listed` | Automatic-Fields-Creater/sfdx-field-creater-via-file.py:127-134 | the listed lines are no more than the file's lines and none of them is skipped |
| `BatchCreator.ListedSound` | Automatic-Fields-Creater/sfdx-field-creater-via-file.py:127-134 | each listed line carries the number of the file line it came from, and is what that line says |
| `BatchCreator.ListedComplete` | Automatic-Fields-Creater/sfdx-field-creater-via-file.py:127-134 | every line that is not skipped is listed under its own number |
| `BatchCreator.ListedOrdered` | Automatic-Fields-Creater/sfdx-field-creater-via-file.py:127-134 | the listed lines keep the file's order |
| `BatchCreator.ParseLinesSound` | Automatic-Fields-Creater/sfdx-field-creater-via-file.py:127-130 | each line the run acts on carries its 1-based number in the file, is what that file line says, and is not skipped |
| `BatchCreator.ParseLinesComplete` | Automatic-Fields-Creater/sfdx-field-creater-via-file.py:127-130 | every file line that is not blank or a comment is acted on under its own number |
| `BatchCreator.ParseLinesOrdered` | Automatic-Fields-Creater/sfdx-field-creater-via-file.py:127-130 | the lines are acted on in file order |
| `BatchCreator.ListedConcat` | Automatic-Fields-Creater/sfdx-field-creater-via-file.py:127-134 | listing a file in two pieces numbers the second piece on from the first |
| `BatchCreator.JoinPath` | Automatic-Fields-Creater/sfdx-field-creater-via-file.py:140 | POSIX `os.path.join`: an absolute name replaces the directory, otherwise the two are joined with `/` |
| `BatchCreator.OutputPath` | Automatic-Fields-Creater/sfdx-field-creater-via-file.py:140 | the descriptor of field `f` goes to `output_xml/f.field-meta.xml`, except that a name starting with `/` is an absolute path outside `output_xml`; the path always ends in `.field-meta.xml` |
| `BatchCreator.LineEvent` | Automatic-Fields-Creater/sfdx-field-creater-via-file.py:132-143 | a malformed line is reported with its number and text; an entry crashes exactly when the batch layout of its stripped, lower-cased type fails, and otherwise writes, at `OutputPath` of its API name, a tree that decodes as the field that type and details mean, with the children in the `Layout` of that kind |
| `BatchCreator.UpToCrash` | Automatic-Fields-Creater/sfdx-field-creater-via-file.py:127-143 | a prefix of the events in which only the last can be a crash, and which is cut short only at a crash |
| `BatchCreator.Events` | Automatic-Fields-Creater/sfdx-field-creater-via-file.py:127-143 | one event per listed line |
| `BatchCreator.Emit` | Automatic-Fields-Creater/sfdx-field-creater-via-file.py:127-143 | event k is what listed line k does, only the last event can be a crash, and events stop short of the lines only after a crash |
| `BatchCreator.EmitCons` | Automatic-Fields-Creater/sfdx-field-creater-via-file.py:127-143 | a crash on the first line ends the run; otherwise the rest of the lines follow |
| `BatchCreator.EmitFrom` | Automatic-Fields-Creater/sfdx-field-creater-via-file.py:127-143 | one turn of the loop: a skipped line adds nothing, another line adds its event, and after a crash nothing follows |
| `BatchCreator.ProcessInputFile` | Automatic-Fields-Creater/sfdx-field-creater-via-file.py:122-143 | the loop over the file's lines produces exactly the events of the numbered, non-skipped lines, up to the first crash |
| `BatchCreator.WrittenFilesNamedAfterField` | Automatic-Fields-Creater/sfdx-field-creater-via-file.py:138-140 | every file written holds a well-formed descriptor and is written at `OutputPath` of its `fullName`: `output_xml/<fullName>.field-meta.xml`, or the absolute path `<fullName>.field-meta.xml` outside `output_xml` when the `fullName` starts with `/`; its children come in the `Layout` of the kind it decodes as |
| `BatchCreator.CrashOnlyOnUnpackableNumbers` | Automatic-Fields-Creater/sfdx-field-creater-via-file.py:127-143 | a run stops early only at a number or currency entry with two or more commas in its details, and that crash is the last event |
| `BatchCreator.RunWithoutCrash` | Automatic-Fields-Creater/sfdx-field-creater-via-file.py:127-143 | when no entry fails to build, every listed line has its event |
| `FieldDescriptor.DecodeKindOf` | Automatic-Fields-Creater/sfdx-field-creater.py:50-135 | children that carry a kind's values decode as that kind under its own type name |
| `FieldDescriptor.DecodeRoot` | Automatic-Fields-Creater/sfdx-field-creater.py:51 | a `CustomField` root in the metadata namespace whose header names a field and whose other children carry its kind decodes as that field |
| `Xml.AppendFacts` | Automatic-Fields-Creater/sfdx-field-creater.py:52 | `SubElement` adds its child last, and lookup by tag finds the earlier child of that tag first |

## Left out

- Terminal I/O is not modelled: `input`, `inquirer.prompt`, `print`, and the
  `while True` loop of the interactive `main`. One round is modelled. The
  answers to its prompts are parameters.
- An `inquirer` prompt cancelled with Ctrl-C, which makes `answers` `None`,
  is not modelled.
- The file system is not modelled: `os.makedirs`, opening and writing files
  and write failures. The batch run returns the files it would write as
  events.
- The batch `main`, `create_sample_file` and the delete-sample prompt are not
  modelled. They are file-system plumbing around `process_input_file`.
- The input file is given as its sequence of lines. How Python splits the file
  into lines, and the line endings that `strip` then removes, are not modelled.
- XML text output is not modelled: `indent`, `ET.tostring`, minidom
  `toprettyxml` (`get_pretty_xml`) and `tree.write`. The model stops at the
  element tree. Attribute order and escaping are library behaviour. So is
  a failure there: a label or value holding a character XML forbids, such
  as U+000C, makes minidom's parser raise in `get_pretty_xml`, which ends
  the batch run; the model writes such a tree.
- Opening an output file can fail, for instance when the API name holds a
  `/` that leads into a directory that does not exist. Either script then
  raises and stops; the model writes the file.
- The batch script's copy of the normaliser (sfdx-field-creater-via-file.py,
  lines 19-43) is the same code as the interactive one. It is modelled once,
  in `Normalizer`, and both front ends use it.
- `PyStrings.Lower` lower-cases ASCII letters and the Kelvin sign only; other
  characters keep their case. The result is only ever compared with ASCII
  keywords or the ASCII prefix `global:`. Besides the Kelvin sign, the one
  character that Python lower-cases to an ASCII letter is U+0130, which
  becomes `i` followed by the non-ASCII U+0307. That U+0307 makes every
  keyword comparison fail, and `global:` has no `i`, so these comparisons
  agree with Python's `str.lower` although the strings themselves differ.
- `BatchCreator.JoinPath` models POSIX `os.path.join`, not the Windows one.
- `InteractiveCreator.DefaultPicklistValues` states only the items the
  default answer lists. How the empty answer reaches `GetInput` is stated by
  `GetInput` itself.
- The Tampermonkey browser scripts (`QR-Code-Scanner.js`,
  `Salesforce-Keyboard-Shortcuts.js`) are not modelled. They consist of DOM
  and event handling, with no self-contained logic.
