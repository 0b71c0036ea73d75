# PyGeoStudio study documents in Dafny

PyGeoStudio reads the main XML document of a GeoStudio study (`.gsz`)
into Python objects, lets a script change them, and writes the document
back. This project models that round trip, starting from an element tree
that is already parsed:

- **The generic record marshaller** (`BasePropertiesClass`). Each record
  kind has a `parameter_type` table (module `Schema`). The table drives a
  six-rule `read` (Missing-skip, opaque capture, dict, list, nested record,
  text leaf), the `__write__` that inverts it, and the typed
  `__getitem__`/`__setitem__` (modules `Marshal`, `MarshalProofs`,
  `Access`, `AccessProofs`). The `data` dictionary is an insertion-ordered
  association list (module `Assoc`), because fields are written in
  dictionary order.
- **The specialised record kinds**:
  - the region-to-entry maps of a `Context` (`Contexts`);
  - the time steps of `TimeIncrements` (`TimeSteps`);
  - the attribute-only hydraulic record of a material (`Materials`);
  - the `Function` descriptor string and point table (`Functions`);
  - the `RGB=(r,g,b)` colour text (`Colors`);
  - dataset parameter lists and the `Dataset` record (`Datasets`,
    `DatasetRecords`);
  - the reinforcement default type (`Marshal.InitFields`);
  - the hand-written `Geometry` reader and writer (`Geometries`,
    `GeometryProofs`).
- **The document** (`GeoStudioFile`, modules `Documents`,
  `DocumentProofs`, `FileInfos`, `FunctionTrees`, `FunctionTreeProofs`):
  - the order of the top-level sections, with unknown sections passed
    through;
  - the `Len`-prefixed collections;
  - the FileInfo stamp;
  - the nested Functions dictionary and its flattening;
  - the cross-references resolved by ID;
  - the file name `saveAs` settles on.

Modelling choices:

- An element is `Element(tag, attrs, text, children)`. Attributes are an
  ordered list of pairs.
- Errors are Python exceptions, written as the `Error` datatype of module
  `Wrappers` inside a `Result`.
- `int()` and `str()` of integers are modelled exactly for an optional sign
  followed by ASCII digits (module `Text`).
- Float conversion is a `FloatCodec` parameter (`parse`, `show`).
  Round-trip lemmas require `parse(show(x)) == Some(x)` (`Values.RoundTrips`)
  only of the floats they write, the way Python's `float(repr(x)) == x`
  holds of every finite float.
- A Python object reference stored in a field (`analysis["Geometry"] =
  geom`, `hydraulic["KFn"] = fun`) is modelled as `Ref(i)`: the position of
  the object in the collection it comes from.
- Warnings are counted (`Contexts.Read` returns the number of `Len`
  mismatches), not printed.

## Model

| member | source | states |
|---|---|---|
| Marshal.ReadRecord | PyGeoStudio/BasePropertiesClass.py:86-124 | the record read from an element has the requested kind; a Function reads as a Function; a reinforcement always ends up with a Type that is not None |
| Marshal.Initialize | PyGeoStudio/BasePropertiesClass.py:156-160 | for every kind except Function, `__initialize__` changes only what the reinforcement default changes, and keeps `other_elem` |
| Marshal.InitFields | PyGeoStudio/Reinforcement.py:86-89 | a reinforcement whose Type is absent or None gets Type "Anchors"; a Type that is present is kept; other kinds and other fields are untouched |
| Marshal.WriteRecord | PyGeoStudio/BasePropertiesClass.py:126-154 | the element written carries the tag it was written under, and the record keeps its kind |
| Marshal.WriteValue | PyGeoStudio/BasePropertiesClass.py:138-150 | a non-nested field can be written exactly when it is a dictionary, a list of pairs or a string; None and integers cannot |
| MarshalProofs.PairsRoundTrip | PyGeoStudio/BasePropertiesClass.py:108-146 | a list of `[tag, attrib]` pairs written as attribute-only children reads back as the same pairs, in the same order |
| Marshal.WriteFields | PyGeoStudio/BasePropertiesClass.py:131-150 | the written elements are tagged with exactly the non-`my_data` keys of `data`, in `data` order, and `data` keeps its keys |
| MarshalProofs.ReadFieldsShape | PyGeoStudio/BasePropertiesClass.py:96-120 | after a successful read, `other_elem` gained exactly the captured children in order, `data` gained exactly the tags of rules 3 to 6, no child hit the raise, and no key appears twice |
| MarshalProofs.MissingChildIgnored | PyGeoStudio/BasePropertiesClass.py:99-100 | inserting a child marked `Missing="true"` anywhere changes nothing, whatever its tag, attributes or children: rule 1 wins over the others |
| MarshalProofs.ReadOpaque | PyGeoStudio/BasePropertiesClass.py:102-103 | undeclared children with children go to `other_elem` unchanged and in order, and `data` is untouched |
| MarshalProofs.ScalarWithChildrenFails | PyGeoStudio/BasePropertiesClass.py:117-120 | a declared scalar field whose element has children reaches the raise: the whole read fails with ValueError |
| MarshalProofs.AnalysisIdWithChildFails | PyGeoStudio/BasePropertiesClass.py:119-120 | that branch is reachable with the real schema: an Analysis whose ID element has a child cannot be read |
| MarshalProofs.GenericWrite | PyGeoStudio/BasePropertiesClass.py:126-154 | a record of string, dictionary and list fields writes one element per field in `data` order, then its captured subtrees, and the write leaves it unchanged |
| MarshalProofs.GenericRead | PyGeoStudio/BasePropertiesClass.py:86-124 | reading that element back gives the same record: the same fields in the same order and the same `other_elem` |
| MarshalProofs.UnwritableFieldFails | PyGeoStudio/BasePropertiesClass.py:148-149 | one field that is not `my_data`, not nested and not a dictionary, list or string makes the whole field loop fail |
| MarshalProofs.FieldFailureFailsWrite | PyGeoStudio/BasePropertiesClass.py:130-153 | a failing field fails the record's write with that same error |
| MarshalProofs.EmptyTextNotWritable | PyGeoStudio/BasePropertiesClass.py:148-149 | a scalar field read from an empty element (text None) cannot be written back: ValueError "Can't write property …" |
| MarshalProofs.WrittenKeysHas | PyGeoStudio/BasePropertiesClass.py:131-138 | a field outside `my_data` gets an element exactly when it is stored in `data` |
| MarshalProofs.MyDataNeverWritten | PyGeoStudio/BasePropertiesClass.py:132 | a `my_data` key never appears among the written tags, whatever `data` holds |
| MarshalProofs.MyDataNoElement | PyGeoStudio/Analysis.py:124 | no element of a successful write carries a `my_data` tag, so an Analysis never writes its Geometry, Context or Results links |
| MarshalProofs.ReinforcementGainsType | PyGeoStudio/Reinforcement.py:86-89 | a reinforcement without Type writes no Type element, yet the `__initialize__` ending the write leaves it with Type "Anchors" |
| MarshalProofs.StoredTypeWritten | PyGeoStudio/BasePropertiesClass.py:153 | once Type is stored, the next write emits a Type element |
| Access.IntOf | PyGeoStudio/BasePropertiesClass.py:70-71 | `int(v)` yields an int; stored text converts exactly when it parses as an integer; a stored number is returned as is |
| Access.FloatOf | PyGeoStudio/BasePropertiesClass.py:70-71 | `float(v)` yields a float; stored text converts exactly when the float codec parses it |
| Access.StrOf | PyGeoStudio/BasePropertiesClass.py:70-71 | `str(v)` is defined for text and integers, and None reads as "None" |
| Access.BoolOf | PyGeoStudio/BasePropertiesClass.py:70-71 | `bool(v)` of stored text is true exactly when the text is not empty, whatever it says |
| Access.DictOf | PyGeoStudio/BasePropertiesClass.py:70-71 | `dict(v)` copies a dictionary; from text, only the empty string succeeds; from None it raises TypeError |
| Access.FirstTagged | PyGeoStudio/BasePropertiesClass.py:79-82 | the captured subtree returned is the first one with that tag, and there is one exactly when some captured subtree has the tag |
| Access.Lookup | PyGeoStudio/BasePropertiesClass.py:63-84 | the lookup order of `__getitem__`: a stored field (converted when declared with a converting type), then None for a declared absent field, then the first captured subtree, else ValueError |
| Access.GetItem | PyGeoStudio/Function.py:50-56 | a Function answers FunctionParameter and FunctionType from its parsed descriptor; colours and parameter lists are not subscriptable |
| Access.Normalize | PyGeoStudio/BasePropertiesClass.py:52-53 | True and False are replaced before storing; every other value is kept |
| Access.PyStr | PyGeoStudio/BasePropertiesClass.py:60 | `str(val)` of a setter argument: strings unchanged, None as "None" |
| Access.Raw | PyGeoStudio/BasePropertiesClass.py:54-56 | a `my_data` value is stored as the Python value itself |
| Access.Assign | PyGeoStudio/BasePropertiesClass.py:52-60 | an unknown, unstored name outside `my_data` raises ValueError; on success only that field changes; a non-`my_data` field stores text, a `my_data` field the raw value |
| Access.SetItem | PyGeoStudio/BasePropertiesClass.py:48-61 | setting changes only `data`, never the kind or captured subtrees; colours and parameter lists reject it |
| AccessProofs.SetThenGetStr | PyGeoStudio/BasePropertiesClass.py:60-71 | a string field reads back the string it was set to |
| AccessProofs.SetThenGetInt | PyGeoStudio/BasePropertiesClass.py:60-71 | an integer field reads back the integer it was set to (`int(str(i)) == i`) |
| AccessProofs.SetFalseReadsTrue | PyGeoStudio/BasePropertiesClass.py:52-71 | a boolean field set to False stores "false" and then reads as True |
| AccessProofs.IntFieldReads | PyGeoStudio/BasePropertiesClass.py:67-71 | an integer field whose stored text is the decimal form of a number reads back as that number |
| AccessProofs.BoolFieldTruth | PyGeoStudio/BasePropertiesClass.py:67-71 | a stored boolean field reads as False only when its text is empty |
| AccessProofs.UnknownNameRejected | PyGeoStudio/BasePropertiesClass.py:57-59 | a name neither stored, nor declared, nor `my_data` cannot be set (ValueError) |
| AccessProofs.MyDataKeptRaw | PyGeoStudio/BasePropertiesClass.py:54-56 | a `my_data` field set to a value reads back as that value, unconverted |
| AccessProofs.DeclaredAbsentIsNone | PyGeoStudio/BasePropertiesClass.py:77-78 | a declared field the file did not provide reads as None |
| AccessProofs.CapturedLookup | PyGeoStudio/BasePropertiesClass.py:79-82 | an undeclared, unstored name reads as the first captured subtree with that tag |
| AccessProofs.FunctionParameterShadowed | PyGeoStudio/Function.py:48-56 | assigning FunctionParameter changes `data` but not what reading FunctionParameter returns |
| Contexts.ReadEntries | PyGeoStudio/Context.py:49-52 | reading a map succeeds exactly when every entry element has an `ID` and an integer `Entry` |
| Contexts.LastEntryWins | PyGeoStudio/Context.py:46-52 | each region ends with the entry of the last element naming it; regions no element names keep their earlier value |
| Contexts.DuplicateOverwrites | PyGeoStudio/Context.py:49-52 | two entries for one region leave only the later value |
| Contexts.CountMismatchWarns | PyGeoStudio/Context.py:53-54 | a `Len` that disagrees with the map read only adds one warning; the map is still read |
| Contexts.EntryElementRead | PyGeoStudio/Context.py:50-78 | the entry element written for a region and its integer reads back as that region and integer |
| Contexts.WriteField | PyGeoStudio/Context.py:70-88 | a written map field carries `Len` equal to the map's size |
| Contexts.WriteContext | PyGeoStudio/Context.py:68-89 | one element per `data` entry, in `data` order, each tagged with its key |
| Contexts.EntriesRoundTrip | PyGeoStudio/Context.py:72-85 | entries without duplicate regions, written and read back, extend the map in the same order, under either map tag |
| Contexts.RoundTrip | PyGeoStudio/Context.py:41-89 | both region maps and the text fields survive a write and a read, in order, without a warning |
| TimeSteps.StepsRoundTrip | PyGeoStudio/Analysis.py:50-63 | the dictionaries written as `TimeStep` children are read back as the same step list, in the same order |
| TimeSteps.WriteField | PyGeoStudio/Analysis.py:58-70 | the element written for an entry carries the entry's key as tag; `TimeSteps` is written exactly when it holds a step list or an empty value with a length (such as the empty string), with `Len` its `len` and its children carrying the steps; another key is written exactly when it holds text |
| TimeSteps.EmptyStepsRead | PyGeoStudio/Analysis.py:47-63 | time steps left as an empty value other than a list (such as the empty string) are written as an empty `TimeSteps` and read back as the empty step list |
| TimeSteps.WriteSteps | PyGeoStudio/Analysis.py:56-71 | one child per entry, in `data` order, each tagged with its key |
| TimeSteps.RoundTrip | PyGeoStudio/Analysis.py:42-71 | what `read` produces is written and read back unchanged: steps, text fields and order |
| TimeSteps.RepeatedStepsConcatenate | PyGeoStudio/Analysis.py:47-51 | repeated TimeSteps elements are concatenated in document order, and `Len` is not checked |
| TimeSteps.SavedFrom | PyGeoStudio/Analysis.py:73-74 | `getSavedTimeStep` succeeds exactly when every step has `Save` and every saved step has `ElapsedTime`; each time returned is the ElapsedTime of a saved step |
| TimeSteps.UnsavedSingle | PyGeoStudio/Analysis.py:74 | a step whose `Save` text is empty contributes no time |
| TimeSteps.SavedAppend | PyGeoStudio/Analysis.py:74 | the query over two runs of steps succeeds exactly when it succeeds over each, and then lists the first run's times followed by the second's; with SavedSingle and UnsavedSingle this fixes the result step by step |
| TimeSteps.AllSavedInOrder | PyGeoStudio/Analysis.py:73-74 | when every step is saved, the result is every step's ElapsedTime in step order |
| TimeSteps.SaveFalseIsSaved | PyGeoStudio/Analysis.py:74 | a step whose `Save` text is "false" is still reported as saved |
| TimeSteps.MissingSaveFails | PyGeoStudio/Analysis.py:74 | a step without `Save` makes the whole query raise KeyError |
| TimeSteps.MissingSaveError | PyGeoStudio/Analysis.py:74 | the only errors the query raises are KeyError on Save or on ElapsedTime |
| Materials.WriteHydraulic | PyGeoStudio/Material.py:115-120 | the attributes written never include the `my_data` links KFn and VolWCFn |
| Materials.HydraulicRoundTrip | PyGeoStudio/Material.py:111-119 | the attributes of a hydraulic element are written back exactly, in order |
| Materials.LinkNeverWritten | PyGeoStudio/Material.py:109-119 | attaching a function under KFn or VolWCFn never changes what is written |
| Functions.ParseOption | PyGeoStudio/Function.py:128-129 | an option piece parses exactly when it contains `=`; the key is the text before the first `=` and the value the text before the next one |
| Functions.ParsePieces | PyGeoStudio/Function.py:128-129 | the options parse exactly when every piece contains `=` |
| Functions.PiecesRoundTrip | PyGeoStudio/Function.py:128-129 | distinct `k=v` pieces without delimiters parse back into the same options, in order |
| Functions.DescriptorRoundTrip | PyGeoStudio/Function.py:128-130 | a descriptor `T(k1=v1,…)` with at least one option gives back its type (the text before the first `(`) and its options |
| Functions.NoOptionsFails | PyGeoStudio/Function.py:128-129 | a descriptor with no options, such as `F()`, cannot be parsed |
| Functions.ParseRow | PyGeoStudio/Function.py:127 | a row converts exactly when every attribute value parses as a float, and holds those floats in order |
| Functions.ParseRows | PyGeoStudio/Function.py:127 | one row per point element, each the conversion of that element's attribute values |
| Functions.PointsToTable | PyGeoStudio/Function.py:126-127 | the table has one row per point and every row has as many values as its point has attributes |
| Functions.TableToPoints | PyGeoStudio/Function.py:133-137 | every row becomes a `Point` with keys X and Y, and a row without exactly two values fails to unpack |
| Functions.PointsRoundTrip | PyGeoStudio/Function.py:125-137 | a two-column table survives the write conversion and the read conversion, provided each of its floats reads back from its text |
| Functions.PointNamesNotKept | PyGeoStudio/Function.py:127-136 | for every point list whose points have two attributes, whatever their names, each point is written back as a `Point` whose X and Y hold the text of the two values parsed, in order |
| Functions.TableToPointsAt | PyGeoStudio/Function.py:133-137 | the i-th point written holds, under X and Y, the text of the i-th row's two values |
| Functions.Init | PyGeoStudio/Function.py:125-131 | the record read is a Function with the same field keys and captured subtrees |
| Functions.Deinit | PyGeoStudio/Function.py:133-138 | turning the table back into points keeps the field keys and the size of `data` |
| Functions.InitReads | PyGeoStudio/Function.py:125-131 | `__initialize__` succeeds exactly when the points convert and the descriptor is a string whose options parse; Points then holds the converted table (unchanged when absent or None, the empty one-dimensional array when it was an array without rows), type and options are the descriptor's, every other field is unchanged; an array with rows under Points is an IndexError when its rows have fewer than two entries and an AttributeError otherwise, and a missing descriptor is a KeyError |
| Functions.DeinitWrites | PyGeoStudio/Function.py:133-138 | `__deinitialize__` succeeds exactly when Points is absent, None or a table of two-value rows; a table becomes its `Point` list and every other field is unchanged |
| Functions.DeinitInit | PyGeoStudio/Function.py:125-138 | `__deinitialize__` then `__initialize__` gives a settled Function back unchanged, provided each float of its points table reads back from its text |
| Functions.InitSettles | PyGeoStudio/Function.py:125-138 | `__initialize__` with points carrying two values each leaves a settled Function; when its floats read back from their text, the `__deinitialize__` of a write and the `__initialize__` of the next read give that Function again |
| Functions.InitNeedsOptions | PyGeoStudio/Function.py:128-129 | a Function whose descriptor has no options fails to read |
| Functions.SetColumn | PyGeoStudio/Function.py:84-112 | a column assignment succeeds exactly for an existing column and one value per row (or a single value); other columns are untouched |
| Functions.SetThenGet | PyGeoStudio/Function.py:84-112 | a column set reads back as the values set, and the other column is unchanged |
| Functions.Resize | PyGeoStudio/Function.py:115-123 | Points becomes an n-by-2 zero table, negative n is rejected, and no other field changes |
| Functions.SetData | PyGeoStudio/Function.py:84-113 | setting the X or Y data changes only Points |
| Functions.ResizeThenSet | PyGeoStudio/Function.py:84-123 | after a resize, each column can be set from n values and reads back as set |
| Colors.ParseInts | PyGeoStudio/Color.py:28 | the channel list converts exactly when every piece is an integer, and holds those integers in order |
| Colors.WriteText | PyGeoStudio/Color.py:55-57 | the text can be written exactly when there are at least three channels |
| Colors.RgbRoundTrip | PyGeoStudio/Color.py:28-56 | parsing the written `RGB=(r,g,b)` text yields the same three integers |
| Colors.ElementRoundTrip | PyGeoStudio/Color.py:26-57 | reading back a written colour element gives its first three channels |
| Colors.FromListAsWritten | PyGeoStudio/Color.py:31-37 | as written, only the empty list is accepted (the loop never runs); a list of another length than 3 raises ValueError and a list of 3 raises NameError |
| Colors.FromListAsWrittenRejectsAll | PyGeoStudio/Color.py:31-37 | as written, the list branch refuses every well-formed colour with NameError |
| Colors.FromList | PyGeoStudio/Color.py:31-37 | a non-empty list is accepted exactly when it has three channels, each an integer from 0 to 255 |
| Colors.New | PyGeoStudio/Color.py:26-40 | the constructor's dispatch: element, colour name (AttributeError, `setColor` is undefined), list through the list branch as written, anything else ValueError |
| Datasets.ReadParams | PyGeoStudio/Dataset.py:24-26 | the parameter list holds the children's texts in document order, whatever their tags |
| Datasets.ParamsRoundTrip | PyGeoStudio/Dataset.py:25-33 | the parameter list survives a write and a read, and `Len` reads back as its length |
| Datasets.ParamsString | PyGeoStudio/Dataset.py:35-36 | joining succeeds exactly when no parameter is None |
| Datasets.ParamsStringSplits | PyGeoStudio/Dataset.py:35-36 | splitting the joined string on commas gives back the parameters, when none contains a comma |
| DatasetRecords.LoadDataFromArrayAsWritten | PyGeoStudio/Dataset.py:99-105 | as written, Data becomes the array and NumRows its row count as a Python int, and nothing else changes |
| DatasetRecords.LoadedAsWrittenNotWritable | PyGeoStudio/Dataset.py:104 | a dataset loaded that way can no longer be written |
| DatasetRecords.LoadDataFromArray | PyGeoStudio/Dataset.py:99-105 | corrected: NumRows is stored as the decimal text of the row count |
| DatasetRecords.LoadedNumRows | PyGeoStudio/Dataset.py:104 | the corrected NumRows reads back as the row count and is written as its decimal text |
| DatasetRecords.SetDataParametersAsWrittenFails | PyGeoStudio/Dataset.py:114-115 | as written, every call raises AttributeError |
| DatasetRecords.SetDataParameters | PyGeoStudio/Dataset.py:107-120 | corrected: accepted exactly when there is one name per data column, every name is a known dataset parameter, and a Parameters object exists; only Parameters changes |
| DatasetRecords.SetParametersThenWrite | PyGeoStudio/Dataset.py:28-33 | after naming the columns, Parameters writes `Len` equal to the column count and reads back as the same names |
| Geometries.RowIndex | PyGeoStudio/Geometry.py:91 | a NumPy row index is accepted from -n to n-1, negative values counting from the end |
| Geometries.FillPoints | PyGeoStudio/Geometry.py:90-91 | filling points never changes the table size |
| Geometries.ReadPoints | PyGeoStudio/Geometry.py:88-91 | the point table has exactly `Len` rows |
| Geometries.FillLines | PyGeoStudio/Geometry.py:94-95 | filling lines never changes the table size |
| Geometries.ReadLines | PyGeoStudio/Geometry.py:92-95 | the line table has exactly `Len` rows |
| Geometries.ParseIds | PyGeoStudio/Geometry.py:103 | the point list converts exactly when every piece is an integer, and holds them in order |
| Geometries.RegionLocals | PyGeoStudio/Geometry.py:98-105 | after a region's children only the last child can remain as an extra, and none when it is PointIDs |
| Geometries.ReadChild | PyGeoStudio/Geometry.py:87-116 | an unknown child goes to `other_elem`; ResultGraphs is dropped |
| Geometries.Write | PyGeoStudio/Geometry.py:168-208 | Points, Lines, Regions, MeshId and Name in that order with current counts, then the unknown children; fails exactly when points or lines were never read |
| Geometries.GetItem | PyGeoStudio/Geometry.py:50-58 | MeshId reads as None when absent and as its integer otherwise; unknown names read as None |
| Geometries.AddRegionsAsWritten | PyGeoStudio/Geometry.py:156-166 | as written, the new region is stored under `Regions-<count+1>`, replacing any region of that key |
| Geometries.AddRegions | PyGeoStudio/Geometry.py:163-165 | corrected: the new region is appended under one past the largest number in use |
| GeometryProofs.PointsRoundTrip | PyGeoStudio/Geometry.py:89-91 | written points are read back into the rows they came from: ID `i+1` lands in row `i`, provided each coordinate reads back from its text |
| GeometryProofs.LinesRoundTrip | PyGeoStudio/Geometry.py:93-95 | written lines are read back: one-based IDs and point numbers are shifted back |
| GeometryProofs.IdsRoundTrip | PyGeoStudio/Geometry.py:103 | joining a region's point IDs with commas and splitting them again gives the IDs back |
| GeometryProofs.KeyRoundTrip | PyGeoStudio/Geometry.py:106 | the key rebuilt from the text after the last `-` is the key it came from |
| GeometryProofs.ReadRegionsWritten | PyGeoStudio/Geometry.py:96-106 | regions written with distinct keys are read back in order |
| GeometryProofs.ReadUnhandled | PyGeoStudio/Geometry.py:115-116 | unknown children go to `other_elem`, in order |
| GeometryProofs.RoundTrip | PyGeoStudio/Geometry.py:86-117 | a geometry survives a write followed by a read into a fresh object: points, lines, regions, mesh id, name and unknown children, provided each point coordinate reads back from its text |
| GeometryProofs.ResultGraphsDropped | PyGeoStudio/Geometry.py:109-110 | a ResultGraphs child is dropped wherever it appears |
| GeometryProofs.RegionWithoutIdReplacesPrevious | PyGeoStudio/Geometry.py:97-106 | a region without ID child reuses the previous region's key and replaces it |
| GeometryProofs.AddRegionsAsWrittenOverwrites | PyGeoStudio/Geometry.py:163-165 | a geometry whose only region is number 2 loses it |
| GeometryProofs.AddRegionsKeepsRegions | PyGeoStudio/Geometry.py:156-166 | the corrected version adds exactly one region, keeps every existing one, and keeps the keys distinct |
| GeometryProofs.AddRegionsAgrees | PyGeoStudio/Geometry.py:163-165 | when the regions are numbered 1 to n in order, the corrected version does what the original does |
| FileInfos.FileInfoElement | PyGeoStudio/PyGeoStudio.py:408-415 | FileInfo is written exactly when the stored RevNumber is an integer: a copy of the stored attributes with LastAuthor replaced, RevNumber one more than stored, Date and Time stamped, everything else unchanged |
| FunctionTrees.ReadFun | PyGeoStudio/PyGeoStudio.py:209-211 | a Function read under a list records the key path in `Types` |
| FunctionTrees.ReadFuns | PyGeoStudio/PyGeoStudio.py:209-212 | one Function per child, whatever the child's tag, each tagged with the path |
| FunctionTrees.ReadTree | PyGeoStudio/PyGeoStudio.py:198-215 | reading the Functions section never removes a key from the dictionary |
| FunctionTrees.WriteFuns | PyGeoStudio/PyGeoStudio.py:463-465 | one element per Function, in list order, each tagged with the list's item tag |
| FunctionTrees.WriteNode | PyGeoStudio/PyGeoStudio.py:456-467 | a category becomes an element of its entries; a list gets `Len` and one item per Function, tagged with the key minus its last character; a raw element is appended unchanged |
| FunctionTrees.WriteEntries | PyGeoStudio/PyGeoStudio.py:456-467 | one element per entry of the category |
| FunctionTrees.WriteTree | PyGeoStudio/PyGeoStudio.py:455-470 | the Functions section has one child per top-level key |
| FunctionTreeProofs.SkeletonTyped | PyGeoStudio/PyGeoStudio.py:53-65 | the dictionary a study starts from holds no Function |
| FunctionTreeProofs.ReadTreeTyped | PyGeoStudio/PyGeoStudio.py:198-215 | after a read, every Function in a list records the key path of that list in `Types` |
| FunctionTreeProofs.FlattenEntriesBelow | PyGeoStudio/PyGeoStudio.py:472-479 | every Function the flattening lists below a path has a `Types` path strictly extending it |
| FunctionTreeProofs.FunctionListTyped | PyGeoStudio/PyGeoStudio.py:374-376 | every Function `study["Functions"]` lists has a non-empty `Types` path, which `showFunctions` joins |
| FunctionTreeProofs.UnknownKept | PyGeoStudio/PyGeoStudio.py:202-203 | a tag new at its level is stored as the raw element, at the end of the dictionary |
| FunctionTreeProofs.WriteTreeRaw | PyGeoStudio/PyGeoStudio.py:466-467 | a stored raw element is written back unchanged, at its position |
| FunctionTreeProofs.FunsRoundTrip | PyGeoStudio/PyGeoStudio.py:209-212 | the items written for a list of rereadable Functions read back as the same list, in order |
| FunctionTreeProofs.NodeRoundTrip | PyGeoStudio/PyGeoStudio.py:456-467 | a category or list written under its key reads back into what was written, starting from the value the dictionary started with |
| FunctionTreeProofs.EntriesRoundTrip | PyGeoStudio/PyGeoStudio.py:198-215 | reading the written entries of a category from any position on, over what the loop has built so far, completes the category written |
| FunctionTreeProofs.TreeRoundTrip | PyGeoStudio/PyGeoStudio.py:198-215 | `__writeFunctions__` then `__readFunctions__` into the dictionary a study starts from gives back the dictionary written, and so the same `study["Functions"]` list |
| FunctionTreeProofs.UnknownRewritten | PyGeoStudio/PyGeoStudio.py:455-467 | an element of the Functions section the dictionary does not know survives a read followed by a write |
| Documents.SectionOf | PyGeoStudio/PyGeoStudio.py:91-116 | the seven section tags the reader dispatches on, and no other |
| Documents.ReadFirstRecords | PyGeoStudio/PyGeoStudio.py:169-196 | a collection reads the first `n` children, each with the kind's reader, in order |
| Documents.ReadFirstGeometries | PyGeoStudio/PyGeoStudio.py:161-167 | the first `n` children, each read as a geometry, in order |
| Documents.ReadCollection | PyGeoStudio/PyGeoStudio.py:169-196 | a collection holds exactly `Len` records |
| Documents.ReadGeometries | PyGeoStudio/PyGeoStudio.py:161-167 | the Geometries section holds exactly `Len` geometries |
| Documents.ReadSection | PyGeoStudio/PyGeoStudio.py:91-116 | each top-level child appends one entry to `xml_items`; an unknown one is stored as it is and changes nothing else |
| Documents.ReadSections | PyGeoStudio/PyGeoStudio.py:91-116 | `xml_items` gets one entry per child, in document order |
| Documents.FindFirst | PyGeoStudio/PyGeoStudio.py:134-142 | the first record whose field equals the value, or none; an error only when an earlier record's field cannot be read |
| Documents.FindBy | PyGeoStudio/PyGeoStudio.py:239-254 | the by-name and by-ID lookups return the first match in list order, and raise ValueError when no record matches |
| Documents.GeometryIndexAsWritten | PyGeoStudio/PyGeoStudio.py:271-280 | as written, an ID is accepted exactly when it is an integer from 1-count to count: above the count is a ValueError, at or below -count an IndexError; an ID from 1 names position ID-1 and one below 1 counts from the end |
| Documents.GeometryIndex | PyGeoStudio/PyGeoStudio.py:271-280 | corrected: an ID is accepted exactly when it numbers an existing geometry from 1, and gives position ID-1 |
| Documents.GetItemAsWritten | PyGeoStudio/PyGeoStudio.py:69-76 | as written, the four collection names and ValueError otherwise; the Functions list is the shared list grown by the study's Functions |
| Documents.GetItem | PyGeoStudio/PyGeoStudio.py:69-76 | corrected: `study["Functions"]` is exactly the study's Functions in tree order |
| Documents.FunctionByNameAsWritten | PyGeoStudio/PyGeoStudio.py:380-395 | as written, the first Function of that name in the shared list, which also holds earlier calls' Functions |
| Documents.FunctionByName | PyGeoStudio/PyGeoStudio.py:380-395 | corrected: the first Function of the study with that name, in tree order |
| Documents.LinkMaterials | PyGeoStudio/PyGeoStudio.py:130-142 | the loop succeeds exactly when every material links, and then holds, in order, each material as linking it alone leaves it |
| Documents.LinkAnalyses | PyGeoStudio/PyGeoStudio.py:144-147 | the loop succeeds exactly when every analysis links, and then holds, in order, each analysis as linking it alone leaves it |
| Documents.LinkContext | PyGeoStudio/PyGeoStudio.py:153-155 | attaching a context keeps the number of analyses |
| Documents.LinkContexts | PyGeoStudio/PyGeoStudio.py:153-155 | attaching every context keeps the number of analyses |
| Documents.CheckMeshIds | PyGeoStudio/PyGeoStudio.py:118-121 | the mesh pass succeeds exactly when every geometry's MeshId converts |
| Documents.Link | PyGeoStudio/PyGeoStudio.py:118-155 | linking leaves the root, `xml_items`, FileInfo, geometries, contexts, reinforcements and functions as they were, and keeps the number of materials and analyses; what each record must pass is stated by DocumentProofs.LinkChecks |
| Documents.Open | PyGeoStudio/PyGeoStudio.py:78-159 | an opened study keeps the root's tag and attributes and one `xml_items` entry per top-level child |
| Documents.WriteRecords | PyGeoStudio/PyGeoStudio.py:422-445 | one element per record, each under the collection's item tag |
| Documents.GeometryElement | PyGeoStudio/PyGeoStudio.py:419-421 | a `Geometry` element is written exactly when the geometry has its points and its lines |
| Documents.WriteGeometries | PyGeoStudio/PyGeoStudio.py:416-421 | one Geometry element per geometry, in order, each as that geometry alone is written; it fails exactly when one of them cannot be written, so when some geometry lacks its points or its lines |
| Documents.WriteItem | PyGeoStudio/PyGeoStudio.py:407-451 | an unknown section is written back unchanged; a collection is written with `Len` set to its current size |
| Documents.WriteItems | PyGeoStudio/PyGeoStudio.py:407-451 | one element per `xml_items` entry, in order, and it fails exactly when one entry cannot be written |
| Documents.Generate | PyGeoStudio/PyGeoStudio.py:403-451 | the root keeps its tag and attributes and gets one child per `xml_items` entry, unknown sections verbatim at their original position |
| Documents.SaveAsNameAsWritten | PyGeoStudio/PyGeoStudio.py:521-525 | as written, the name is compared with the source before `.gsz` is appended |
| Documents.WithExtension | PyGeoStudio/PyGeoStudio.py:523-525 | the output name always ends in the piece `gsz`; a name already ending so is kept |
| Documents.SaveAsName | PyGeoStudio/PyGeoStudio.py:520-526 | corrected: the name actually written is compared, so the result is never the source |
| DocumentProofs.ReadSectionsUnknown | PyGeoStudio/PyGeoStudio.py:114-116 | unknown sections are recorded in order and nothing else changes |
| DocumentProofs.LinkEmpty | PyGeoStudio/PyGeoStudio.py:118-155 | linking a study without collections changes nothing |
| DocumentProofs.OpenUnknown | PyGeoStudio/PyGeoStudio.py:91-116 | a study of unknown sections only opens with those sections recorded in order |
| DocumentProofs.WriteUnknown | PyGeoStudio/PyGeoStudio.py:449-451 | recorded unknown sections are written back as they were read |
| DocumentProofs.PassThrough | PyGeoStudio/PyGeoStudio.py:404-451 | such a study is written back as the same root with the same children |
| DocumentProofs.ReadFirstOk | PyGeoStudio/PyGeoStudio.py:161-196 | reading the first `n` children succeeds exactly when there are `n` of them and each reads |
| DocumentProofs.ReadFirstRecordsGeneric | PyGeoStudio/PyGeoStudio.py:169-196 | a collection of records is read with the kind's own reader applied child by child |
| DocumentProofs.ReadFirstRecordsOk | PyGeoStudio/PyGeoStudio.py:169-196 | a collection reads exactly when it has at least `Len` children and each of the first `Len` reads |
| DocumentProofs.ReadFirstRecordsPrefix | PyGeoStudio/PyGeoStudio.py:169-196 | children after the first `Len` ones are never looked at |
| DocumentProofs.CountCounted | PyGeoStudio/PyGeoStudio.py:424 | the `Len` of a written collection reads back as its size |
| DocumentProofs.GeometriesRoundTrip | PyGeoStudio/PyGeoStudio.py:416-421 | every geometry written to the Geometries section is read back, in order, provided each point coordinate reads back from its text |
| DocumentProofs.WriteRecordsGeneric | PyGeoStudio/PyGeoStudio.py:422-445 | a collection of generic records writes each as its field elements followed by its captured subtrees |
| DocumentProofs.RecordsRoundTrip | PyGeoStudio/PyGeoStudio.py:422-445 | the Analyses, Materials and Reinforcements sections are read back, in order, from what `genConfigurationFile` emits |
| DocumentProofs.FindFirstPrefix | PyGeoStudio/PyGeoStudio.py:390-393 | a first match stays the first match once records are appended after it |
| DocumentProofs.SharedListLeaks | PyGeoStudio/PyGeoStudio.py:472-479 | as written, `getFunctionByName` on a second study returns the first study's Function whenever the first study had one of that name |
| DocumentProofs.FunctionsListGrows | PyGeoStudio/PyGeoStudio.py:472-479 | as written, every `study["Functions"]` call lists every Function once more |
| DocumentProofs.GeometryZeroIsLast | PyGeoStudio/PyGeoStudio.py:279-280 | as written, ID 0 returns the last geometry and -1 the one before; the corrected lookup refuses 0 |
| DocumentProofs.SaveAsOverwritesSource | PyGeoStudio/PyGeoStudio.py:521-525 | as written, `saveAs("study")` on `study.gsz` targets the source archive; the corrected check refuses it |
| DocumentProofs.LinkContextAttaches | PyGeoStudio/PyGeoStudio.py:153-155 | a context is attached to the first analysis whose ID is its AnalysisID, stored under Context, and no other analysis changes |
| DocumentProofs.LinkFunctionAttaches | PyGeoStudio/PyGeoStudio.py:131-142 | a hydraulic record's slot holds the first function whose ID equals its number field; with no match the record is unchanged |
| DocumentProofs.LinkChecks | PyGeoStudio/PyGeoStudio.py:118-155 | after linking succeeds, every MeshId converted, every analysis passed the GeometryId lookup as written, and each material is as linking it alone leaves it |
| DocumentProofs.LinkAnalysisAttaches | PyGeoStudio/PyGeoStudio.py:145-147 | an analysis links only when its GeometryId is an integer from 1-count to count (the lookup as written), and an Analysis stores the position that ID names: ID-1 from 1 on, counted from the end for 0 and below |

## Left out

- Zip archives, file existence checks, `ET.parse` and `ET.tostring`: the model starts from a parsed root element and ends with the root to serialise. `save` is a zip rewrite around `genConfigurationFile` and is not modelled.
- The wall clock: FileInfo's Date and Time are parameters of `FileInfos.FileInfoElement`.
- Meshes and results: `Mesh` and `Results` read PLY and CSV files. Only the `int(MeshId)` conversion is modelled (`Documents.CheckMeshIds`). `analysis["Results"]` is not attached, and the mesh loop's use of `mesh_obj` after a failed load is not modelled.
- Dataset CSV data (`Dataset.__init__`, `loadDataFromCSV`): file reads. The Datasets top-level section is not dispatched by `initialize`, so it passes through like any unknown section.
- Float parsing and formatting: `FloatCodec` is an uninterpreted parameter. A round trip requires only that each float it writes parses back to itself (`Values.RoundTrips`).
- `int()` of text with surrounding whitespace or underscores is not modelled: only an optional sign and ASCII digits parse.
- A few conversions are reported as `NotModelled` instead of a value:
  - `int()`, `float()` and truth of an array; `str()` of a container; `dict()` of a list; a float kept raw by a `my_data` setter (module `Access`);
  - a Function's Points that are neither a point list nor an array, or that are not an array when written; a descriptor that is not a string; a ragged table (module `Functions`);
  - the Mesh object (module `Geometries`);
  - the results writer, and a list of names or of dictionaries reaching the generic writer (module `Marshal`);
  - `getSavedTimeStep` over time steps that are not a list of dictionaries (`TimeSteps.SavedTimes`).
- Documents.FindFirst: Python `==` between stored values is taken as equality of the model values, so `1 == 1.0` and `True == 1` do not match in the model.
- Documents.LinkContext, Documents.LinkContexts: their own contracts state only that the collections keep their length; what each attaches, and where, is stated by DocumentProofs.LinkContextAttaches.
- Documents.Link: its own contract states what linking keeps; what every record must pass, and what each material becomes, is stated by DocumentProofs.LinkChecks.
- FunctionTreeProofs.TreeRoundTrip: takes as a hypothesis (`Rereads`) that every Function of a list, written as one item, reads back as itself. That holds only for some Functions: the write leaves out the `my_data` keys, and the read stamps `Types` with the list's key path.
- Documents.LinkMaterials, Documents.LinkAnalyses: their own contracts relate the loop to one link per record; what a single link attaches is stated by DocumentProofs.LinkFunctionAttaches and DocumentProofs.LinkAnalysisAttaches.
- Functions.InitSettles: stated on the two hooks a write and a read run on a Function record (`__deinitialize__` and `__initialize__`), not on the element between them. No lemma states that a Function record written to its element and read back is unchanged.
- Geometries.FillPoints, Geometries.FillLines: their contracts state only that the table keeps its size; the contents are stated by GeometryProofs.PointsRoundTrip and GeometryProofs.LinesRoundTrip.
- Object identity: a reference stored in a field is the referenced object's position (`Ref(i)`). Later changes to the referenced object are not reflected through the link.
- Marshal.WriteRecord: the changes the `__write__` hooks make to nested records during a document write (a reinforcement gaining Type "Anchors") are returned, but `Documents.Generate` does not carry them back into the study.
- FunctionTrees.WriteNode: the RuntimeError branch of `__writeFunctions__` cannot arise, because a dictionary value is always a category, a list or a raw element.
- FunctionTrees.ReadTree: every read starts from the empty path. In the code `current=[]` is one list shared by every call of `__readFunctions__`. When `Function(infun)` raises (a descriptor such as `F()`), the pops never run and the list keeps the path, so a later study read in the same process starts from that path instead of the top and fails there. This carry-over between studies is not modelled.
- Geometries.FillLines: reads the point numbers as unbounded integers; numpy's `int64` table raises OverflowError for a number outside its range.
- Geometries.LineElements: writes `n + 1` exactly; numpy's `int64` wraps at 2^63 - 1, so the code writes a negative number for a point number of 2^63 - 1.
- The `TimeIncrements.__write__` branch for a field declared as `None` cannot be reached, because no TimeIncrements field is declared so.
- Plotting, printing and warnings text: `draw`, `plot`, `showProblem`, the `show*` tables, `Color.setMPLColor`, `__str__` of records.
- `Geometry.addPoints`, `addLines` and `createRegion`, and `Analysis.setGeometry` and `setContext`: they use names or attributes that do not exist, so they have no behaviour to state.
- The legacy `Geo*.py` classes, `builtin_functions.py` (floating-point formulas) and `utils.py` (solver launch) are not part of this model.

## Findings

| source | as written | input that shows it | evidently intended | confidence | as-written member | corrected member |
|---|---|---|---|---|---|---|
| PyGeoStudio/Color.py:35 | `instance(x,int)` calls a name that does not exist | `Color([10, 20, 30])` raises NameError | `isinstance(x, int)`: three integers from 0 to 255 are accepted | not executed | Colors.FromListAsWrittenRejectsAll | Colors.FromList |
| PyGeoStudio/Dataset.py:114 | `self.data.shape[1]` on the `data` dictionary | any `setDataParameters(["Time"])` raises AttributeError; were it passed, the error message at Dataset.py:118 names the undefined global `dataset_parameters` and raises NameError instead of ValueError | compare with the column count of `self.data["Data"]` | not executed | DatasetRecords.SetDataParametersAsWrittenFails | DatasetRecords.SetDataParameters |
| PyGeoStudio/Dataset.py:104 | NumRows stored as a Python int | `loadDataFromArray(arr)` followed by a save raises "value is not a string" | store `str(arr.shape[0])` like every other scalar field | not executed | DatasetRecords.LoadedAsWrittenNotWritable | DatasetRecords.LoadDataFromArray |
| PyGeoStudio/Geometry.py:163 | new key `Regions-<len+1>` | a geometry whose only region is `Regions-2`: `addRegions(pts)` replaces it | a number not yet in use | not executed | GeometryProofs.AddRegionsAsWrittenOverwrites | Geometries.AddRegions |
| PyGeoStudio/PyGeoStudio.py:279 | only `ID > len` is rejected | `getGeometryByID(0)` returns the last geometry | IDs below 1 are rejected too | not executed | DocumentProofs.GeometryZeroIsLast | Documents.GeometryIndex |
| PyGeoStudio/PyGeoStudio.py:521 | the name is compared before `.gsz` is appended | `saveAs("study")` on `study.gsz` overwrites the source | compare the name that will be written | not executed | DocumentProofs.SaveAsOverwritesSource | Documents.SaveAsName |
| PyGeoStudio/PyGeoStudio.py:472 | default `l=[]` shared by every call | two studies with a Function named "K": `getFunctionByName("K")` on the second returns the first study's | a fresh list per call | not executed | DocumentProofs.SharedListLeaks | Documents.FunctionByName |
| PyGeoStudio/PyGeoStudio.py:74 | `study["Functions"]` goes through the shared list | calling it twice lists every Function twice | the study's own Functions | not executed | DocumentProofs.FunctionsListGrows | Documents.GetItem |
