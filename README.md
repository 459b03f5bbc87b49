# GraphQLImporter_v2 core, modelled in Dafny

GraphQLImporter_v2 reads an Excel workbook and turns every row into a GraphQL mutation for a
backend service. The model covers the following parts.

- **Workbook reading.** There are two readers:
  - `graphql.excel.ExcelDataReader` (`ExcelReader`) produces headers, cells and rows. It latches,
    per header, whether a value needs quotation marks.
  - The older `_out` reader (`ExcelReaderOut`) produces sheets of plain strings. For deletes it
    reads them in reverse order.

  Both apply the `_mapping` sheet, which renames sheets.
- **Model.** This covers `Header`, `DataCell`, `DataRow`, `DataSheet` and `DataFile` (`Headers`,
  `DataCells`, `DataModel`) and the older `v2.beans.Header` (`HeadersV2`).
  - A header names an attribute or, as `Class.attr`, a reference to another class.
  - `*` marks are removed from a header.
  - A leading `§` forces quoting.
  - `[role]` overrides the role name under which a reference is stored.
- **Literal rendering.** A cell becomes a GraphQL literal: blank, a bare integer, a bare boolean
  or a quoted string. Quoted strings are escaped by `Escaper.escapeJsonString` (`Escaper`), whose
  partner is the decoder of section 7 of RFC 8259. The model also covers the parts of
  `java.math.BigDecimal` the importer relies on (`Decimals`).
- **Mutation and query text.**
  - `GraphQLMutationBuilder` (`MutationBuilder`) writes the create and composition-update
    mutations.
  - `GraphQLQueryBuilder` (`QueryBuilder`) writes `getPage` lookups in batches of one hundred
    values.
- **Reference resolution.**
  - `ExternalAttributeResolver` (`Resolver`) keeps one value-to-id table per header object.
  - `ExternalAttributeResolverParser` (`ResolverParser`) collects the distinct values of each
    reference column. It asks the service for their `_id`s in batches, through `JsonUtils.value2id`
    (`Json`), and caches them under class, attribute and value.
- **Sheet parsers.**
  - `MainParser`, `MainIndependentParser` and `MainDependentParser` write one create mutation per
    row.
  - `CompositionParser` handles the `#` sheets. It writes one update per row, which creates the
    composed object under its parent.
  - The `_out` parsers `MainDependentParserOut` and `CompositionParserOut` are the string-header
    iteration.
  - `Attributes` holds the column loop the parsers share. `ExternalAttributes` holds the
    `*Class.attr` grammar of the string-header parsers.
- **Nested updates.** `NestedCompositionUpdateBuilder` (`NestedBuilder`) nests the rows of
  composition sheets under their root's row data. It writes one update per root row.
- **The run.** `Application` (`Importer`) reads the workbook and parses each sheet with the
  parser its kind calls for. It sends every mutation in order, and the first exception ends the
  run. A delete run instead sends one bulk delete per main sheet.

Thrown exceptions are values of `Wrappers.Failure` inside a `Result`. Maps the source keeps as
`LinkedHashMap` are entry sequences in insertion order (`OrderedMaps`). Classes whose fields the
source updates in place are Dafny classes: `Header`, `DataRow`, `DataFile`, the resolvers, the
parsers, the nested builder and the application. Each class's methods are proved against
functions, and the lemmas are stated about those functions.

The model sees the outside world only through parameters:
- The GraphQL service's answer to a query is an `Executor`, which may throw, answer empty, or
  answer a text that does or does not parse as JSON.
- Whether sending a mutation throws is `fails`.
- Whether `Double.valueOf` accepts a text is `doubleParses`.
- The workbook arrives as sheets of cell texts and cell kinds.

## Model

| member | source | states |
|---|---|---|
| Escaper.EscapeAppend | src/main/java/graphql/util/Escaper.java:21-27 | escaping a concatenation is the concatenation of the escapes: every replace in the chain works on the two halves independently |
| Escaper.ChainIsPerCharacter | src/main/java/graphql/util/Escaper.java:21-27 | the chain of five replaces (backslash first) equals escaping each character on its own, so no escape is escaped twice; JsonUtils.escapeJsonString (JsonUtils.java:28-34) is the same chain and shares this definition |
| Escaper.EscapeLength | src/main/java/graphql/util/Escaper.java:21-27 | the escaped text is one character longer per backslash, quote, newline, carriage return and tab |
| Escaper.EscapeUnchanged | src/main/java/graphql/util/Escaper.java:21-27 | the text comes back unchanged exactly when it holds none of the five special characters |
| Escaper.EscapeNoRawControls | src/main/java/graphql/util/Escaper.java:21-27 | no raw newline, carriage return or tab is left in the escaped text |
| Escaper.EscapeRoundTrip | src/main/java/graphql/util/Escaper.java:21-27 | decoding the two-character escapes of section 7 of RFC 8259 gives the input back exactly when the input holds no other control character (which the chain leaves raw), and fails otherwise |
| Escaper.UnescapeCons | src/main/java/graphql/util/Escaper.java:13-27 | the step of `EscapeRoundTrip`'s induction: decoding one escaped character followed by more text yields that character and then the decoded rest, or fails on a raw control character |
| MutationBuilder.Kept | src/main/java/graphql/graphql/GraphQLMutationBuilder.java:74-79 | the entries kept are those whose value is not blank after trim, never more than the map holds |
| MutationBuilder.BlankEntriesIgnored | src/main/java/graphql/graphql/GraphQLMutationBuilder.java:73-79 | entries with a blank value take no part: formatting the map equals formatting its non-blank entries, and a map of blank values formats as "" |
| MutationBuilder.KeptIdempotent | src/main/java/graphql/graphql/GraphQLMutationBuilder.java:74-79 | filtering the blank entries twice is filtering them once |
| MutationBuilder.AllFields | src/main/java/graphql/graphql/GraphQLMutationBuilder.java:80-102 | the stream collects every field in order when each succeeds, and otherwise fails with the failure of the first field that threw |
| MutationBuilder.Fields | src/main/java/graphql/graphql/GraphQLMutationBuilder.java:80-101 | one field per kept entry, in map order, each formatted from its own name and value |
| MutationBuilder.BooleanIsBare | src/main/java/graphql/graphql/GraphQLMutationBuilder.java:82-87 | every spelling of true or false, in any letter case and followed by any number of "()", is emitted bare and lower-case |
| MutationBuilder.BooleanExample | src/main/java/graphql/graphql/GraphQLMutationBuilder.java:84-87 | "TRUE()" is emitted as `name: true` |
| MutationBuilder.NumberQuoting | src/main/java/graphql/graphql/GraphQLMutationBuilder.java:88-94 | a number is written in its canonical plain form and quoted exactly when that form has a point or the name holds the real prefix; a whole number under a plain name is bare and has no point |
| MutationBuilder.UnparsableNumberThrows | src/main/java/graphql/graphql/GraphQLMutationBuilder.java:88-90 | a value Double.valueOf accepts but BigDecimal rejects throws, and the whole map fails with it |
| MutationBuilder.EscapeQuotesRoundTrip | src/main/java/graphql/graphql/GraphQLMutationBuilder.java:95-99 | in a quoted value every `"` is preceded by a backslash, and reading `\"` back as `"` restores the value |
| MutationBuilder.UnframeFrame | src/main/java/graphql/graphql/GraphQLMutationBuilder.java:26 | a mutation reads back as its operation and its data object, for every operation name without `(` |
| MutationBuilder.FrameUnframe | src/main/java/graphql/graphql/GraphQLMutationBuilder.java:26 | whatever a mutation reads back as, framed again, is that mutation |
| MutationBuilder.BuildCreateMutation | src/main/java/graphql/graphql/GraphQLMutationBuilder.java:22-27 | the create mutation exists exactly when the attributes format, and is the create operation of the object with the formatted attributes as data |
| MutationBuilder.CreateReadsBack | src/main/java/graphql/graphql/GraphQLMutationBuilder.java:22-27 | a create mutation reads back as `<object>___create` and exactly the formatted attributes |
| MutationBuilder.BuildCompositionUpdateMutation | src/main/java/graphql/graphql/GraphQLMutationBuilder.java:43-63 | the update mutation exists exactly when the composed attributes format, and is the parent's update operation with the identifier and the created composition as data |
| MutationBuilder.CompositionUpdateReadsBack | src/main/java/graphql/graphql/GraphQLMutationBuilder.java:43-63 | a composition update reads back as `<parent>___update`, with data that starts with the parent identifier and its value as given and ends with the composition created from the formatted attributes |
| Decimals.Parse | src/main/java/graphql/graphql/GraphQLMutationBuilder.java:90 | new BigDecimal(text) succeeds only on a non-empty text starting with a digit, a sign or a point, and never yields a negative scale |
| Decimals.ParseWhole | src/main/java/graphql/graphql/GraphQLMutationBuilder.java:90 | digits without a point parse to their value at scale 0 |
| Decimals.ParsePointed | src/main/java/graphql/graphql/GraphQLMutationBuilder.java:90 | digits around a point parse to the value of all the digits, with one unit of scale per digit after the point |
| Decimals.StripTrailingZeros | src/main/java/graphql/graphql/GraphQLMutationBuilder.java:90 | the stripped value has no factor of ten left in its unscaled digits, never a larger scale, and zero becomes 0 at scale 0 |
| Decimals.StripScaled | src/main/java/graphql/graphql/GraphQLMutationBuilder.java:90 | writing a value with more zeros after the point does not change what stripTrailingZeros gives |
| Decimals.TrailingZerosSameCanonical | src/main/java/graphql/graphql/GraphQLMutationBuilder.java:90 | "123" and "123.0…0" both parse and strip to the same canonical value |
| Decimals.ToPlainString | src/main/java/graphql/graphql/GraphQLMutationBuilder.java:90-91 | the plain text holds a point exactly when the scale is positive, which decides the quoting of line 91 |
| Decimals.WholeStripsToInteger | src/main/java/graphql/model/DataCell.java:40-44 | a value setScale(0) keeps exactly has no digits after the point once stripped |
| QueryBuilder.BuildGetIdQuery | src/main/java/graphql/graphql/GraphQLQueryBuilder.java:21-61 | one getPage query per batch of the values, in order, the loop stepping by the batch size of 100 |
| QueryBuilder.QueriesCoverValues | src/main/java/graphql/graphql/GraphQLQueryBuilder.java:28-34 | across the queries every value is asked for exactly once and in order: the batches concatenate back to the values, none is empty or larger than 100, all but the last are full, and there are none exactly when there are no values |
| Batching.BatchesCount | src/main/java/graphql/graphql/GraphQLQueryBuilder.java:31 | the number of batches is the ceiling of the value count divided by the batch size |
| Batching.BatchesAt | src/main/java/graphql/graphql/GraphQLQueryBuilder.java:31-34 | batch i is the sublist from i times the size to the smaller of that plus the size and the count |
| Batching.BatchesFlatten | src/main/java/graphql/graphql/GraphQLQueryBuilder.java:31-34 | the batches concatenate back to the input: nothing is lost, repeated or reordered |
| DataCells.IsIntegerNeverFalse | src/main/java/graphql/model/DataCell.java:40-46 | for a non-blank NUMERIC cell not formatted as a date, isInteger returns true exactly when the value parses with no non-zero digit after the point, and never returns false: otherwise it throws |
| DataCells.FractionalThrows | src/main/java/graphql/model/DataCell.java:42-43 | "2.5" in a NUMERIC cell throws ArithmeticException, because setScale(0) has no rounding mode |
| DataCells.QuotationMarksRule | src/main/java/graphql/model/DataCell.java:52-54 | quotation marks are needed exactly when the header forces them or the cell is neither an integer nor a boolean |
| DataCells.BlankFormatsEmpty | src/main/java/graphql/model/DataCell.java:64-66 | a blank cell formats as "", whatever its type and header |
| DataCells.IntegralFormatsBare | src/main/java/graphql/model/DataCell.java:56-60 | an integral number under a header that does not force quotes formats as its stripped plain text, unquoted and without a point |
| DataCells.ForcedIsQuoted | src/main/java/graphql/model/DataCell.java:61-63 | a non-blank, non-integer value under a forcing header is the escaped value between quotation marks |
| DataCells.ForcedIntegralIsQuoted | src/main/java/graphql/model/DataCell.java:58-63 | a non-blank integral number under a forcing header is the escaped stripped plain text between quotation marks |
| DataCells.BooleanIsBare | src/main/java/graphql/model/DataCell.java:48-54 | a boolean cell under a header that does not force quotes is emitted unchanged and unquoted |
| DataCells.DateIsQuoted | src/main/java/graphql/model/DataCell.java:41 | a date-formatted NUMERIC cell is not an integer and is quoted like text |
| DataModel.DataRow.constructor | src/main/java/graphql/model/DataRow.java:22-25 | keeps the cell list and builds the header index by putting every cell under its header object, in list order |
| DataModel.DataRow.Get | src/main/java/graphql/model/DataRow.java:31-33 | get(header) is absent exactly when no cell has that header object, and otherwise is the last such cell of the list (a later put replaces an earlier one) |
| DataModel.DataRow.KeysAreHeaders | src/main/java/graphql/model/DataRow.java:20-25 | the index holds one entry per distinct header object of the cells, and no other key |
| DataModel.DataSheet.RoleName | src/main/java/graphql/model/DataSheet.java:45-47 | getRoleName holds no `#`, and every other character of the name and only those |
| DataModel.CompositionRoleName | src/main/java/graphql/model/DataSheet.java:41-47 | "#Employee" is a composition sheet with role name "Employee"; a name without `#` is not a composition and is its own role name |
| DataModel.MappingPositions | src/main/java/graphql/model/DataFile.java:34-37 | the filter keeps the positions of exactly the sheets named `_mapping` ignoring case, in increasing order |
| DataModel.DataFile.MappingSheet | src/main/java/graphql/model/DataFile.java:33-43 | the mapping sheet is found exactly when one sheet is named `_mapping` ignoring case, and it is that sheet; no such sheet or two of them give null |
| DataModel.DataFile.constructor | src/main/java/graphql/model/DataFile.java:19-21 | the workbook holds the given sheet list |
| Headers.StoredText | src/main/java/graphql/model/Header.java:23-25 | the stored header holds no `*`, and every other character of the raw header and only those |
| Headers.Header.constructor | src/main/java/graphql/model/Header.java:21-25 | a new header stores its text without `*` and starts with the inferred-quotation latch off |
| Headers.Header.SetInferredQuotations | src/main/java/graphql/model/Header.java:27-29 | the latch takes the given value |
| Headers.AttributeName | src/main/java/graphql/model/Header.java:95-97 | getAttributeName holds no `§`, and every other character of the header and only those |
| Headers.RoleName | src/main/java/graphql/model/Header.java:51-64 | roleName gives a role exactly for a reference header (one holding `.`), and null otherwise |
| Headers.ReferenceOf | src/main/java/graphql/model/Header.java:66-86 | a header whose cleaned text is class "." attribute, optionally followed by more `.` parts, has that class and that attribute: a third part is ignored |
| Headers.ReferenceRejected | src/main/java/graphql/model/Header.java:70-73 | a class name followed only by separators ("A.", "A..") splits into fewer than two parts and throws IllegalArgumentException |
| Headers.RoleNameOverride | src/main/java/graphql/model/Header.java:56-61 | a reference header with a non-empty `[role]`, and no `[` before it, has that role |
| Headers.RoleNameDefault | src/main/java/graphql/model/Header.java:39-41 | without a `[` the role of "Class.attr" is the class name with a lower-case first letter, followed by `_` |
| HeadersV2.SectionSignNotForced | src/main/java/v2/beans/Header.java:32-34 | the forced-quotation test compares with the two characters the source file spells, so a header starting with `§` itself is not forced |
| HeadersV2.DefaultRoleKeepsMarker | src/main/java/v2/beans/Header.java:16-30 | the text is kept verbatim, so "*Class.attr" has default role "*Class_" |
| HeadersV2.DotsOnlyRejected | src/main/java/v2/beans/Header.java:28-30 | a header made only of dots is a reference whose split has no part 0, so its default role throws |
| ExternalAttributes.ParseRender | src/main/java/graphql/parser/ExternalAttribute.java:40-48 | parseExternalAttribute reads back the class and attribute of every "*Class.attr" header whose names hold no `.` and whose attribute is not empty |
| ExternalAttributes.ParseRejectsThreeParts | src/main/java/graphql/parser/ExternalAttribute.java:42-45 | a header with three `.`-separated parts is rejected |
| ExternalAttributes.ParseEmpty | src/main/java/graphql/parser/ExternalAttribute.java:41 | an empty header cannot drop its first character and throws |
| ExternalAttributes.ExtractIsRoleName | src/main/java/graphql/parser/ExternalAttribute.java:53-63 | the target attribute named from a reference header and its class is the role Header.roleName gives that header |
| ExternalAttributes.ExtractOverride | src/main/java/graphql/parser/ExternalAttribute.java:54-60 | an external attribute header whose attribute part holds a non-empty `[role]` targets that role, whatever the class |
| ExternalAttributes.ExtractTargetExample | src/main/java/graphql/parser/ExternalAttribute.java:71-73 | the class's own example: "Patologia.nome" with class "Evento" targets "evento_" |
| ExternalAttributes.HashKeyConsistent | src/main/java/graphql/parser/ExternalAttribute.java:27-38 | hashCode agrees with equals: equal attributes have equal hash keys |
| ExternalAttributes.HashKeyInjective | src/main/java/graphql/parser/ExternalAttribute.java:36-38 | when neither class name holds `|`, equal hash keys mean equal attributes |
| ExternalAttributes.HashKeyCollision | src/main/java/graphql/parser/ExternalAttribute.java:36-38 | with a `|` in a name, distinct attributes can share a hash key |
| ExcelReader.ReadHeaders | src/main/java/graphql/excel/ExcelDataReader.java:56-59 | one new header object per present cell of the header row, in order, each storing the cell text without `*`, pairwise distinct, with its latch clear |
| ExcelReader.ParseRow | src/main/java/graphql/excel/ExcelDataReader.java:64-80 | the cells of a data row are one per present position, each under the header of its column (a new empty header past the last column), and each column's latch is updated as the source writes it; a number check that throws is reported at its position |
| ExcelReader.ParseRows | src/main/java/graphql/excel/ExcelDataReader.java:61-82 | one data row per sheet row after the header row, in order, each matching its sheet row; afterwards every latch is true exactly when its header is not forced and some cell of its column needs quotation marks; a throwing cell is reported with its row and position |
| ExcelReader.ParseSheet | src/main/java/graphql/excel/ExcelDataReader.java:52-85 | parseSheet keeps the sheet name, builds the headers from the header row and the rows from the rest with the latches set as above, and fails only where a cell's number check throws |
| ExcelReader.MappingTableFromPairs | src/main/java/graphql/excel/ExcelDataReader.java:111-112 | with two cells in every mapping row the table is the (cell 0, cell 1) pairs put in row order |
| ExcelReader.MappingTableShortRow | src/main/java/graphql/excel/ExcelDataReader.java:112 | the first mapping row with fewer than two cells throws at the missing index |
| ExcelReader.MappingLastRowWins | src/main/java/graphql/excel/ExcelDataReader.java:111-112 | each old name maps to the new name of its last mapping row, and names without a row are absent |
| ExcelReader.BuildMappingTable | src/main/java/graphql/excel/ExcelDataReader.java:111-112 | the forEach of puts builds exactly the mapping table, or throws where it does |
| ExcelReader.RenamedSheet | src/main/java/graphql/excel/ExcelDataReader.java:113-115 | renaming keeps every sheet's headers and rows, renames a sheet whose name is an old name to its new name, and leaves every other sheet as it is |
| ExcelReader.RenameSheets | src/main/java/graphql/excel/ExcelDataReader.java:113-115 | every sheet of the workbook is renamed in place through the table, in order |
| ExcelReader.FixMappingSheet | src/main/java/graphql/excel/ExcelDataReader.java:102-116 | without a single mapping sheet nothing changes; otherwise the mapping sheet is removed first, then a column count other than two throws, then a short mapping row throws, and otherwise the remaining sheets are renamed through the table |
| ExcelReader.ReadExcelFile | src/main/java/graphql/excel/ExcelDataReader.java:35-46 | every sheet is parsed in workbook order into a new workbook, then the mapping is applied; without a mapping sheet the workbook keeps every sheet under its own name, in order |
| ExcelReaderOut.RowValues | _out/ExcelDataReader.java:98-101 | one value per position of the row, a missing cell reading as "" |
| ExcelReaderOut.KeptRowsShape | _out/ExcelDataReader.java:94-105 | every kept row is non-empty, no more rows are kept than read, and with no empty row the rows are exactly the values of the data rows |
| ExcelReaderOut.ReadHeaderRow | _out/ExcelDataReader.java:88-92 | the headers are the texts of the present cells of the header row, in order |
| ExcelReaderOut.ParseSheet | _out/ExcelDataReader.java:81-108 | parseSheet keeps the sheet name, takes the header row's present cells as headers, and keeps every later row that holds a position, missing cells as "" |
| ExcelReaderOut.Ordered | _out/ExcelDataReader.java:44-55 | the sheets are parsed in workbook order, or from last to first for a delete run |
| ExcelReaderOut.DeleteOrderReversed | _out/ExcelDataReader.java:45-55 | the delete order is the creation order reversed, sheet by sheet |
| ExcelReaderOut.FirstMapping | _out/ExcelDataReader.java:63 | the mapping sheet is the first sheet named exactly `_mapping`, and no earlier sheet has that name |
| ExcelReaderOut.BuildTable | _out/ExcelDataReader.java:69-70 | the forEach of puts builds the old-name to new-name table, and a row with one value throws at index 1 |
| ExcelReaderOut.ApplyMapping | _out/ExcelDataReader.java:62-79 | applyMapping finds the mapping sheet, throws unless it has two headers, renames every sheet through the table and then removes the mapping sheet |
| ExcelReaderOut.NoMappingUnchanged | _out/ExcelDataReader.java:63-64 | without a sheet named exactly `_mapping` the sheets are returned unchanged, so `_MAPPING` stays a data sheet |
| ExcelReaderOut.MappingRenames | _out/ExcelDataReader.java:66-77 | with a well-formed mapping sheet the result drops exactly that sheet and renames each other sheet to the new name of the last mapping row for its name, keeping its headers and rows |
| ExcelReaderOut.ReadExcelFile | _out/ExcelDataReader.java:37-60 | readExcelFile parses every sheet in the chosen order and then applies the mapping sheet |
| Json.DirectValue | src/main/java/graphql/util/JsonUtils.java:43-48 | the node's own answer is the text of its field for the attribute, only when that field holds a value node |
| Json.FindSound | src/main/java/graphql/util/JsonUtils.java:41-61 | what findValueRecursive returns is held by some object of the tree: a field for the attribute with a value node of that text |
| Json.FindComplete | src/main/java/graphql/util/JsonUtils.java:41-61 | whenever some object of the tree holds the attribute with a value node, the search finds a value; it returns null only when none does |
| Json.FindValueRecursive | src/main/java/graphql/util/JsonUtils.java:41-61 | the loop over the children with its early return computes exactly the recursive search |
| Json.Value2Id | src/main/java/graphql/util/JsonUtils.java:63-83 | value2id computes the key-to-id table of the response items, or throws listing the duplicated keys |
| Json.CollectItems | src/main/java/graphql/util/JsonUtils.java:70-78 | the loop over the items puts each item's key and id and records a key each time a put replaces one |
| Json.CollectShape | src/main/java/graphql/util/JsonUtils.java:71-78 | when every item has a child, the loop puts every (key, id) pair in item order and reports a duplicate exactly when some key repeats |
| Json.CollectReported | src/main/java/graphql/util/JsonUtils.java:74-77 | each key the loop reports as duplicated is a key of the items or of the table it started from |
| Json.CollectIsTracking | src/main/java/graphql/util/JsonUtils.java:71-78 | with well-formed items the loop is the tracked puts of the items' (key, id) pairs |
| Json.Value2IdDistinct | src/main/java/graphql/util/JsonUtils.java:63-83 | with well-formed items whose keys all differ, value2id returns each key with its id, in item order |
| Json.Value2IdDuplicate | src/main/java/graphql/util/JsonUtils.java:74-81 | with well-formed items, a repeated key makes value2id throw, and the message lists that key and only keys of the items |
| Json.CollectMalformed | src/main/java/graphql/util/JsonUtils.java:72 | an item without children makes value2id throw |
| OrderedMaps.GetPut | src/main/java/graphql/util/JsonUtils.java:74 | reading a key after a put gives the put value for that key and the old value for every other key |
| OrderedMaps.TrackingReportsRepeat | src/main/java/graphql/util/JsonUtils.java:74-77 | a key put when already present, either from the start or from an earlier put, is reported |
| OrderedMaps.PutAllGet | src/main/java/graphql/model/DataRow.java:24 | after putting a list of entries in order, each key holds the value of its last entry, and keys of no entry keep their old value |
| Resolver.ResolvedIdOf | src/main/java/graphql/parser/ExternalAttributeResolver.java:75-77 | getResolvedId throws exactly when the cell's header has no table, and otherwise finds an id exactly when the cell's raw value is a key of that table |
| Resolver.StepsMeaning | src/main/java/graphql/parser/ExternalAttributeResolver.java:31-48 | a cell's step fails exactly when it is looked at and throws; otherwise it puts an attribute exactly when it contributes, always under the header's attribute name |
| Resolver.CompositionAttributesOk | src/main/java/graphql/parser/ExternalAttributeResolver.java:28-51 | a row's map can be built exactly when no looked-at cell throws |
| Resolver.CompositionAttributeKeys | src/main/java/graphql/parser/ExternalAttributeResolver.java:45-47 | the keys of a row's map are exactly the attribute names of its contributing cells |
| Resolver.CompositionAttributeValues | src/main/java/graphql/parser/ExternalAttributeResolver.java:45-47 | a name no later contributing cell repeats holds the cell's resolved id, for a reference, or its formatted value otherwise |
| Resolver.PassedOverCellChangesNothing | src/main/java/graphql/parser/ExternalAttributeResolver.java:32-44 | the parent column, a blank cell and a reference whose value has no id only drop their own column: the row without that cell gives the same map or the same failure |
| Resolver.ExternalHeaders | src/main/java/graphql/parser/ExternalAttributeResolver.java:57 | the external headers are exactly the reference headers of the sheet |
| Resolver.Found | src/main/java/graphql/parser/ExternalAttributeResolver.java:66-67 | row.get(header) gives, per row, that row's last cell under the header object |
| Resolver.ExtractValuesShape | src/main/java/graphql/parser/ExternalAttributeResolver.java:64-73 | extractValuesForHeader succeeds exactly when every cell found formats, and then holds each distinct formatted value of those cells once, blank ones included |
| Resolver.ExtractFromShape | src/main/java/graphql/parser/ExternalAttributeResolver.java:66-71 | the row walk keeps the values it started with and adds the formatted value of every cell found, each once |
| Resolver.AllHeaderIds | src/main/java/graphql/parser/ExternalAttributeResolver.java:57-61 | one getIds result per external header, in header order |
| Resolver.PutTablesKeeps | src/main/java/graphql/parser/ExternalAttributeResolver.java:60 | putting the tables only grows the header table and changes only the listed headers' entries |
| Resolver.PutTablesOk | src/main/java/graphql/parser/ExternalAttributeResolver.java:57-61 | the loop completes exactly when every header's lookup succeeds, and otherwise fails as the first failing header does |
| Resolver.PutTablesTables | src/main/java/graphql/parser/ExternalAttributeResolver.java:57-61 | after a complete loop every header holds its own getIds table |
| Resolver.ResolveHeadersKeeps | src/main/java/graphql/parser/ExternalAttributeResolver.java:53-62 | resolveAllExternalAttributes only grows the table and changes only the external headers' entries |
| Resolver.ResolveHeadersOk | src/main/java/graphql/parser/ExternalAttributeResolver.java:53-62 | the run succeeds exactly when every external header resolves, and otherwise fails as the first failing header does |
| Resolver.ResolveHeadersTables | src/main/java/graphql/parser/ExternalAttributeResolver.java:53-62 | after a successful run every external header holds the getIds table of its own column |
| Resolver.ExternalAttributeResolver.constructor | src/main/java/graphql/parser/ExternalAttributeResolver.java:22 | a new resolver starts with an empty header table |
| Resolver.ExternalAttributeResolver.GetResolvedId | src/main/java/graphql/parser/ExternalAttributeResolver.java:75-77 | the lookup of the resolver's own table, as ResolvedIdOf states |
| Resolver.ExternalAttributeResolver.BuildCompositionAttributes | src/main/java/graphql/parser/ExternalAttributeResolver.java:28-51 | the loop over the row's cells builds exactly the row's map, with the properties proved of it above |
| Resolver.ExternalAttributeResolver.BuildMainAttributes | src/main/java/graphql/parser/ExternalAttributeResolver.java:24-26 | a main row's map is the composition map with no parent header |
| Resolver.ExternalAttributeResolver.ExtractValuesForHeader | src/main/java/graphql/parser/ExternalAttributeResolver.java:64-73 | the loop over the rows computes exactly the extracted values |
| Resolver.ExternalAttributeResolver.ResolveAllExternalAttributes | src/main/java/graphql/parser/ExternalAttributeResolver.java:53-62 | the loop leaves the resolver's table and failure exactly as the header-by-header resolution gives them |
| Resolver.ExternalAttributeResolver.HeaderIdsFor | src/main/java/graphql/parser/ExternalAttributeResolver.java:58-59 | one header's values, class and attribute, then getIds, as HeaderIds states |
| ResolverParser.GetIdsBatch | src/main/java/graphql/parser/ExternalAttributeResolverParser.java:116-138 | getIdsBatch succeeds exactly when the endpoints answer with JSON that value2id reads; an exception, an empty answer and an unreadable answer each fail with their own failure |
| ResolverParser.GetIdsBatchOf | src/main/java/graphql/parser/ExternalAttributeResolverParser.java:116-138 | the method computes exactly GetIdsBatch |
| ResolverParser.QueriesAre | src/main/java/graphql/parser/ExternalAttributeResolverParser.java:97 | a list of the right length holding each batch's query at its place is the query list |
| ResolverParser.MergeBatches | src/main/java/graphql/parser/ExternalAttributeResolverParser.java:102-109 | the query loop completes exactly when every query succeeds |
| ResolverParser.MergeStep | src/main/java/graphql/parser/ExternalAttributeResolverParser.java:102-109 | one successful query puts its answer, tracking repeated keys, and the loop goes on with the rest |
| ResolverParser.MergeBatchesFails | src/main/java/graphql/parser/ExternalAttributeResolverParser.java:102-109 | a failed loop fails as some query does, and every query before that one succeeded |
| ResolverParser.GetIds | src/main/java/graphql/parser/ExternalAttributeResolverParser.java:89-114 | the method computes exactly getIds's table or failure |
| ResolverParser.PutEntries | src/main/java/graphql/parser/ExternalAttributeResolverParser.java:103-108 | the forEach over one answer is the tracked put of its entries |
| ResolverParser.Answers | src/main/java/graphql/parser/ExternalAttributeResolverParser.java:102-103 | one answer per query, each that query's table |
| ResolverParser.AnswersTail | src/main/java/graphql/parser/ExternalAttributeResolverParser.java:102-103 | the entries of all answers are the first answer's followed by the rest's |
| ResolverParser.MergeAnswers | src/main/java/graphql/parser/ExternalAttributeResolverParser.java:102-109 | when every query succeeds, the loop is one tracked put of all the answers' entries in order |
| ResolverParser.GetIdsAnswers | src/main/java/graphql/parser/ExternalAttributeResolverParser.java:100-113 | getIds succeeds exactly when no key comes back twice across the answers, and then returns every entry in order; otherwise it reports a non-empty list of duplicates |
| ResolverParser.GetIdsFirstFailure | src/main/java/graphql/parser/ExternalAttributeResolverParser.java:102-109 | a failing query fails getIds with its own failure when all earlier queries succeeded |
| ResolverParser.BuildAttrKey | src/main/java/graphql/parser/ExternalAttributeResolverParser.java:84-87 | for a non-_id attribute the key is class, attribute and value run together; for an _id attribute the key can be built exactly when the value parses as a decimal |
| ResolverParser.IdKeyIgnoresZeroFraction | src/main/java/graphql/parser/ExternalAttributeResolverParser.java:85 | an _id written with or without a zero fraction gives the same key |
| ResolverParser.AddValue | src/main/java/graphql/parser/ExternalAttributeResolverParser.java:42-47 | LinkedHashSet.add keeps the old values in front and adds the new value at most once |
| ResolverParser.ColumnValuesOk | src/main/java/graphql/parser/ExternalAttributeResolverParser.java:43-50 | walking a column succeeds exactly when every non-blank cell in it formats |
| ResolverParser.AllFormatCons | src/main/java/graphql/parser/ExternalAttributeResolverParser.java:43-50 | the all-cells-format condition splits into the first row and the rest |
| ResolverParser.ColumnValuesPrefix | src/main/java/graphql/parser/ExternalAttributeResolverParser.java:42-50 | a successful walk keeps its starting values in front and repeats no value |
| ResolverParser.ColumnValuesMembers | src/main/java/graphql/parser/ExternalAttributeResolverParser.java:43-50 | a successful walk holds exactly its starting values and the formatted values of the column's non-blank cells |
| ResolverParser.YieldsStep | src/main/java/graphql/parser/ExternalAttributeResolverParser.java:43-50 | a value comes from the rows exactly when it comes from the first row or from the rest |
| ResolverParser.CollectStep | src/main/java/graphql/parser/ExternalAttributeResolverParser.java:33-51 | a skipped or non-reference header leaves the result as it is; a selected one adds its column's values |
| ResolverParser.CollectExternalAttributes | src/main/java/graphql/parser/ExternalAttributeResolverParser.java:27-53 | the loop over the headers computes exactly collectExternalAttributes |
| ResolverParser.WalkColumn | src/main/java/graphql/parser/ExternalAttributeResolverParser.java:43-50 | the loop over the rows computes exactly one column's values |
| ResolverParser.SelectedFormatStep | src/main/java/graphql/parser/ExternalAttributeResolverParser.java:33-51 | the formatting condition on the selected columns splits into the first column and the rest |
| ResolverParser.CollectFromOk | src/main/java/graphql/parser/ExternalAttributeResolverParser.java:33-51 | collecting succeeds exactly when every selected column formats all its non-blank cells |
| ResolverParser.CollectFromEntries | src/main/java/graphql/parser/ExternalAttributeResolverParser.java:33-51 | with distinct headers, a successful collection adds exactly the selected headers, keeps existing entries and gives each selected header its own column's values |
| ResolverParser.ChosenStep | src/main/java/graphql/parser/ExternalAttributeResolverParser.java:33-51 | a header is chosen from column i exactly when it is column i's selected header or is chosen from the next column |
| ResolverParser.Collected | src/main/java/graphql/parser/ExternalAttributeResolverParser.java:27-53 | with distinct headers, collectExternalAttributes fails exactly when a selected column has a cell that throws; otherwise its keys are exactly the selected reference headers and each holds exactly the formatted values of its column's non-blank cells |
| ResolverParser.Keyed | src/main/java/graphql/parser/ExternalAttributeResolverParser.java:74-77 | one keyed entry per answer entry |
| ResolverParser.PutKeysGrows | src/main/java/graphql/parser/ExternalAttributeResolverParser.java:74-77 | the puts never lose a cached key |
| ResolverParser.PutKeysFails | src/main/java/graphql/parser/ExternalAttributeResolverParser.java:74-77 | the puts fail exactly when some entry's key cannot be built |
| ResolverParser.PutKeysAll | src/main/java/graphql/parser/ExternalAttributeResolverParser.java:74-77 | when every key can be built, every entry is put under its built key, in order |
| ResolverParser.KeyedTail | src/main/java/graphql/parser/ExternalAttributeResolverParser.java:74-77 | keying the entries splits into the first entry and the rest |
| ResolverParser.PutKeysShape | src/main/java/graphql/parser/ExternalAttributeResolverParser.java:74-77 | the puts keep every cached key, fail exactly when a key cannot be built, and otherwise put every entry under its key in order |
| ResolverParser.ResolveBatchesAt | src/main/java/graphql/parser/ExternalAttributeResolverParser.java:67-69 | the batch from element i holds the next thousand values, or fewer at the end |
| ResolverParser.ResolveBatchesGrows | src/main/java/graphql/parser/ExternalAttributeResolverParser.java:67-80 | one header's batch loop never loses a cached key |
| ResolverParser.ResolveBatchGrows | src/main/java/graphql/parser/ExternalAttributeResolverParser.java:69-77 | one batch never loses a cached key |
| ResolverParser.ResolveEntriesGrows | src/main/java/graphql/parser/ExternalAttributeResolverParser.java:55-82 | the cache only grows: a resolve, even one that throws, removes no key |
| ResolverParser.ResolveOneBatch | src/main/java/graphql/parser/ExternalAttributeResolverParser.java:60-80 | a header with at most a thousand values makes one getIds call and puts every answer entry under its built key |
| ResolverParser.ExternalAttributeResolverParser.constructor | src/main/java/graphql/parser/ExternalAttributeResolverParser.java:25 | a new parser starts with an empty cache |
| ResolverParser.ExternalAttributeResolverParser.ResolveAllExternalAttributesBatched | src/main/java/graphql/parser/ExternalAttributeResolverParser.java:55-82 | the loop leaves the cache and failure exactly as the header-by-header resolution gives them |
| ResolverParser.ExternalAttributeResolverParser.ResolveHeader | src/main/java/graphql/parser/ExternalAttributeResolverParser.java:64-80 | the batch loop for one header computes exactly ResolveBatches over its batches of a thousand |
| ResolverParser.ExternalAttributeResolverParser.ResolveBatchStep | src/main/java/graphql/parser/ExternalAttributeResolverParser.java:68-77 | one batch's body computes exactly ResolveBatch |
| ResolverParser.ExternalAttributeResolverParser.PutResolved | src/main/java/graphql/parser/ExternalAttributeResolverParser.java:74-77 | the loop over one answer computes exactly PutKeys |
| Attributes.Emits | src/main/java/graphql/parser/MainIndependentParser.java:47-60 | at most one emitted pair per column |
| Attributes.FoldIsPutAll | src/main/java/graphql/parser/MainIndependentParser.java:47-60 | without a throwing column, the column loop is a put of every emitted pair into the map, in column order |
| Attributes.EmitsMembers | src/main/java/graphql/parser/MainIndependentParser.java:47-60 | a name is emitted exactly when some column emits it |
| Attributes.EmitsLast | src/main/java/graphql/parser/MainIndependentParser.java:56 | the value a column puts is the one kept when no later column puts the same name |
| Attributes.FoldDropSkip | src/main/java/graphql/parser/MainIndependentParser.java:49-58 | a column that is passed over can be left out without changing the loop's result |
| Attributes.FoldFails | src/main/java/graphql/parser/MainIndependentParser.java:47-60 | the column loop throws exactly when some column throws, and with the first such column's failure |
| Attributes.RowMap | src/main/java/graphql/parser/MainIndependentParser.java:47-60 | with no throwing column, the row map's keys are exactly the emitted names, and a column whose name no later column repeats holds its own value |
| Attributes.Emitted | src/main/java/graphql/parser/MainIndependentParser.java:35-45 | at most one mutation per row |
| Attributes.Values | src/main/java/graphql/parser/MainIndependentParser.java:37-38 | one map per successful row, in row order |
| Attributes.EmitFromOk | src/main/java/graphql/parser/MainIndependentParser.java:35-45 | the row loop succeeds exactly when every row's map and every non-empty map's mutation can be built; otherwise it fails as the first failing row does |
| Attributes.EmitFromValue | src/main/java/graphql/parser/MainIndependentParser.java:35-45 | when every row succeeds, the loop appends one mutation per non-empty row map, in row order |
| Attributes.EmittedFirst | src/main/java/graphql/parser/MainIndependentParser.java:37-43 | the mutations of the rows are the first row's followed by the other rows' |
| Attributes.EmitAllOk | src/main/java/graphql/parser/MainIndependentParser.java:35-45 | buildMutations succeeds exactly when every row does, then gives the mutations of the non-empty maps in order, and otherwise fails as the first failing row does |
| Attributes.EmittedAppend | src/main/java/graphql/parser/MainIndependentParser.java:37-43 | the mutations of two runs of rows are the first run's followed by the second's |
| Attributes.EmittedOne | src/main/java/graphql/parser/MainIndependentParser.java:39-42 | one row gives its mutation when its map is not empty, and nothing otherwise |
| Attributes.EmptyRowsEmitNothing | src/main/java/graphql/parser/MainIndependentParser.java:39 | rows whose maps are all empty give no mutation |
| Attributes.FullRowsEmitAll | src/main/java/graphql/parser/MainIndependentParser.java:37-43 | rows whose maps are all non-empty give one mutation each, in row order |
| Attributes.Given | src/main/java/graphql/parser/CompositionParser.java:114-166 | at most one mutation per row |
| Attributes.CollectRowsShape | src/main/java/graphql/parser/CompositionParser.java:111-168 | the composition row loop succeeds exactly when no row throws; it then appends the mutations of the rows not passed over, in row order, and otherwise fails as the first throwing row does |
| Attributes.CollectRowsDropNone | src/main/java/graphql/parser/CompositionParser.java:118-129 | a row passed over with a log line can be left out without changing the loop's result |
| MainParser.RowMaps | src/main/java/graphql/parser/MainParser.java:28-29 | one attribute map per row, each built by buildMainAttributes with the resolver's table |
| MainParser.MainMutationsShape | src/main/java/graphql/parser/MainParser.java:26-36 | buildMainMutations succeeds exactly when every row's map and every non-empty map's mutation can be built, and then gives one mutation per non-empty map in row order |
| MainParser.ResolvedBeforeBuilt | src/main/java/graphql/parser/MainParser.java:15-24 | mutations exist only when every reference header got its own getIds table, they are read with that table, and the table only grows |
| MainParser.MainParser.constructor | src/main/java/graphql/parser/ExternalAttributeResolver.java:22 | a new parser's resolver starts with an empty table |
| MainParser.MainParser.ParseAndGenerateMutations | src/main/java/graphql/parser/MainParser.java:15-24 | resolve first, then build, leaving the table and result ParseOf gives |
| MainParser.MainParser.BuildMainMutations | src/main/java/graphql/parser/MainParser.java:26-36 | the row loop computes exactly buildMainMutations |
| MainIndependentParser.ColumnStep | src/main/java/graphql/parser/MainIndependentParser.java:49-57 | a column is passed over exactly when the row has no cell there or the cell is blank; otherwise it puts the header's attribute name with the cell's formatted value |
| MainIndependentParser.RowSteps | src/main/java/graphql/parser/MainIndependentParser.java:49-58 | one decision per header |
| MainIndependentParser.BuildRowAttributes | src/main/java/graphql/parser/MainIndependentParser.java:47-60 | the column loop computes exactly buildRowAttributes |
| MainIndependentParser.RowAttributesOk | src/main/java/graphql/parser/MainIndependentParser.java:47-60 | a row's map can be built exactly when every non-blank cell formats |
| MainIndependentParser.StepsFail | src/main/java/graphql/parser/MainIndependentParser.java:55-56 | a column throws exactly when its cell is non-blank and fails to format |
| MainIndependentParser.RowStepsMeaning | src/main/java/graphql/parser/MainIndependentParser.java:49-58 | without a failure, the non-blank columns put their formatted values under their attribute names and the others are passed over |
| MainIndependentParser.RowAttributesShape | src/main/java/graphql/parser/MainIndependentParser.java:47-60 | the keys of a row's map are exactly the attribute names of its non-blank columns, and a name no later non-blank column repeats holds its cell's formatted value |
| MainIndependentParser.RowAttributeKeys | src/main/java/graphql/parser/MainIndependentParser.java:47-60 | the keys of a row's map are exactly the attribute names of its non-blank columns |
| MainIndependentParser.RowAttributeValues | src/main/java/graphql/parser/MainIndependentParser.java:56 | a name no later non-blank column repeats holds its own cell's formatted value |
| MainIndependentParser.BuildMutations | src/main/java/graphql/parser/MainIndependentParser.java:35-45 | the row loop computes exactly buildMutations: one mutation per non-empty row map, in row order |
| MainIndependentParser.ParseAndGenerateMutations | src/main/java/graphql/parser/MainIndependentParser.java:22-33 | the sheet's name, headers and rows go to buildMutations; the query builder and the service are not used |
| MainDependentParser.RowSteps | src/main/java/graphql/parser/MainDependentParser.java:49-74 | one decision per header, each the column's own |
| MainDependentParser.EntryMeaning | src/main/java/graphql/parser/MainDependentParser.java:59-73 | a reference cell goes under the header's role name with the id cached for its key, a key without an id throws IllegalStateException with that key, and any other cell goes under its attribute name with its formatted value |
| MainDependentParser.StepsMeaning | src/main/java/graphql/parser/MainDependentParser.java:49-74 | a column throws exactly when its cell is non-blank and cannot be resolved; otherwise it puts an entry exactly when the cell is there and non-blank |
| MainDependentParser.RowAttributesOk | src/main/java/graphql/parser/MainDependentParser.java:47-76 | a row's map can be built exactly when every non-blank cell resolves |
| MainDependentParser.RowAttributesShape | src/main/java/graphql/parser/MainDependentParser.java:47-76 | the keys of a row's map are exactly the names of its non-blank cells' entries, and a name no later non-blank cell repeats holds its cell's value |
| MainDependentParser.RowMaps | src/main/java/graphql/parser/MainDependentParser.java:37-38 | one resolved attribute map per row |
| MainDependentParser.MutationsShape | src/main/java/graphql/parser/MainDependentParser.java:35-45 | buildMutations succeeds exactly when every row's map and every non-empty map's mutation can be built, and then gives one mutation per non-empty map in row order |
| MainDependentParser.ResolvedBeforeBuilt | src/main/java/graphql/parser/MainDependentParser.java:19-33 | mutations exist only after the whole collect and resolve succeeded, they are read with the cache it left, and no cached key is lost |
| MainDependentParser.MainDependentParser.constructor | src/main/java/graphql/parser/ExternalAttributeResolverParser.java:25 | a new parser starts with an empty cache |
| MainDependentParser.MainDependentParser.ParseAndGenerateMutations | src/main/java/graphql/parser/MainDependentParser.java:19-33 | collect with no header skipped, resolve in batches, then build, leaving the cache and result ParseOf gives |
| MainDependentParser.MainDependentParser.BuildMutations | src/main/java/graphql/parser/MainDependentParser.java:35-45 | the row loop computes exactly buildMutations |
| MainDependentParser.MainDependentParser.ResolveRowAttributes | src/main/java/graphql/parser/MainDependentParser.java:47-76 | the column loop computes exactly resolveRowAttributes |
| MainDependentParserOut.RowSteps | _out/MainDependentParser.java:46-64 | one decision per header, each the column's own |
| MainDependentParserOut.StepsMeaning | _out/MainDependentParser.java:46-64 | an external column throws exactly when its key cannot be built or has no id, whatever its value, an empty one included; any other column puts its value under the raw header exactly when the value is not empty |
| MainDependentParserOut.RowAttributesOk | _out/MainDependentParser.java:44-66 | a row's map can be built exactly when every external column's key can be built and has an id |
| MainDependentParserOut.RowAttributesShape | _out/MainDependentParser.java:44-66 | the keys of a row's map are exactly the names of its contributing columns, and a name no later contributing column repeats holds the cached id or the column's value |
| MainDependentParserOut.RowMaps | _out/MainDependentParser.java:34-35 | one resolved attribute map per row |
| MainDependentParserOut.MutationsShape | _out/MainDependentParser.java:32-42 | buildMutations succeeds exactly when every row's map and every non-empty map's create mutation can be built, and then gives one create mutation per non-empty map in row order |
| MainDependentParserOut.MainDependentParser.constructor | _out/MainDependentParser.java:9 | a new parser starts with an empty cache |
| MainDependentParserOut.MainDependentParser.ParseAndGenerateMutations | _out/MainDependentParser.java:11-30 | resolve first, then build with the cache the resolve left |
| MainDependentParserOut.MainDependentParser.BuildMutations | _out/MainDependentParser.java:32-42 | the row loop computes exactly buildMutations |
| MainDependentParserOut.MainDependentParser.ResolveRowAttributes | _out/MainDependentParser.java:44-66 | the column loop computes exactly resolveRowAttributes |
| CompositionParser.FirstReferenceFrom | src/main/java/graphql/parser/CompositionParser.java:34-42 | the parent position is absent exactly when no header from i on is a reference, and otherwise is the first reference header from i on |
| CompositionParser.ColumnTexts | src/main/java/graphql/parser/CompositionParser.java:174-178 | one value per header, each that column's own |
| CompositionParser.RowDataOkValues | src/main/java/graphql/parser/CompositionParser.java:171-181 | a built row data means every column's value was formatted |
| CompositionParser.ValuesRowDataOk | src/main/java/graphql/parser/CompositionParser.java:171-181 | every column's value formatting means the row data is built |
| CompositionParser.RowDataOk | src/main/java/graphql/parser/CompositionParser.java:171-181 | the row data can be built exactly when every column's value can |
| CompositionParser.RowDataKeeps | src/main/java/graphql/parser/CompositionParser.java:174-178 | a header not among the columns walked keeps what it had |
| CompositionParser.RowDataHead | src/main/java/graphql/parser/CompositionParser.java:174-178 | with distinct header objects, the first header walked keeps its own column's value |
| CompositionParser.RowDataValues | src/main/java/graphql/parser/CompositionParser.java:174-178 | with distinct header objects, each header holds its own column's value |
| CompositionParser.RowData | src/main/java/graphql/parser/CompositionParser.java:171-181 | with distinct header objects, buildRowData succeeds exactly when every column's value formats, and then each header holds its own column's formatted value, or "" past the row's end |
| CompositionParser.CompositionSteps | src/main/java/graphql/parser/CompositionParser.java:132-155 | one decision per header, each the column's own |
| CompositionParser.RoleNameOfResolved | src/main/java/graphql/parser/CompositionParser.java:143-150 | a reference whose key can be built has a role name |
| CompositionParser.StepsMeaning | src/main/java/graphql/parser/CompositionParser.java:132-155 | a column throws exactly when it is a non-parent reference with a value whose key cannot be built; it puts an attribute exactly when it is not the parent and, for a reference, its value has a cached id; and it puts the entry EntryOf names |
| CompositionParser.CompositionAttributesOk | src/main/java/graphql/parser/CompositionParser.java:131-155 | the attribute map can be built exactly when no column throws |
| CompositionParser.CompositionAttributesShape | src/main/java/graphql/parser/CompositionParser.java:131-155 | the keys of the map are exactly the names the putting columns give, and a name no later putting column repeats holds its column's id or value |
| CompositionParser.UnresolvedColumnChangesNothing | src/main/java/graphql/parser/CompositionParser.java:139-149 | a reference column with an empty value or no cached id drops only itself: the map without it is the same map or the same failure |
| CompositionParser.RowPassedOver | src/main/java/graphql/parser/CompositionParser.java:117-129 | with distinct header objects, a row is passed over exactly when its parent cell is empty or its parent value has no cached id |
| CompositionParser.RowMutation | src/main/java/graphql/parser/CompositionParser.java:124-165 | a row with a cached parent id gives the update mutation of the parent's class naming the parent by _id with that id and creating the composed object from the row's attribute map under the composition name; it fails exactly when the map or its formatting fails |
| CompositionParser.RowOutputs | src/main/java/graphql/parser/CompositionParser.java:114-115 | one output per row, each that row's own |
| CompositionParser.MutationsShape | src/main/java/graphql/parser/CompositionParser.java:105-169 | buildCompositionMutations succeeds exactly when no row throws, and then gives the mutations of the rows not passed over in row order; otherwise it fails as the first throwing row does |
| CompositionParser.PassedOverRowChangesNothing | src/main/java/graphql/parser/CompositionParser.java:118-129 | a row passed over leaves the other rows' mutations as they are: the sheet without it gives the same mutations or the same failure |
| CompositionParser.ParentValues | src/main/java/graphql/parser/CompositionParser.java:63-78 | extractValuesForHeader succeeds exactly when every non-blank parent cell formats, and then holds exactly the formatted values of those cells, each once |
| CompositionParser.ParseRefuses | src/main/java/graphql/parser/CompositionParser.java:30-40 | a sheet without headers, or without a reference header, is refused before anything is resolved |
| CompositionParser.ResolvedBeforeBuilt | src/main/java/graphql/parser/CompositionParser.java:24-55 | mutations exist only after the parent values and the other references were resolved, they are read with the cache left, no cached key is lost and the parent ids stay cached |
| CompositionParser.CompositionParser.constructor | src/main/java/graphql/parser/ExternalAttributeResolverParser.java:25 | a new parser starts with an empty cache |
| CompositionParser.CompositionParser.ParseAndGenerateMutations | src/main/java/graphql/parser/CompositionParser.java:24-55 | the steps of parseAndGenerateMutations leave the cache and result ParseOf gives |
| CompositionParser.CompositionParser.ExtractValuesForHeader | src/main/java/graphql/parser/CompositionParser.java:63-78 | the row loop computes exactly the parent column's values |
| CompositionParser.CompositionParser.BuildCompositionMutations | src/main/java/graphql/parser/CompositionParser.java:105-169 | the row loop computes exactly buildCompositionMutations |
| CompositionParser.CompositionParser.BuildRow | src/main/java/graphql/parser/CompositionParser.java:115-165 | one row's body computes exactly its output |
| CompositionParser.CompositionParser.BuildCompositionAttributes | src/main/java/graphql/parser/CompositionParser.java:131-155 | the header loop computes exactly the attribute map |
| CompositionParser.CompositionParser.BuildRowData | src/main/java/graphql/parser/CompositionParser.java:171-181 | the header loop computes exactly buildRowData |
| CompositionParserOut.CompositionName | _out/CompositionParser.java:23-24 | the composition name is the sheet name without its first character, and a sheet name shorter than the prefix throws |
| CompositionParserOut.FirstExternalFrom | _out/CompositionParser.java:27-35 | the parent position is absent exactly when no header from i on is external, and otherwise is the first external header from i on |
| CompositionParserOut.ParentValuesShape | _out/CompositionParser.java:63-78 | the gathered parent values repeat nothing and are exactly the starting values and the non-empty values at the parent's position |
| CompositionParserOut.ParentBatchesGrows | _out/CompositionParser.java:80-103 | resolveParentIdsBatched never loses a cached key, even when a batch throws |
| CompositionParserOut.ParentOneBatch | _out/CompositionParser.java:86-99 | at most a thousand parent values make one getIds call, and every entry of its answer is cached under its built key |
| CompositionParserOut.RowDataValues | _out/CompositionParser.java:174-188 | with distinct header texts, each header holds its own column's value, or "" past the row's end, and other texts keep what they had |
| CompositionParserOut.CompositionSteps | _out/CompositionParser.java:133-158 | one decision per header, each the column's own |
| CompositionParserOut.StepsMeaning | _out/CompositionParser.java:133-158 | a column throws exactly when it is a non-parent external column with a value whose header does not parse or whose key cannot be built; it puts an attribute exactly when it is not the parent and, if external, its value has a cached id; and it puts the entry EntryOf names |
| CompositionParserOut.CompositionAttributesOk | _out/CompositionParser.java:132-158 | the attribute map can be built exactly when no column throws |
| CompositionParserOut.CompositionAttributesShape | _out/CompositionParser.java:132-158 | the keys of the map are exactly the names the putting columns give, and a name no later putting column repeats holds its column's id or value |
| CompositionParserOut.UnresolvedColumnChangesNothing | _out/CompositionParser.java:140-151 | an external column with an empty value or no cached id drops only itself |
| CompositionParserOut.StepsDropped | _out/CompositionParser.java:133-158 | the decisions for the headers without column i are the decisions without step i |
| CompositionParserOut.RowPassedOver | _out/CompositionParser.java:118-129 | with distinct headers, a row is passed over exactly when its parent cell is empty or its parent value has no cached id |
| CompositionParserOut.RowMutation | _out/CompositionParser.java:124-168 | a row with a cached parent id gives the update mutation of the parent's class naming the parent by _id with that id and creating the composed object from the row's attribute map under the composition name; it fails exactly when the map or its formatting fails |
| CompositionParserOut.RowOutputs | _out/CompositionParser.java:115-116 | one output per row, each that row's own |
| CompositionParserOut.MutationsShape | _out/CompositionParser.java:105-172 | buildCompositionMutations succeeds exactly when no row throws, and then gives the mutations of the rows not passed over in row order; otherwise it fails as the first throwing row does |
| CompositionParserOut.PassedOverRowChangesNothing | _out/CompositionParser.java:118-129 | a row passed over leaves the other rows' mutations as they are |
| CompositionParserOut.ParseRefuses | _out/CompositionParser.java:21-33 | a sheet without headers, or without an external header, is refused before anything is resolved |
| CompositionParserOut.ResolvedBeforeBuilt | _out/CompositionParser.java:15-55 | mutations exist only after the parent values and the other external columns were resolved, they are read with the cache left, and the parent resolve loses no cached key |
| CompositionParserOut.CompositionParser.constructor | src/main/java/graphql/parser/ExternalAttributeResolverParser.java:25 | a new parser starts with an empty cache |
| CompositionParserOut.CompositionParser.ParseAndGenerateMutations | _out/CompositionParser.java:15-55 | the steps of parseAndGenerateMutations leave the cache and result ParseOf gives |
| CompositionParserOut.CompositionParser.ExtractValuesForHeader | _out/CompositionParser.java:63-78 | the row loop computes exactly the parent column's values |
| CompositionParserOut.CompositionParser.ResolveParentIdsBatched | _out/CompositionParser.java:80-103 | the batch loop computes exactly the cache and failure ParentBatches gives |
| CompositionParserOut.CompositionParser.ResolveParentBatch | _out/CompositionParser.java:87-99 | one batch's body computes exactly ParentBatch |
| CompositionParserOut.CompositionParser.PutResolved | _out/CompositionParser.java:96-99 | the loop over one answer computes exactly PutKeys |
| CompositionParserOut.CompositionParser.BuildCompositionMutations | _out/CompositionParser.java:105-172 | the row loop computes exactly buildCompositionMutations |
| CompositionParserOut.CompositionParser.BuildRow | _out/CompositionParser.java:116-168 | one row's body computes exactly its output |
| CompositionParserOut.CompositionParser.BuildCompositionAttributes | _out/CompositionParser.java:132-158 | the header loop computes exactly the attribute map |
| CompositionParserOut.CompositionParser.BuildRowData | _out/CompositionParser.java:174-188 | the header loop computes exactly buildRowData |
| NestedBuilder.SuffixedAppend | src/main/java/graphql/graphql/NestedCompositionUpdateBuilder.java:181-185 | appending one more part to the StringBuilder loop appends that part and the separator |
| NestedBuilder.SuffixedJoin | src/main/java/graphql/graphql/NestedCompositionUpdateBuilder.java:181-185 | every part followed by the separator is the parts joined by it plus one trailing separator |
| NestedBuilder.FormatJoins | src/main/java/graphql/graphql/NestedCompositionUpdateBuilder.java:177-197 | a map renders as its "key: value" entries joined by ", " inside "{ " and " }", and a list its items inside "[ " and " ]"; an empty map renders as "{  }" and an empty list as "[  ]" |
| NestedBuilder.FormatScalars | src/main/java/graphql/graphql/NestedCompositionUpdateBuilder.java:198-202 | a string renders quoted with nothing escaped, null renders as "null" |
| NestedBuilder.LinesSplit | src/main/java/graphql/graphql/NestedCompositionUpdateBuilder.java:205-211 | when no mutation holds a line break, splitting joinMutations' text at line breaks gives the mutations back followed by the empty text after the last break |
| NestedBuilder.CompositionsForMembers | src/main/java/graphql/graphql/NestedCompositionUpdateBuilder.java:101-109 | findCompositionsForParent returns exactly the compositions whose recorded parent is the given class |
| NestedBuilder.CompositionsForStep | src/main/java/graphql/graphql/NestedCompositionUpdateBuilder.java:103-107 | the search over the entries from k is entry k's name, when its parent matches, followed by the search from k + 1 |
| NestedBuilder.SheetNames | src/main/java/graphql/graphql/NestedCompositionUpdateBuilder.java:21-23 | one name per sheet, each that sheet's own |
| NestedBuilder.RegisterShape | src/main/java/graphql/graphql/NestedCompositionUpdateBuilder.java:20-29 | the constructor succeeds exactly when every '#' sheet has a first header that parses; then, with distinct sheet names, every '#' sheet is stored under its name with its first header's class as parent, and no other name is touched |
| NestedBuilder.RegisterStep | src/main/java/graphql/graphql/NestedCompositionUpdateBuilder.java:21-27 | one '#' sheet is stored with its parent class before the loop goes on |
| NestedBuilder.RegisterOk | src/main/java/graphql/graphql/NestedCompositionUpdateBuilder.java:20-29 | the constructor succeeds exactly when every '#' sheet has a first header that parses |
| NestedBuilder.RegisterKeeps | src/main/java/graphql/graphql/NestedCompositionUpdateBuilder.java:21-28 | a name that is not a '#' sheet's keeps its entries |
| NestedBuilder.RegisterValues | src/main/java/graphql/graphql/NestedCompositionUpdateBuilder.java:21-28 | with distinct sheet names, every '#' sheet is stored under its name with its first header's class as parent |
| NestedBuilder.RowObjects | src/main/java/graphql/graphql/NestedCompositionUpdateBuilder.java:119-144 | one row data per row of the sheet |
| NestedBuilder.ChildRanked | src/main/java/graphql/graphql/NestedCompositionUpdateBuilder.java:133-138 | a child composition is registered and ranks below its parent, so the recursion ends |
| NestedBuilder.UpdateReadsBack | src/main/java/graphql/graphql/NestedCompositionUpdateBuilder.java:158-175 | an update mutation reads back as the parent class's update operation whose data starts with the identifying attribute and its quoted value and ends with the role's create rendered from attrs.get("create") |
| NestedBuilder.RootsRegistered | src/main/java/graphql/graphql/NestedCompositionUpdateBuilder.java:54-57 | every root composition found for a main sheet is registered |
| NestedBuilder.MainNamesFrom | src/main/java/graphql/graphql/NestedCompositionUpdateBuilder.java:44-50 | the main names are exactly the sheet names that are neither '#' sheets nor the mapping sheet, each once |
| NestedBuilder.MainNames | src/main/java/graphql/graphql/NestedCompositionUpdateBuilder.java:44-50 | the loop computes exactly the main names |
| NestedBuilder.MatchCountStep | src/main/java/graphql/graphql/NestedCompositionUpdateBuilder.java:119-123 | the count of matching rows splits into the first row and the rest |
| NestedBuilder.MatchCountsFrom | src/main/java/graphql/graphql/NestedCompositionUpdateBuilder.java:119-123 | the count of matching rows from k splits into row k and the rest, for every end |
| NestedBuilder.KeptOk | src/main/java/graphql/graphql/NestedCompositionUpdateBuilder.java:119-144 | the row filter succeeds exactly when every row has a first cell and every row whose first cell is the parent value has its row data built |
| NestedBuilder.KeptObjects | src/main/java/graphql/graphql/NestedCompositionUpdateBuilder.java:119-144 | the row filter keeps one object per row whose first cell is the parent value, in row order, each that row's data, and nothing else |
| NestedBuilder.KeptPrefix | src/main/java/graphql/graphql/NestedCompositionUpdateBuilder.java:119-144 | the kept objects are the starting ones followed by one per matching row |
| NestedBuilder.KeptAt | src/main/java/graphql/graphql/NestedCompositionUpdateBuilder.java:119-144 | each matching row's object sits at the position its count of earlier matching rows gives |
| NestedBuilder.NestedShape | src/main/java/graphql/graphql/NestedCompositionUpdateBuilder.java:111-148 | buildNestedComposition of an unregistered sheet throws; otherwise it is {create: [rows]} with one object per row whose first cell is the parent value, in row order, each that row's data |
| NestedBuilder.ChildrenKeys | src/main/java/graphql/graphql/NestedCompositionUpdateBuilder.java:133-140 | the child loop adds only the names, without '#', of child compositions |
| NestedBuilder.KeysThroughPut | src/main/java/graphql/graphql/NestedCompositionUpdateBuilder.java:138 | a child's put adds only that child's name |
| NestedBuilder.ColumnsKeys | src/main/java/graphql/graphql/NestedCompositionUpdateBuilder.java:128-142 | every key of a row's data is one of its headers or a child composition's name |
| NestedBuilder.RootRowsShape | src/main/java/graphql/graphql/NestedCompositionUpdateBuilder.java:65-93 | the root row loop succeeds exactly when every row has a first cell and its row data; it then gives one update per row, in row order, for the parent the row's first cell names |
| NestedBuilder.RowHasNoCreate | src/main/java/graphql/graphql/NestedCompositionUpdateBuilder.java:67-83 | a root row's data holds no "create" entry unless a header or a child is named so |
| NestedBuilder.RootRendersNull | src/main/java/graphql/graphql/NestedCompositionUpdateBuilder.java:85-91 | unless a header or a child is named "create", every root update says "create: null", whatever the row and its children hold |
| NestedBuilder.AllNull | src/main/java/graphql/graphql/NestedCompositionUpdateBuilder.java:85-92 | rows whose objects all lack a "create" entry give null updates only |
| NestedBuilder.NullUpdate | src/main/java/graphql/graphql/NestedCompositionUpdateBuilder.java:172 | an update of data without a "create" entry renders the create as null |
| NestedBuilder.RootKeyStep | src/main/java/graphql/graphql/NestedCompositionUpdateBuilder.java:55-57 | a root name comes from the roots from j exactly when it is root j's or comes from the rest |
| NestedBuilder.RootKeyAll | src/main/java/graphql/graphql/NestedCompositionUpdateBuilder.java:55-57 | a root name comes from the roots from the first exactly when some registered root has it |
| NestedBuilder.MainKeyStep | src/main/java/graphql/graphql/NestedCompositionUpdateBuilder.java:53-55 | a key comes from the main sheets from m exactly when it comes from main m's roots or from the rest |
| NestedBuilder.RootsKeys | src/main/java/graphql/graphql/NestedCompositionUpdateBuilder.java:55-96 | the root loop adds exactly one key per registered root: its name without '#' |
| NestedBuilder.MainsKeys | src/main/java/graphql/graphql/NestedCompositionUpdateBuilder.java:53-97 | the main loop adds exactly one key per registered composition whose parent is a main sheet |
| NestedBuilder.ResultKeys | src/main/java/graphql/graphql/NestedCompositionUpdateBuilder.java:40-99 | the result's keys are exactly the names, without '#', of the registered compositions whose parent is a main sheet |
| NestedBuilder.RootsValue | src/main/java/graphql/graphql/NestedCompositionUpdateBuilder.java:55-96 | every value the root loop stores is the joined updates of a registered root with that name |
| NestedBuilder.MainsValue | src/main/java/graphql/graphql/NestedCompositionUpdateBuilder.java:53-97 | every value the main loop stores is the joined updates of a registered root of some main sheet with that name |
| NestedBuilder.ResultValues | src/main/java/graphql/graphql/NestedCompositionUpdateBuilder.java:40-99 | every value of the result is the joined updates of a registered root composition with that key as its name |
| NestedBuilder.ResultValueOf | src/main/java/graphql/graphql/NestedCompositionUpdateBuilder.java:40-99 | a registered root composition whose name no other root shares has its own joined updates stored under its name without '#' |
| NestedBuilder.NestedCompositionUpdateBuilder.Of | src/main/java/graphql/graphql/NestedCompositionUpdateBuilder.java:17-18 | the builder holds exactly the given sheets and parents |
| NestedBuilder.NestedCompositionUpdateBuilder.Create | src/main/java/graphql/graphql/NestedCompositionUpdateBuilder.java:20-29 | the constructor loop succeeds exactly as RegisterFrom does and leaves the registry it computes |
| NestedBuilder.NestedCompositionUpdateBuilder.FindCompositionsForParent | src/main/java/graphql/graphql/NestedCompositionUpdateBuilder.java:101-109 | the loop computes exactly findCompositionsForParent |
| NestedBuilder.NestedCompositionUpdateBuilder.FormatGraphQLMap | src/main/java/graphql/graphql/NestedCompositionUpdateBuilder.java:177-203 | the method computes exactly formatGraphQLMap's text |
| NestedBuilder.NestedCompositionUpdateBuilder.AppendEntries | src/main/java/graphql/graphql/NestedCompositionUpdateBuilder.java:180-185 | the entry loop leaves "{ " and every entry followed by ", " |
| NestedBuilder.NestedCompositionUpdateBuilder.AppendItems | src/main/java/graphql/graphql/NestedCompositionUpdateBuilder.java:191-194 | the item loop leaves "[ " and every item followed by ", " |
| NestedBuilder.NestedCompositionUpdateBuilder.JoinMutations | src/main/java/graphql/graphql/NestedCompositionUpdateBuilder.java:205-211 | the loop computes exactly the mutations each followed by a line break |
| NestedBuilder.NestedCompositionUpdateBuilder.BuildUpdateMutationString | src/main/java/graphql/graphql/NestedCompositionUpdateBuilder.java:158-175 | the builder computes the update mutation text UpdateReadsBack describes |
| NestedBuilder.NestedCompositionUpdateBuilder.BuildNestedComposition | src/main/java/graphql/graphql/NestedCompositionUpdateBuilder.java:111-148 | the row loop computes exactly the nested create NestedShape describes |
| NestedBuilder.NestedCompositionUpdateBuilder.BuildRowData | src/main/java/graphql/graphql/NestedCompositionUpdateBuilder.java:128-142 | the column loop computes exactly a row's data |
| NestedBuilder.NestedCompositionUpdateBuilder.AddChildren | src/main/java/graphql/graphql/NestedCompositionUpdateBuilder.java:133-140 | the child loop computes exactly the nested creates of one column |
| NestedBuilder.NestedCompositionUpdateBuilder.BuildRootMutations | src/main/java/graphql/graphql/NestedCompositionUpdateBuilder.java:65-93 | the row loop of a root composition computes exactly the updates RootRowsShape describes |
| NestedBuilder.NestedCompositionUpdateBuilder.BuildNestedCompositionsUpdateMutations | src/main/java/graphql/graphql/NestedCompositionUpdateBuilder.java:40-99 | the method computes exactly the result ResultKeys and ResultValues describe |
| NestedBuilder.NestedCompositionUpdateBuilder.BuildRoots | src/main/java/graphql/graphql/NestedCompositionUpdateBuilder.java:55-96 | the root loop of one main sheet computes exactly RootsFrom |
| Importer.Contributions | src/main/java/graphql/Application.java:66-77 | one contribution per sheet, each the sheet's own: nothing for a composition sheet in a delete run, otherwise its mutations |
| Importer.SendAllShape | src/main/java/graphql/Application.java:80-82 | mutations are sent in order: a loop without exception sent them all; otherwise it sent those before the first throwing one, and that one |
| Importer.RunSendsPlanned | src/main/java/graphql/Application.java:66-83 | a run ends without exception exactly when every sheet's mutations could be built and none threw when sent; it has then sent exactly the planned mutations, sheet by sheet in list order |
| Importer.DeleteTargets | src/main/java/graphql/Application.java:67-69 | at most one target per sheet |
| Importer.DeleteMutations | src/main/java/graphql/Application.java:51-54 | one bulk delete per name, in order, each deleteBulk of that name |
| Importer.DeletePlan | src/main/java/graphql/Application.java:66-77 | a delete run plans one bulk delete per main sheet, whatever its rows, in list order, and nothing for a composition sheet |
| Importer.DeleteRunSends | src/main/java/graphql/Application.java:56-84 | a delete run whose sends do not throw sends exactly one bulk delete per main sheet of the list it read, in that list's order |
| Importer.Application.constructor | src/main/java/graphql/Application.java:26-33 | a new application has sent nothing |
| Importer.Application.Execute | src/main/java/graphql/Application.java:81 | the mutation is added to what was sent, and the call throws exactly when the service does |
| Importer.Application.ParseWithParserForSheet | src/main/java/graphql/Application.java:86-92 | a '#' sheet goes to a new composition parser and any other sheet to a new dependent main parser |
| Importer.Application.RunSheets | src/main/java/graphql/Application.java:66-83 | the sheet loop leaves what was sent and the failure exactly as RunFrom gives them |
| Importer.Application.ProcessExcelAndGenerateGraphQL | src/main/java/graphql/Application.java:56-84 | the workbook is read in the run's order, the mapping applied, then the sheet loop runs |
| Importer.Application.Delete | src/main/java/graphql/Application.java:35-49 | the workbook is read in delete order and every sheet, compositions too, is parsed and its mutations sent |

## Left out

- Strings.ToLowerChar, `Strings.ToLower`, `Strings.Decapitalize` and `DataModel.EqualsIgnoreCase`
  fold case for ASCII letters only. Java's `toLowerCase` and `equalsIgnoreCase` follow Unicode,
  so the model differs on non-ASCII letters:
  - header "Évento.nome" has role "évento_" in Java and "Évento_" in the model;
  - sheet "_MAPPİNG" is the mapping sheet in Java but not in the model;
  - attribute "_ıd" takes the BigDecimal branch of buildAttrKey in Java but not in the model.

  The reason is that Unicode case tables are not part of this model.
- Decimals.Parse accepts an optional sign, ASCII digits and at most one point. It rejects
  exponent forms such as "1e5", which `new BigDecimal` accepts as 100000, and non-ASCII digits.
  Both end in `Err(NumberFormat)`. Only plain decimal text is modelled.
- DataCells.IsInteger keeps the source's `setScale(0)` without a rounding mode. A fractional
  NUMERIC cell therefore throws (`IsIntegerNeverFalse`) and is not rendered as a decimal.
- Double.valueOf, which `isNumeric` calls, is the parameter `doubleParses`. Java's
  floating-point grammar is not part of this model.

- NestedBuilder.CompositionsFor, `NestedBuilder.MainNamesFrom` and `NestedBuilder.BuildAll`
  iterate the parent map and the main names in insertion order. The source iterates a `HashMap`
  and a `HashSet`, whose order follows `String.hashCode` buckets. Insertion order therefore
  stands for three things the source leaves to hashing:
  - the key order of the result map;
  - the order of child entries within a row's data;
  - which failure surfaces first when several roots fail.

  The lemmas about these members (`ResultKeys`, `ResultValues`, `CompositionsForMembers`) state
  sets and lookups, which hold in any order.

- The service is fixed for the whole run. `Importer.Environment` holds five things that do not
  change while the run goes on:
  - `exec`, the query executor;
  - `resolveMain` and `resolveSecondary`, the collect-and-resolve steps;
  - `doubleParses`;
  - `fails`, whether a mutation throws when sent.

  This is why a sheet's contribution does not depend on the sheets before it (`Contribution`,
  `Contributions`). For the same reason `Importer.RunSendsPlanned` states the run as the plan
  sent in order. In the program, a composition sheet's getIds may read objects that the main
  sheets created earlier in the same run. The model does not capture that effect of sending on
  later lookups.
- The `_out` parsers inherit `collectExternalAttributes(headers, rows, null)` and the batched
  resolution from a string-header `ExternalAttributeResolverParser`. That class is not part of
  this model, and the shown `src` class has a different signature. Two parameters stand for its
  steps: `MainDependentParserOut.Resolve` and `CompositionParserOut.SecondaryResolve`. The cache
  keys that `CompositionParserOut` builds for the parent column reuse the `src`
  `ResolverParser.BuildAttrKey`. The parent-id batching at _out/CompositionParser.java:86-89
  also uses two inherited members of that class, `BATCH_SIZE` and `getIds(...)`. The model
  reads them as the `src` `ResolverParser.ResolveBatchSize` (1000) and `ResolverParser.GetIdsOf`.
  So `CompositionParserOut.ParentBatch`, `CompositionParserOut.ParentBatches`,
  `CompositionParserOut.ParentOneBatch` and
  `CompositionParserOut.CompositionParser.ResolveParentIdsBatched` state the batch size and
  the duplicate check only under that reading.
- The core calls methods and reads constants that no shown class declares. The model reads each
  one in a single fixed way:
  - `sheetData.externalHeaders()` (ExternalAttributeResolver.java) as the reference headers in
    header order (`Resolver.ExternalHeaders`);
  - `getReferencedClassName()` and `getReferencedAttributeName()` (ExternalAttributeResolver.java)
    as Header's `getReferenceClassName()` and `getReferenceAttributeName()`;
  - `getHeader().getValue()` (ExternalAttributeResolver.java) is used only in a log message and
    is read as nothing;
  - `DataRow.get(int)`: DataRow.java declares only `get(Header)`. Its uses are
    MainIndependentParser.java:54, MainDependentParser.java:54,
    ExternalAttributeResolverParser.java:45, CompositionParser.java:71 and :176, and
    ExcelDataReader.java:112. It is read as the i-th element of `getDataCells()` (the `cells`
    of `DataModel.DataRow`), and a short row fails with `IndexOutOfBounds`;
  - `DataSheet.setName` (ExcelDataReader.java:115), which DataSheet.java does not declare, is
    read as an in-place rename: `ExcelReader.RenameSheets` replaces the sheet in the file's list
    with its `Renamed` copy;
  - `Constants.DEPENDENT_SEPARATOR`, `COMPOSITION_PREFIX`, `MAPPING_SHEET_NAME`,
    `GRAPHQL_UPDATE_SUFFIX` and `REAL_PREFIX`: Constants.java declares only `ID` ("_id"). The
    module `Constants` assumes '.', '#', "_mapping", "___update", and a non-empty prefix whose
    text is left unknown;
  - `common.Utils.isBlank` (DataCell.java:41 and :71) as "empty after `String.trim()`", that
    is, every character is at most U+0020 (`Strings.IsBlank`). This reading decides which cells
    every parser passes over;
  - `Utils.join` (GraphQLQueryBuilder.java:36, ExternalAttributeResolverParser.java:111,
    ExternalAttributeResolver.java:101, JsonUtils.java:80) as `Strings.Join`: the parts with
    the separator between them, in order. In the duplicate messages the model keeps the list
    of repeated keys itself (`DuplicateValues(keys)`) rather than its joined text.
- buildMainCreateMutation, which `MainIndependentParser` and `MainParser` call but the shown
  `GraphQLMutationBuilder` does not declare, is the parameter `build` of type
  `Attributes.Builder`.
- GraphQLService.executeQueryWithFallback is not part of this model:
  - for queries it is the `Executor` parameter (`ResolverParser.Response`);
  - for mutations it is `fails`.

  HTTP, the fallback endpoint, credentials and SSL bypass are left out.

- LoggerUI.log calls are no-ops. They change nothing the model observes. The commented-out
  nested-builder test in `processExcelAndGenerateGraphQL` is not part of the run, matching the
  source.
- Null cells and rows, and the `NullPointerException` paths they open, are modelled only where
  the code reads a missing map entry. Those paths are `Err(NullValue)`. Inputs cannot be null
  otherwise: a missing cell is `None`.
- ExcelReaderOut's `ExcelSheetData` is a value. `setSheetName`, which renames a sheet in place,
  becomes a new sequence of sheets (`ExcelReaderOut.MappingApplied`). Aliasing of the renamed
  objects is not captured.
- The `_out` `readExcelFile` stops the program once the system clock passes 2025-08-31
  (`Utils.stop`). The clock is not part of this model.

- Apache POI and file I/O are not part of this model. Cell texts and kinds arrive already read:
  - `RawCell`/`CellInfo` for the `src` reader;
  - `WorkbookSheet` for `_out`.

  `getCellValue`'s formatting of numbers, dates (`dd/MM/yyyy`) and formulas is likewise not
  modelled.
- ExcelReader.ReadExcelFile states only the following:
  - the workbook is freshly allocated;
  - when no sheet is the mapping sheet, every sheet keeps its name and position.

  The renaming itself is stated by `FixMappingSheet` and `MappingTable`. The sheets' contents
  are stated by `ParseSheet`, and not repeated in ReadExcelFile's contract.

- NestedBuilder.Nested, `NestedBuilder.RowObjects`, `NestedBuilder.ColumnsFrom`,
  `NestedBuilder.ChildrenFrom`, `NestedBuilder.RootOf`, `NestedBuilder.RootsFrom`,
  `NestedBuilder.MainsFrom`, `NestedBuilder.BuildAll`, the lemmas about them and the methods
  `NestedCompositionUpdateBuilder.BuildNestedComposition`, `BuildRowData`, `AddChildren`,
  `BuildRootMutations`, `BuildRoots` and `BuildNestedCompositionsUpdateMutations`
  require `Ranked`: the parent map of the composition sheets must have no cycle at all. This
  excludes more than the source's failing inputs. The source recurses until
  `StackOverflowError` only on a cycle that it both reaches and matches:
  - the cycle is reached from a root composition of a main sheet;
  - a column header equals the child sheet's first (parent) header (NestedCompositionUpdateBuilder.java:77, :136);
  - a row's first cell equals the parent value.

  A cyclic map on which the source terminates is also excluded: for example, "#a" with first
  header "*b.x" and "#b" with first header "*a.y", with no main sheet "a" or "b", where the
  source returns an empty map. The model says nothing about such inputs.
