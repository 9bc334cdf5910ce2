# gorest persistence core, modelled in Dafny

gorest maps Go "resources" onto PostgreSQL and openGauss tables. A resource
is a struct with `db` tags. This project models the part of the library that
decides what is sent to the database: the statement text, the placeholder
numbers and the argument lists. It also models the small parsers and
validators around them.

The model covers these parts of the library:

- **Resource descriptors** (`Meta`, `Tags`, `GoTypes`). `genDescriptor` and
  `parseField` turn a struct shape into columns, owners, refers and keys.
  `tagContains` reads the comma-separated options of a `db` tag.
  `ResourceMeta` registers resource types in dependency order and answers
  lookups. It is a class whose fields are the registry's maps and list.
- **Resources** (`Resources`). `ResourceDBType` gives the snake-case type
  name. `ResourceToMap` gives the column map of a struct pointer.
- **Condition algebra** (`FillValues`, `Conds`, `Dml`). `FillValue.buildSql`
  renders one operator and value. `getSqlWhereState` turns a condition map
  into a WHERE clause. It expands `search` and `match_list` and deletes those
  keys from the caller's map in place, so the map is a class (`CondMap`)
  holding a sequence of entries. Go map order is arbitrary, so every lemma
  holds for all entry orders.
- **Statement builders** (`Builders`, `BaseTx`, `LegacySql`). These are
  select, count, delete, exists, update, insert and join-select, on the
  schema-aware tables of `base_tx.go` and the fixed `lx.gr_` tables of
  `sql.go`. The central invariant is placeholder sequencing: the
  placeholders of a statement are `$1 … $n` for its `n` arguments, in
  order, and each argument is bound to the placeholder of its own term.
- **Table creation** (`Ddl`, `LegacySql`, `PgStore`, `Gauss`). One builder,
  `createTableSql`, is parameterised by the naming of each store and by
  whether array indexes use `gin`.
- **Stores** (`Store`, `PgStore`, `Gauss`, `RStore`). `WithTx` commits or
  rolls back. `GetResourceWithID` is modelled. So are the drop order of
  `Clean`, the openGauss connection-string filter and its parameter
  filtering, the recovery-mode predicate, and the columns of `CopyFrom`.
  `BatchInsert` cuts the rows into chunks that fit the placeholder budget
  and sends one multi-row insert per chunk.
- **Array codecs** (`GaussArray`). `PQArray` dispatches on the element
  type. Five array classes each have a `Value` that encodes `{a,b,c}` and a
  `Scan` that checks already-parsed elements.
- **Request side** (`QueryContext`, `IntRange`, `NameCheck`, `ApiError`).
  This covers the filter and pagination parser of `context.go` with its
  request `Context` class, the int-range validator and its tag parser, the
  resource-name validator, and `APIError` with its localisation.

Shared foundations are `Wrappers` (`Option`, `Result`), `Strs` (the
`strings` and `strconv` functions the core uses, and `ToSnake`), `Values`
(Go `interface{}` values as a datatype) and `SqlText`. In `SqlText` a
statement is a sequence of literal pieces and placeholder markers, and
`Render` gives the Go string.

Where the code mutates state, the model is imperative:
`ResourceMeta.Register`, `CondMap.Delete`, the builders that consume
special keys, `Resource.SetID`, `APIError.Localization`, `Context.Set`, the
array `Scan` methods and the store `SetSchema` methods. Each such method is
proved against a specification function. The loops of the source are
methods with loop invariants: genDescriptor's field scan, the WHERE-term
loop, the marker and argument loops of insert, `parseGaussConnDsn`,
`BatchInsert`, `filtersValuesToInt`, `genFiltersAndPagination`,
`FromTags` and `ValidateString`.

The source files come from different revisions. Each file is modelled as
written:

- `createTableSql` reads a per-field `Index` flag and a descriptor-level
  `Idxes` list that the `ResourceField`/`ResourceDescriptor`
  declarations of `db/resource_meta.go` lack. The model adds both fields.
- `sql.go` and `base_tx.go` both define `getSqlWhereState`, identically, so
  it is modelled once in `Dml`.
- genDescriptor logs a field that does not parse and gives it no column,
  but still records its `pk` or `uk` option, at the top level as well as
  inside an embedded struct (`Meta.UnparsableFieldKeyed`).
- `IsRelationship` can never be true: genDescriptor sets it only for a
  descriptor with exactly one column, and every descriptor holds the id and
  create_time columns (`Meta.RelationshipNeverDetected`).

## Model

| member | source | states |
|---|---|---|
| Strs.ToSnake | db/resource.go:24 | the snake name has no upper-case letter |
| Strs.SnakeOfSnake | db/resource.go:46 | a name already in snake case is left as it is |
| Strs.SnakeIdempotent | db/base_tx.go:336 | ToSnake is idempotent, so a condition key may be given in either form |
| Strs.JoinSplit | db/base_tx.go:302 | splitting on a separator and joining back restores the string |
| Strs.SplitJoin | db/base_tx.go:346 | joining parts without the separator and splitting again gives the parts |
| Strs.ParseItoa | db/fill_value.go:39 | the placeholder number Itoa prints reads back as the same number, for every 64-bit value |
| FillValues.BuildSql | db/fill_value.go:36-83 | fails exactly for a non-string anchored match or an `any`/`&&` value that is neither a Go slice nor a net.IP (a `[]byte`); the argument is the value, anchored with `^` or `$` for the two anchored matches |
| FillValues.BuildSqlMarker | db/fill_value.go:36-83 | every fragment buildSql returns holds exactly one placeholder, the one it was given |
| FillValues.VerbatimText | db/fill_value.go:38-79 | a comparison or subnet operator is printed as itself between spaces, and the value is the argument |
| FillValues.MatchText | db/fill_value.go:48-61 | the three pattern operators render as the regular-expression match `~` |
| FillValues.SliceOperatorText | db/fill_value.go:62-71 | `any` renders as `= ANY($n)` and `&&` as itself, both only for a slice value |
| FillValues.NetIPIsSliceOperand | db/fill_value.go:62-71 | a net.IP is a slice to `any` and `&&`: both accept it as their argument, and `any` renders as `= ANY($n)` |
| FillValues.DefaultText | db/fill_value.go:80-81 | every other operator, the empty one and `=` included, is plain equality |
| Conds.Lookup | db/base_tx.go:299-308 | a two-value map lookup finds a key exactly when it is present |
| Conds.Without | db/base_tx.go:304-312 | `delete` keeps exactly the entries with another key, in their old order |
| Conds.LookupWithout | db/base_tx.go:304-312 | deleting one key changes no other key's lookup and removes that key |
| Conds.WithoutAbsent | db/base_tx.go:304-312 | deleting a key that is not there changes nothing |
| Conds.WithoutDistinct | db/base_tx.go:304-312 | deleting keeps keys distinct |
| Conds.WithoutDropsKey | db/base_tx.go:304-312 | no entry for the deleted key remains |
| Conds.CondMap.Get | db/base_tx.go:299-308 | the lookup of the held map |
| Conds.CondMap.Delete | db/base_tx.go:304-312 | delete removes the key and keeps the map well formed |
| Tags.TagContains | db/resource_meta.go:372-389 | the scan finds the option exactly when TagHas says so |
| Tags.TagHasIffPart | db/resource_meta.go:372-389 | a non-empty option is contained exactly when it is one of the comma-separated parts, so `suk` does not hold `uk` |
| Tags.SameHead | db/resource_meta.go:377-387 | when two part lists share their first part, an option is in one exactly when it is in the other |
| Tags.EmptyTagHasNothing | db/resource_meta.go:373-375 | the empty tag holds no option |
| Resources.ResourceDBType | db/resource.go:19-25 | the type name is the struct name in snake case and has no upper-case letter |
| Resources.ResourceToMap | db/resource.go:27-53 | a non-pointer is an error; otherwise the map of the mapped columns to their values |
| Resources.ColumnMapKeys | db/resource.go:35-51 | a key is present exactly when some field other than ResourceBase, `-`, id and create_time has it as snake name |
| Resources.ColumnMapLastWins | db/resource.go:50 | the value under a key is that of the last mapped field with that snake name |
| Resources.Resource.SetID | db/base_tx.go:73 | the id becomes the one given |
| Meta.PostgresqlType | db/resource_meta.go:34-51 | every datatype maps to a column type name, and the name ends in `[]` exactly for the array datatypes |
| Meta.ParseField | db/resource_meta.go:151-205 | a supported field keeps its name |
| Meta.ArrayMirrorsElement | db/resource_meta.go:175-201 | a slice or array of a numeric or string element has the array version of the element's datatype |
| Meta.ArrayTypeFromSequence | db/resource_meta.go:175-201 | the seven array datatypes come exactly from slice and array fields other than net.IP |
| Meta.UnsupportedKinds | db/resource_meta.go:202-204 | float64 and map, pointer, interface, function and channel fields are unsupported |
| Meta.ParseResourceField | db/resource_meta.go:328-349 | parseField's outcome, with Unique from `suk`, Check from `positive` and NotNull from `not null` |
| Meta.ClassifyField | db/resource_meta.go:293-314 | the loop body classifies a field as owner, refer or column and as pk or uk, as Classify says |
| Meta.ScanEmbedded | db/resource_meta.go:250-288 | the inner loop over an embedded struct's fields computes EmbedScan |
| Meta.GenDescriptor | db/resource_meta.go:207-326 | genDescriptor computes GenDescriptorSpec |
| Meta.ClassifyWf | db/resource_meta.go:298-307 | classifying a field keeps the column names distinct and the field set in step |
| Meta.EmbedScanWf | db/resource_meta.go:250-288 | scanning an embedded struct keeps the descriptor well formed |
| Meta.ScanFieldWf | db/resource_meta.go:223-315 | one top-level field keeps the descriptor well formed |
| Meta.ScanWf | db/resource_meta.go:223-315 | the whole field scan keeps the descriptor well formed |
| Meta.GenDescriptorShape | db/resource_meta.go:207-326 | every descriptor starts with the id and create_time columns, has id as first primary key, is named after its struct, and has distinct column names |
| Meta.RelationshipNeverDetected | db/resource_meta.go:208-324 | IsRelationship needs exactly one column, but every descriptor has the two base columns, so it is never set |
| Meta.EmbeddedReservedRejected | db/resource_meta.go:249-255 | inside an embedded struct, a field named id or create_time makes the scan fail, unless a nested embed before it ends the scan |
| Meta.EmbeddedReservedNameRejected | db/resource_meta.go:239-255 | an `embed` field whose struct holds an id or create_time field makes genDescriptor fail too |
| Meta.ReservedNameRejected | db/resource_meta.go:229-232 | a top-level field whose snake name is id or create_time makes genDescriptor fail, whatever its tag |
| Meta.SkippedFieldIgnored | db/resource_meta.go:225-237 | skipped fields make no difference wherever they stand |
| Meta.UnparsableFieldKeyed | db/resource_meta.go:271-313 | a field whose type does not parse adds no column, but its `pk` or `uk` option is still recorded and the scan goes on, at the top level and inside an embedded struct |
| Meta.GenDescriptorIgnoresSkipped | db/resource_meta.go:207-326 | adding a skipped field to a struct leaves its descriptor unchanged |
| Meta.GetRelationship | db/resource_meta.go:391-397 | a relationship exactly when the descriptor is one, with its type, first owner and first refer |
| Meta.ResourceMeta.constructor | db/resource_meta.go:94-98 | an empty registry |
| Meta.ResourceMeta.Has | db/resource_meta.go:115-117 | in a valid registry, a type has a descriptor exactly when it is registered |
| Meta.ResourceMeta.GetGoType | db/resource_meta.go:119-125 | the Go type of a known type, an error for an unknown one |
| Meta.ResourceMeta.GetDescriptor | db/resource_meta.go:351-357 | the descriptor exactly for a registered type |
| Meta.ResourceMeta.Resources | db/resource_meta.go:367-369 | the registered types, exactly those present |
| Meta.ResourceMeta.GetDescriptors | db/resource_meta.go:359-365 | one entry per registered type, in order; a type that Clear removed yields nil |
| Meta.ResourceMeta.Register | db/resource_meta.go:127-149 | registration succeeds exactly for a new type whose descriptor builds and whose owners and refers are known, and then appends the type and records its descriptor and Go type |
| Meta.ResourceMeta.Clear | db/resource_meta.go:108-113 | forgets the descriptor and Go type of every listed type; the list itself stays |
| Meta.RegisterKeepsOrder | db/resource_meta.go:138-146 | appending a type whose dependencies are registered keeps the dependency order |
| Meta.NewResourceMeta | db/resource_meta.go:93-106 | a registry exactly when every struct registers in turn, holding what RegisterAll gives; otherwise nil and RegisterAll's error |
| Meta.RegisterError | db/resource_meta.go:127-143 | Register fails exactly for a struct that is not Admissible: a duplicate type, then genDescriptor's error, then an unknown dependency |
| Meta.MissingDep | db/resource_meta.go:138-143 | no error exactly when every owner and refer is registered; otherwise the error names the first one that is not |
| Meta.FindMissing | db/resource_meta.go:138-143 | Register's dependency loop returns MissingDep |
| Meta.RegisterStep | db/resource_meta.go:127-149 | one Register call on a registry value succeeds exactly for an Admissible struct |
| Meta.RegisterAllOk | db/resource_meta.go:93-106 | on success the registry lists the structs' types in order, files each descriptor and Go type under its type, and holds nothing else |
| Meta.RegisterAllFails | db/resource_meta.go:100-104 | on failure some struct is refused after all those before it registered, and the error is Register's error for it |
| Meta.RegisterAllErrStays | db/resource_meta.go:100-104 | the first failure ends the loop: later structs are not registered |
| Strs.LastIndexOf | resource/context.go:118 | the last position of the character, or -1 exactly when it does not occur |
| Strs.Split | db/base_tx.go:302 | never empty, and no part holds the separator |
| Strs.TrimRight | db/pg_store.go:202 | a prefix of the text that does not end in the cut character, everything dropped being that character |
| Strs.ToLower | db/base_tx.go:271 | the same length, every letter lowered |
| Strs.ParseInt10 | resource/schema/resourcefield/validator/intrange.go:74 | a parsed value is a 64-bit integer |
| Ddl.ClausePair | db/sql.go:79-118 | each clause the builder writes ends in a comma, so two pieces join into nothing or into one comma-ended clause |
| Ddl.ColumnDef | db/sql.go:50-78 | a column definition is non-empty and never ends in a comma: name, type, then not null, unique and check in that order |
| Ddl.ColumnClause | db/sql.go:49-80 | each column clause ends in its comma |
| Ddl.ColumnsText | db/sql.go:49-80 | the column part is empty exactly when there are no fields, and otherwise ends in a comma |
| Ddl.ReferenceClause | db/sql.go:82-96 | an owner column references with on delete cascade and a refer column with on delete restrict, each clause ending in a comma |
| Ddl.ReferencesText | db/sql.go:82-96 | the owner/refer part is empty exactly when the list is |
| Ddl.KeyClause | db/sql.go:98-118 | the primary key and unique clauses appear only when there are keys |
| Ddl.TableBody | db/sql.go:49-118 | the table body is empty exactly when the descriptor has no fields, owners, refers, pks or uks |
| Ddl.CreateTableShape | db/sql.go:173 | the final TrimRight removes exactly the one comma that ends the last clause; the statement ends in `)` and never in `,)` |
| Ddl.EmptyTable | db/sql.go:40-44 | a descriptor with nothing to write yields `create table if not exists <name> ()` |
| Ddl.IndexPartition | db/sql.go:64-72 | each indexed column lands in exactly one of the plain and gin lists (as multisets), and only array columns go to gin |
| Ddl.GinMarker | db/sql.go:156-170 | a gin index statement differs from a plain one exactly by ` using gin` |
| Ddl.SingleIndexes | db/sql.go:140-171 | one single-column index statement per listed column, in order |
| Ddl.IndexCount | db/sql.go:120-171 | the number of index statements is the combined one (when Idxes is non-empty) plus one per indexed column |
| Ddl.IndexOrder | db/sql.go:120-171 | the combined index comes first, then the plain indexes, then the gin ones, each at its computed position |
| Ddl.JoinKeys | db/sql.go:100-105 | the pk/uk loop writes the keys joined by commas |
| Ddl.JoinIndexColumns | db/sql.go:129-134 | the Idxes loop writes the index columns joined by commas |
| Ddl.WriteColumnDef | db/sql.go:50-78 | the loop body writes exactly ColumnDef of the field |
| Ddl.WriteColumns | db/sql.go:49-80 | the column loop writes ColumnsText and fills the plain and gin index lists as the partition says |
| Ddl.WriteReferences | db/sql.go:82-96 | the owner or refer loop writes ReferencesText |
| Ddl.WriteIndexes | db/sql.go:140-171 | the single-column index loops produce SingleIndexes |
| Ddl.CreateTableSql | db/sql.go:40-174 | the table statement is CreateTableText and the index statements are IndexStatements of the descriptor |
| Dml.MatchSegs | db/base_tx.go:346-351 | one `col=$n` segment per match-list value, numbered consecutively from the current marker |
| Dml.MatchSegsMarkers | db/base_tx.go:346-351 | the segments' placeholders are exactly n, n+1, … one per value |
| Dml.TermMarkers | db/base_tx.go:335-370 | each entry's term binds its arguments to consecutive placeholders starting at the current marker |
| Dml.SearchNumbered | db/base_tx.go:335-342 | a search term has one placeholder, the current marker, and one argument |
| Dml.MatchNumbered | db/base_tx.go:343-355 | a match-list term's placeholders run on from the current marker, one per argument, with at least one |
| Dml.ValueNumbered | db/base_tx.go:356-369 | a FillValue or equality term has one placeholder, the current marker, and one argument |
| Dml.TermForWellNumbered | db/base_tx.go:335-370 | the term function used by the loop is well numbered for every search/match-list choice |
| Dml.Terms | db/base_tx.go:318-371 | a successful condition loop yields one term per remaining entry |
| Dml.Extend | db/base_tx.go:318-371 | one more entry adds exactly one term after the previous ones |
| Dml.TermsSequenced | db/base_tx.go:317-371 | placeholders run $base, $base+1, … in text order, one per argument, at least one per entry |
| Dml.TermsErrStays | db/base_tx.go:341-361 | once an entry fails, the whole clause fails with that entry's error |
| Dml.TermsPrefix | db/base_tx.go:318-371 | the terms of a prefix of the entries are a prefix of the terms, arguments included |
| Dml.TermsBinding | db/base_tx.go:318-371 | entry j's term sits at position j and is bound to the arguments right after those of the entries before it |
| Dml.BindingAt | db/base_tx.go:318-371 | where a term's arguments sit among all arguments |
| Dml.WhereSequenced | db/base_tx.go:294-374 | for every map iteration order the clause uses $1..$N in text order with N arguments |
| Dml.SpecialKeysNotTerms | db/base_tx.go:299-313 | the `search` and `match_list` entries are deleted and never become terms themselves |
| Dml.MarkersNeedText | db/base_tx.go:336-366 | a term with a placeholder is never empty text |
| Dml.WhereEmptyIff | db/base_tx.go:295-373 | the clause is empty exactly when no condition remains after the special keys are removed |
| Dml.Contains | db/base_tx.go:319-333 | the `for … if k == sk { break }` scan finds k exactly when it is listed |
| Dml.BuildMatchTerm | db/base_tx.go:344-352 | the match-list loop builds the `( a=$n or b=$n+1 …)` term with one argument per value |
| Dml.BuildTerm | db/base_tx.go:319-370 | the loop body for one entry computes TermFor of that entry |
| Dml.BuildTerms | db/base_tx.go:315-371 | the condition loop computes Terms, advancing markerSeq past each term; the first error ends it |
| Dml.TakeListedKeys | db/base_tx.go:299-313 | a special entry's keys are split from its string value, and the entry is deleted whatever its value |
| Dml.WhereState | db/base_tx.go:294-374 | getSqlWhereState returns WhereSpec of the original map and leaves the map without `search` and `match_list` |
| Builders.Enclose | db/base_tx.go:134-136 | wrapping a clause in fixed text keeps its placeholders |
| Builders.OrderStat | db/base_tx.go:109-117 | the ORDER BY part is `order by id` without an `orderby` entry, the snake-cased column for a string entry, and an error exactly for a non-string entry |
| Builders.TakeOrder | db/base_tx.go:109-117 | the order step computes OrderStat and deletes `orderby` only when it was accepted |
| Builders.TakeLimit | db/base_tx.go:119-128 | the limit step consumes `limit` and `offset` together or not at all |
| Builders.Select | db/base_tx.go:103-138 | selectSqlAndArgs returns SelectSpec's statement and leaves the map SelectSpec says |
| Builders.SelectSequenced | db/base_tx.go:103-138 | for every map order a select uses $1..$N for its N arguments |
| Builders.SpecialKeysDistinct | db/base_tx.go:110-124 | the five special keys are different strings |
| Builders.SelectLeft | db/base_tx.go:103-138 | the map is untouched when select fails early, and otherwise is what the WHERE clause was built from |
| Builders.WhereEntriesKeep | db/base_tx.go:115-125 | deleting the special keys keeps every other entry |
| Builders.SelectKeepsOthers | db/base_tx.go:103-138 | only the special keys leave the map; every other entry stays |
| Builders.LimitSurvives | db/base_tx.go:119-128 | `limit` survives the paging step exactly when `offset` is missing, and the other way round |
| Builders.SelectLimitNeedsOffset | db/base_tx.go:119-136 | a `limit` without `offset` stays in the map and becomes an equality condition |
| Builders.SelectEarlyErrors | db/base_tx.go:104-113 | an unknown type or a non-string `orderby` fails before the map is touched |
| Builders.SelectText | db/base_tx.go:130-137 | the text is the table, then WHERE only when there are terms, then the order and limit parts |
| Builders.Count | db/base_tx.go:208-222 | countSqlAndArgs returns CountSpec's statement and leaves the map CountSpec says |
| Builders.CountSequenced | db/base_tx.go:208-222 | a count uses $1..$N for its N arguments |
| Builders.CountAgreesWithSelect | db/base_tx.go:103-222 | without order or paging entries, count and select succeed together, leave the same map and bind the same arguments |
| Builders.Delete | db/base_tx.go:140-170 | deleteSqlAndArgs returns DeleteSpec's statement |
| Builders.Exists | db/base_tx.go:173-205 | existsSqlAndArgs returns ExistsSpec's statement |
| Builders.ValueWhereSpans | db/base_tx.go:153-167 | the delete/exists condition loop numbers placeholders consecutively from the start marker |
| Builders.ValueWhereSequenced | db/base_tx.go:153-168 | the joined delete/exists condition is sequenced |
| Builders.DeleteSequenced | db/base_tx.go:140-170 | a delete uses $1..$N for its N arguments |
| Builders.ExistsSequenced | db/base_tx.go:173-205 | an exists query uses $1..$N for its N arguments |
| Builders.DeleteAll | db/base_tx.go:146-148 | with no conditions delete empties the whole table and binds nothing |
| Builders.DeleteExistsAgree | db/base_tx.go:140-205 | delete and exists accept the same maps and bind the same arguments |
| Builders.EntryValues | db/base_tx.go:164 | the values of the entries, in map order |
| Builders.PlainParts | db/base_tx.go:163 | `col=$n` for each entry, numbered from the start marker |
| Builders.PlainWhere | db/base_tx.go:153-167 | without FillValue interpretation every entry is `col=$n` bound to its own value |
| Builders.Update | db/base_tx.go:225-261 | updateSqlAndArgs returns UpdateSpec's statement |
| Builders.UpdateStmtSequenced | db/base_tx.go:258-260 | SET values then WHERE arguments keep the numbering consecutive |
| Builders.UpdateSequenced | db/base_tx.go:225-261 | the SET values are bound to $1..$k in map order, the WHERE arguments follow, and the statement is sequenced |
| Builders.PlainSetMarkers | db/base_tx.go:235-240 | the SET clause's placeholders are $1..$k |
| Builders.UpdateWithoutConds | db/base_tx.go:242-260 | with no conditions the statement ends in ` where ` |
| Builders.MarkerParts | db/base_tx.go:63-66 | `$1` … `$n`, one each |
| Builders.FieldArgs | db/base_tx.go:81-90 | one argument per descriptor field: the id, the creation time, or the column value |
| Builders.ColumnArgs | db/base_tx.go:92-98 | one argument per owner or refer column |
| Builders.BuildMarkers | db/base_tx.go:63-66 | the markers loop yields MarkerParts |
| Builders.BuildFieldArgs | db/base_tx.go:81-90 | the descriptor-field loop yields FieldArgs |
| Builders.BuildColumnArgs | db/base_tx.go:92-98 | the owner and refer loops yield ColumnArgs |
| Builders.Insert | db/base_tx.go:54-101 | insertSqlArgsAndID returns InsertSpec's statement and sets the resource id to InsertID |
| Builders.MarkerPartsMarkers | db/base_tx.go:63-67 | the joined markers are $1..$n |
| Builders.MarkersAllCount | db/base_tx.go:63-66 | the marker parts carry 1..n in order |
| Builders.InsertLayout | db/base_tx.go:54-101 | one placeholder per field, owner and refer, $1..$N, and N arguments in that order |
| Builders.InsertFillsID | db/base_tx.go:70-83 | a known type with an empty id gets the generated id, which is also the `id` column's argument; any other id is kept |
| Builders.JoinSelect | db/base_tx.go:270-292 | the join succeeds exactly when the owned and relation types are registered; its one argument is the owner id at $1, in the template's text |
| BaseTx.GetTableName | db/base_tx.go:43-48 | on the default schema `lx` a table is `lx.gr_<type>`; on any other schema it is `<schema>.<type>`, without the prefix |
| BaseTx.GetTableNameInjective | db/base_tx.go:43-48 | within one schema, different types get different tables |
| BaseTx.GetTableNameWithoutSchema | db/base_tx.go:50-52 | the prefix `gr_` followed by the type |
| BaseTx.BaseTx.InsertSqlArgsAndID | db/base_tx.go:54-101 | the shared insert builder on this transaction's schema tables |
| BaseTx.BaseTx.SelectSqlAndArgs | db/base_tx.go:103-138 | the shared select builder on this transaction's schema tables, including what it leaves in the map |
| BaseTx.BaseTx.DeleteSqlAndArgs | db/base_tx.go:140-170 | the shared delete builder, with FillValue conditions interpreted |
| BaseTx.BaseTx.ExistsSqlAndArgs | db/base_tx.go:173-205 | the shared exists builder, with FillValue conditions interpreted |
| BaseTx.BaseTx.CountSqlAndArgs | db/base_tx.go:208-222 | the shared count builder, including what it leaves in the map |
| BaseTx.BaseTx.UpdateSqlAndArgs | db/base_tx.go:225-261 | the shared update builder |
| BaseTx.BaseTx.JoinSelectSqlAndArgs | db/base_tx.go:270-292 | the join succeeds exactly when both types are registered and binds only the owner id, at $1 |
| BaseTx.NewBaseTx | db/base_tx.go:36-41 | an empty schema becomes the default schema; any other is kept |
| BaseTx.DefaultSchemaTables | db/base_tx.go:36-48 | a transaction opened without a schema names every table `lx.gr_<type>` |
| BaseTx.DeleteRendersFill | db/base_tx.go:154-161 | a FillValue condition of delete is rendered by its operator and binds the operator's transformed value |
| LegacySql.ResourceTableName | db/sql.go:19-34 | `lx.gr_<type>`, whatever schema a store uses |
| LegacySql.ResourceTableNameIsDefault | db/sql.go:32-34 | the legacy table name is the default-schema name of BaseTx |
| LegacySql.ResourceTableNameWithoutSchema | db/sql.go:36-38 | `gr_<type>`, which is the legacy name without `lx.` |
| LegacySql.LegacyNaming | db/sql.go:40-171 | the table and references are schema-qualified, index names and targets are not, and array indexes always use gin |
| LegacySql.CreateTableSql | db/sql.go:40-174 | the shared DDL builder under the legacy naming |
| LegacySql.LegacyIndexText | db/sql.go:140-170 | one legacy index statement, spelled out |
| LegacySql.AlwaysGin | db/sql.go:156-170 | exactly the indexed array columns' statements say `using gin` |
| LegacySql.InsertSqlArgsAndID | db/sql.go:176-223 | the shared insert builder on the legacy tables |
| LegacySql.SelectSqlAndArgs | db/sql.go:225-260 | the shared select builder on the legacy tables |
| LegacySql.DeleteSqlAndArgs | db/sql.go:262-282 | the shared delete builder without FillValue interpretation |
| LegacySql.ExistsSqlAndArgs | db/sql.go:285-307 | the shared exists builder without FillValue interpretation |
| LegacySql.CountSqlAndArgs | db/sql.go:310-324 | the shared count builder on the legacy tables |
| LegacySql.UpdateSqlAndArgs | db/sql.go:327-363 | the shared update builder; its WHERE part does interpret FillValues |
| LegacySql.JoinSelectSqlAndArgs | db/sql.go:372-392 | the join succeeds exactly when both types are registered and binds only the owner id |
| LegacySql.DeletePlain | db/sql.go:272-281 | delete never fails past the descriptor lookup, and binds the condition values themselves, FillValues included |
| LegacySql.ExistsPlain | db/sql.go:295-306 | the same for exists |
| LegacySql.ExistsWithoutConds | db/sql.go:291-293 | exists with no conditions is one fixed statement without arguments |
| Store.DriverName | db/store.go:50-56 | the driver names are distinct; openGauss is recognized exactly by its name |
| Store.Reversed | db/pg_store.go:211 | the registered types, last first |
| Store.DropStatement | db/pg_store.go:213 | the statement is 29 characters longer than the table name |
| Store.DropStatementFrames | db/pg_store.go:213 | the table name framed by `DROP TABLE IF EXISTS ` and ` CASCADE` |
| Store.DropStatementInjective | db/pg_store.go:213 | different tables get different drop statements |
| Store.DropStatements | db/pg_store.go:209-215 | one drop per registered type, the last registered dropped first |
| Store.ReversedTwice | db/pg_store.go:211 | reversing twice gives the registration order back |
| Store.ReversedFront | db/pg_store.go:211-214 | reversal puts the first element last |
| Store.DropStatementsFront | db/pg_store.go:211-214 | the Clean loop's next step drops `rs[i-1]` |
| Store.DropsDependentsFirst | db/pg_store.go:209-215 | every table is dropped before the tables it references |
| Store.ValidDepsFirst | db/resource_meta.go:127-149 | a valid registry lists each type after its dependencies |
| Store.WithTx | db/store.go:62-72 | WithTx makes exactly the calls and returns exactly the error WithTxSpec says |
| Store.BeginFailure | db/store.go:63-71 | a failed Begin runs nothing and is the result |
| Store.CommitXorRollback | db/store.go:64-70 | once begun, f runs once, then Commit exactly when f succeeds and Rollback exactly when it fails |
| Store.CommitErrorIgnored | db/store.go:66 | Commit's error never reaches the caller |
| Store.IDCondWhere | db/store.go:77 | the id condition becomes the single term `id=$1` bound to the id |
| Store.GetResourceWithIDSpec | db/store.go:75-89 | a row is returned exactly when the transaction succeeds and the fill yields one row; zero or several rows are `not found` |
| Store.GetResourceWithID | db/store.go:75-89 | GetResourceWithID computes GetResourceWithIDSpec |
| PgStore.PgNaming | db/pg_store.go:67-192 | the table and index target are schema-qualified, the index name uses the bare name, and gin is used unless the driver is openGauss |
| PgStore.FieldNames | db/pg_store.go:478-481 | the descriptor's field names, in order |
| PgStore.CopyFromSpec | db/pg_store.go:472-491 | CopyFrom copies the descriptor's columns; nothing is copied with no rows or no columns; an unknown type is an error |
| PgStore.CopyFromExSpec | db/pg_store.go:456-470 | CopyFromEx copies the caller's columns; only an empty row list copies nothing |
| PgStore.CopyGeneratedType | db/pg_store.go:472-491 | a registered type always has columns, so CopyFrom copies whenever there are rows |
| PgStore.PGStore.SetSchema | db/pg_store.go:226-228 | the schema becomes the one given |
| PgStore.PGStore.CreateTableSql | db/pg_store.go:67-203 | the shared DDL builder under the PGStore naming |
| PgStore.PGStore.Clean | db/pg_store.go:209-215 | the drop statements, last registered type first, on the store's schema |
| PgStore.PGStore.Tx | db/pg_store.go:217-224 | a transaction's BaseTx uses the store's meta and schema, an empty schema meaning the default |
| PgStore.GinUnlessGauss | db/pg_store.go:156-200 | drivers change only the text of array-column indexes, which say `using gin` exactly when the driver is not openGauss |
| PgStore.CopyFrom | db/pg_store.go:472-491 | CopyFrom computes CopyFromSpec |
| PgStore.CopyFromEx | db/pg_store.go:456-470 | CopyFromEx computes CopyFromExSpec |
| PgStore.PGStore.constructor | db/pg_store.go:31 | a new store holds the meta and driver and starts on the default schema |
| GaussArray.EncodedElem | db/gauss_array.go:19-67 | each encoder but GenericArray is for one element type |
| GaussArray.EncodedElemInjective | db/gauss_array.go:19-67 | different encoders are for different element types |
| GaussArray.PQArray | db/gauss_array.go:15-71 | a slice of one of the twelve supported element types gets that type's encoder, anything else GenericArray, and the value is wrapped unchanged |
| GaussArray.PointerSameEncoder | db/gauss_array.go:19-67 | a slice and a pointer to it get the same encoder |
| GaussArray.Texts | db/gauss_array.go:80-83 | each element's text, in order |
| GaussArray.ArrayElemsText | db/gauss_array.go:84 | an array literal of non-empty, comma-free texts reads back as those texts |
| GaussArray.ArrayValue | db/gauss_array.go:75-85 | the shared Value loop prints `{` + the element texts joined by `,` + `}` |
| GaussArray.UintTextIsIntText | db/gauss_array.go:109-183 | an unsigned element prints as the same digits as the signed value |
| GaussArray.ValueExamples | db/gauss_array.go:76-84 | empty arrays print `{}` and [1,2,3] prints `{1,2,3}` |
| GaussArray.IntArrayRoundTrip | db/gauss_array.go:75-105 | what IntArray.Value prints reads back as the same numbers, for every 64-bit value |
| GaussArray.QuotedArrayRoundTrip | db/gauss_array.go:187-235 | quoted IP texts without commas or quotes read back as the same texts |
| GaussArray.Convert | db/gauss_array.go:131-256 | the element conversion succeeds exactly when every element converts, keeping order; otherwise it fails |
| GaussArray.ConvertFirstError | db/gauss_array.go:131-140 | the error is that of the first element that fails |
| GaussArray.ScanSpec | db/gauss_array.go:87-105 | NULL scans to nil, a parse error is returned, otherwise the converted elements |
| GaussArray.ScanInto | db/gauss_array.go:121-143 | the shared Scan loop computes ScanSpec |
| GaussArray.IntArray.Value | db/gauss_array.go:75-85 | IntArray.Value prints IntArrayText of its elements |
| GaussArray.IntArray.Scan | db/gauss_array.go:87-105 | IntArray.Scan stores what ScanSpec gives, or keeps the old elements on error |
| GaussArray.Uint64Array.Value | db/gauss_array.go:109-119 | Uint64Array.Value prints its elements' digits |
| GaussArray.Uint64Array.Scan | db/gauss_array.go:121-143 | Uint64Array.Scan reads through the signed parser and rejects negatives |
| GaussArray.Uint32Array.Value | db/gauss_array.go:173-183 | Uint32Array.Value prints its elements' digits |
| GaussArray.Uint32Array.Scan | db/gauss_array.go:149-170 | Uint32Array.Scan reads through the signed parser and rejects negatives |
| GaussArray.IPArray.Value | db/gauss_array.go:187-197 | IPArray.Value prints each IP's text in quotes |
| GaussArray.IPArray.Scan | db/gauss_array.go:199-221 | IPArray.Scan parses each element as an IP |
| GaussArray.IPNetArray.Value | db/gauss_array.go:225-235 | IPNetArray.Value prints each network's text in quotes |
| GaussArray.IPNetArray.Scan | db/gauss_array.go:237-259 | IPNetArray.Scan parses each element as a CIDR |
| GaussArray.UnsignedRejectsNegative | db/gauss_array.go:133-164 | the unsigned arrays fail exactly when some element is negative, naming the first one |
| GaussArray.IPRejectsUnparsable | db/gauss_array.go:211-216 | IPArray fails exactly when some element is not an IP, and otherwise keeps every IP in order |
| GaussArray.IPNetRejectsUnparsable | db/gauss_array.go:249-254 | IPNetArray fails exactly when some element is not a CIDR |
| GaussArray.IntScanKeeps | db/gauss_array.go:96-103 | IntArray.Scan never fails after a successful parse and keeps every element |
| GaussArray.UintValueScan | db/gauss_array.go:109-143 | Value then Scan gives an unsigned array back for elements up to the largest signed 64-bit value |
| GaussArray.UnsignedKeeps | db/gauss_array.go:131-141 | scanning non-negative numbers keeps them all |
| GaussArray.Int32Elem | db/gauss_array.go:154-157 | pq.Int32Array reads an element exactly when it is a decimal that fits a signed 32-bit integer |
| GaussArray.Uint32ValueScan | db/gauss_array.go:148-182 | Value then Scan gives a Uint32Array back for elements up to the largest signed 32-bit value |
| GaussArray.Uint32AboveInt32Unreadable | db/gauss_array.go:154-157 | a Uint32Array element above the largest signed 32-bit value prints but cannot be scanned back through pq.Int32Array |
| GaussArray.UintAboveInt64Unreadable | db/gauss_array.go:109-143 | an element above the largest signed 64-bit value prints but cannot be scanned back |
| GaussArray.IPValueScan | db/gauss_array.go:187-221 | Value then Scan gives an IPArray back when each IP's text parses as itself |
| Gauss.SplitPair | db/gauss_store.go:89 | SplitN at the first `=` gives one or two parts |
| Gauss.PairRejoined | db/gauss_store.go:89-91 | a pair has two parts exactly when it holds `=`, and `kv[0] + "=" + kv[1]` is the pair again, with no `=` in the key |
| Gauss.KeptPairs | db/gauss_store.go:88-93 | the kept pairs, never more than the input |
| Gauss.KeptPairsAppend | db/gauss_store.go:88-93 | filtering keeps the order of the pairs |
| Gauss.KeptPairsSound | db/gauss_store.go:90 | only input pairs with a key other than pool_max_conns are kept |
| Gauss.KeptPairsComplete | db/gauss_store.go:90-91 | every pair with a key other than pool_max_conns is kept |
| Gauss.KeptPairsAll | db/gauss_store.go:88-93 | when every pair is kept, nothing changes |
| Gauss.ParseGaussConnDsn | db/gauss_store.go:85-95 | the DSN is the kept space-separated pairs joined by spaces |
| Gauss.DsnUnchanged | db/gauss_store.go:85-95 | a connection string of keyed pairs without pool_max_conns is passed on as it is |
| Gauss.DsnDrops | db/gauss_store.go:89-91 | a pool_max_conns pair and a bare word are dropped, and a value holding `=` is kept whole |
| Gauss.RecoverySpec | db/gauss_store.go:97-114 | an error never comes with recovery = true |
| Gauss.DBIsRecoveryMode | db/gauss_store.go:97-114 | the scan loop computes RecoverySpec |
| Gauss.RecoveryOnlyOnOneTrueRow | db/gauss_store.go:113 | recovery mode exactly when the query and scans succeed and there is exactly one row, which says true |
| Gauss.FilterValue | db/gauss_store.go:654-674 | addresses and networks become their text, arrays and slices go through PQArray, anything else is unchanged |
| Gauss.FilterIdempotent | db/gauss_store.go:654-674 | filtering twice is filtering once |
| Gauss.FilterSlices | db/gauss_store.go:670-671 | a slice is sent as the array value PQArray picks |
| Gauss.FilterParam | db/gauss_store.go:416-442 | a value fails exactly when it is nil, where Go panics; any other value becomes FilterValue of it |
| Gauss.FilterParams | db/gauss_store.go:416-652 | each parameter is filtered, in order; a nil parameter is an error (Go panics) |
| Gauss.FilterParamsShape | db/gauss_store.go:416-442 | parameters without nil are all filtered, in order; one nil fails |
| Gauss.GaussNaming | db/gauss_store.go:145-269 | the table and references are in the store's schema, index names and targets use the bare `gr_` table, and nothing uses gin |
| Gauss.NeverGin | db/gauss_store.go:261-276 | indexed array columns still get a plain index, and no statement says `using gin` |
| Gauss.GaussStore.constructor | db/gauss_store.go:48 | a new store holds the meta and starts on the default schema |
| Gauss.GaussStore.SetSchema | db/gauss_store.go:128-130 | the schema becomes the one given |
| Gauss.GaussStore.GetSchema | db/gauss_store.go:132-134 | the store's schema |
| Gauss.GaussStore.CreateTableSql | db/gauss_store.go:145-280 | the shared DDL builder under the Gauss naming |
| Gauss.GaussStore.Clean | db/gauss_store.go:282-290 | every drop is attempted, last registered type first, and each failure is reported without stopping the rest |
| Gauss.GaussStore.Tx | db/gauss_store.go:296-302 | a transaction's BaseTx uses the store's meta and schema |
| Gauss.DropAll | db/gauss_store.go:283-289 | the Clean loop computes the drop statements and the failed tables |
| Gauss.DropsFront | db/gauss_store.go:284-285 | the loop's next step drops `rs[i-1]` |
| Gauss.DropTables | db/gauss_store.go:284-285 | the tables in drop order, last registered first |
| Gauss.FailedDrops | db/gauss_store.go:286-288 | the tables whose drop failed, in drop order |
| Gauss.FailuresReported | db/gauss_store.go:286-288 | a failing drop is reported and does not stop the others |
| Gauss.InsertColumns | db/gauss_store.go:599-635 | the column list is the field names, then the owners, then the refers |
| Gauss.FieldColumns | db/gauss_store.go:599-602 | the field loop yields the field names |
| Gauss.InsertSqlArgsAndID | db/gauss_store.go:585-642 | the Gauss insert computes GaussInsertSpec and sets the id before the pointer check |
| Gauss.GaussInsertLayout | db/gauss_store.go:593-641 | columns, placeholders and arguments line up one to one; field values other than id and create_time are filtered |
| Gauss.GaussArgsMatchBase | db/gauss_store.go:617-635 | without addresses or slices, the arguments are those of the BaseTx insert |
| Gauss.GaussCopyFromSpec | db/gauss_store.go:554-583 | CopyFrom copies the descriptor's columns into the bare table of the schema, every row filtered |
| Gauss.GaussCopyFromExSpec | db/gauss_store.go:529-552 | CopyFromEx copies the caller's columns |
| Gauss.FilterRows | db/gauss_store.go:541-576 | the row loop filters each row's values, in order |
| Gauss.CopyFrom | db/gauss_store.go:554-583 | CopyFrom computes GaussCopyFromSpec |
| Gauss.CopyFromEx | db/gauss_store.go:529-552 | CopyFromEx computes GaussCopyFromExSpec |
| Gauss.CopyRowsFiltered | db/gauss_store.go:572-576 | rows without nil are copied value by value, each filtered |
| RStore.Clean | db/rstore.go:47-53 | the drop statements on the legacy tables, last registered type first |
| RStore.RowOffset | db/rstore.go:310-322 | row k of a chunk starts at placeholder 1 + k * fieldCount |
| RStore.ExecBatchSpec | db/rstore.go:304-330 | at most one statement is sent; a row that cannot be rendered is the error and nothing is sent; otherwise the result is Exec's |
| RStore.WrittenStep | db/rstore.go:316-319 | each row's fragment is followed by a comma unless it is the last |
| RStore.ArgsStep | db/rstore.go:320 | the arguments are the rows' arguments in order |
| RStore.ExecBatchInsert | db/rstore.go:304-330 | the row loop computes ExecBatchSpec |
| RStore.ArgsAligned | db/rstore.go:310-323 | when every row renders fieldCount arguments, row k's arguments sit exactly where its placeholders start |
| RStore.ArgsLength | db/rstore.go:320 | fieldCount arguments per row |
| RStore.ChunkSize | db/rstore.go:286-289 | the rows per statement: the batch size, or as many rows as fit in it when all the rows together would not |
| RStore.ChunkSizeZero | db/rstore.go:287-290 | the chunk size is zero, and the loop never advances, exactly when the batch size is zero or one row alone is over it |
| RStore.ChunkEnd | db/rstore.go:291-294 | `ends` is i + size cut at the row count |
| RStore.ChunksFrom | db/rstore.go:290-300 | the loop's chunks from i on; none once i reaches the end |
| RStore.ChunksShape | db/rstore.go:290-294 | the k-th chunk starts at i + k * size, is non-empty, ends where the next begins, and the last ends at the row count |
| RStore.ChunksCover | db/rstore.go:290-300 | the chunks cover the rows from i on, in order, each row once |
| RStore.ChunkWithinBudget | db/rstore.go:286-295 | no chunk needs more placeholders than the batch size allows, when one row fits |
| RStore.RunChunksOk | db/rstore.go:290-301 | the run succeeds exactly when every chunk's statement succeeds, sending one statement per chunk |
| RStore.FailureStops | db/rstore.go:295-296 | once a chunk fails, later chunks are neither sent nor counted |
| RStore.SendChunks | db/rstore.go:285-301 | prepareBatchInsert's chunk loop computes RunChunks over the chunks of `size` rows |
| RStore.ChunkStep | db/rstore.go:290-291 | the loop's next round is the next chunk |
| RStore.SendStep | db/rstore.go:295-299 | one round sends the chunk from i; on failure the run ends there, otherwise its count is added |
| RStore.RunStep | db/rstore.go:295-299 | sending one more chunk after those that succeeded |
| RStore.PrepareSpec | db/rstore.go:276-302 | a Stuck run only happens for a non-empty row list after one statement; a count only comes from a registered element type |
| RStore.PrepareBatchInsert | db/rstore.go:276-302 | prepareBatchInsert computes PrepareSpec, statements sent included |
| RStore.BatchInsertSpec | db/rstore.go:259-274 | a non-slice fails, an empty slice inserts nothing, more than 65535 rows fail, anything else is prepareBatchInsert |
| RStore.BatchInsert | db/rstore.go:259-274 | BatchInsert computes BatchInsertSpec |
| RStore.BatchInChunks | db/rstore.go:276-302 | for a registered type whose rows fit the budget one at a time, the chunks cover the rows in order, and the insert succeeds exactly when every chunk does, one statement per chunk |
| ApiError.ValidationCodes | error/error.go:10-25 | the sixteen request-validation codes |
| ApiError.AllCodes | error/error.go:4-28 | the twenty-three codes error.go declares |
| ApiError.StatusTable | error/error.go:4-28 | every validation code answers 422, every code before ServerError is a 4xx client error, and ServerError and ClusterUnavailable answer 500 and 503 |
| ApiError.ErrorMessage.Error | error/error.go:72-74 | the English text |
| ApiError.ErrorMessage.ErrorCN | error/error.go:76-78 | the Chinese text |
| ApiError.NewErrorMessage | error/error.go:68-70 | the message reads back both texts it was given |
| ApiError.APIError.constructor | error/error.go:48-55 | the code, type `error`, the English text as message and the Chinese one kept aside |
| ApiError.APIError.Error | error/error.go:57-59 | the message currently held |
| ApiError.APIError.Localization | error/error.go:61-66 | when asked, the Chinese text becomes the message; the same error comes back and nothing else changes |
| ApiError.LocalizedText | error/error.go:48-66 | a new error reads in English, then in Chinese once localized, and localizing twice changes nothing more |
| NameCheck.ValidateString | util/regexp.go:14-42 | no error exactly for the empty name or a name of allowed characters with no forbidden first or last character; the error is the name and `is not legal` |
| NameCheck.PlainNamesAccepted | util/regexp.go:16-28 | lower-case letters and digits with inner `_-/.:` always pass |
| NameCheck.BadEndsRejected | util/regexp.go:21-28 | a forbidden first or last character is rejected even when every character is allowed |
| NameCheck.TestNames1 | util/regexp_test.go:9-12 | names 1 to 4 of the test's names pass |
| NameCheck.TestNames2 | util/regexp_test.go:13-16 | names 5 to 8 of the test's names pass |
| NameCheck.TestNames3 | util/regexp_test.go:17-20 | names 9 to 12 of the test's names pass |
| NameCheck.TestNames4 | util/regexp_test.go:21-24 | names 13 to 16 of the test's names pass |
| NameCheck.TestNames5 | util/regexp_test.go:25-27 | names 17 to 19 of the test's names pass |
| NameCheck.TestNames6 | util/regexp_test.go:28-30 | names 20 to 22 of the test's names pass |
| NameCheck.TestNames7 | util/regexp_test.go:31-32 | names 23 to 24 of the test's names pass |
| NameCheck.TestNames8 | util/regexp_test.go:33-34 | names 25 to 26 of the test's names pass |
| NameCheck.TestNames9 | util/regexp_test.go:35-38 | names 27 to 30 of the test's names pass |
| NameCheck.TestNames10 | util/regexp_test.go:39-42 | names 31 to 34 of the test's names pass |
| NameCheck.TestNames11 | util/regexp_test.go:43-45 | names 35 to 37 of the test's names pass |
| NameCheck.TestNames12 | util/regexp_test.go:46 | name 38 of the test's names passes |
| NameCheck.TestNames13 | util/regexp_test.go:47 | name 39 of the test's names passes |
| NameCheck.TestNames14 | util/regexp_test.go:48 | name 40 of the test's names passes |
| NameCheck.TestNames15 | util/regexp_test.go:49 | name 41 of the test's names passes |
| NameCheck.SampleNamesRejected | util/regexp.go:14-42 | a name starting with `-`, `/` or `,`, ending in `-`, `_`, `/` or `,`, or holding `#` or `!` is refused |
| IntRange.ToInt64 | resource/schema/resourcefield/validator/intrange.go:35 | Go's int64 conversion of a uint64 lands in the int64 range and wraps values above MaxInt64 |
| IntRange.IntRangeValidator.ValidateValueRange | resource/schema/resourcefield/validator/intrange.go:41-50 | no error exactly when the value is at least the min and below the max, the absent bounds imposing nothing; the min is reported first |
| IntRange.IntRangeValidator.Validate | resource/schema/resourcefield/validator/intrange.go:28-39 | signed values are checked as they are, unsigned ones after int64 conversion, every other kind is an error |
| IntRange.LargeUintWraps | resource/schema/resourcefield/validator/intrange.go:34-35 | an unsigned value above MaxInt64 is checked as negative, so a non-negative lower bound rejects it |
| IntRange.ScanErrStops | resource/schema/resourcefield/validator/intrange.go:54-66 | once the tag scan has failed, later tags change nothing |
| IntRange.OtherTagsIgnored | resource/schema/resourcefield/validator/intrange.go:54-66 | a tag with neither prefix leaves the scan as it was |
| IntRange.DuplicateMin | resource/schema/resourcefield/validator/intrange.go:55-58 | a second non-empty `min=` tag is an error wherever it comes |
| IntRange.MinKept | resource/schema/resourcefield/validator/intrange.go:55-59 | tags without the `min=` prefix keep the min text already scanned |
| IntRange.FromTags | resource/schema/resourcefield/validator/intrange.go:52-93 | the loop over the tags computes FromTagsSpec |
| IntRange.FromTagsOutcomes | resource/schema/resourcefield/validator/intrange.go:68-92 | no bound texts give no validator; a text that is no int64 or min >= max is an error; otherwise a validator with exactly the parsed bounds |
| IntRange.BoundsRoundTrip | resource/schema/resourcefield/validator/intrange.go:52-93 | tags printed from int64 bounds a < b give a validator that accepts exactly a <= i < b |
| IntRange.SupportKind | resource/schema/resourcefield/validator/intrange.go:95-102 | true exactly for the six integer kinds, the slices and the string-keyed maps |
| IntRange.ValidateScalarsOnly | resource/schema/resourcefield/validator/intrange.go:28-39 | Validate refuses every kind but the two scalars, so the supported slices and maps are for the caller to split |
| QueryContext.ModifierText | resource/context.go:14-25 | every modifier's text has at least two characters and no `_` |
| QueryContext.VerifyModifier | resource/context.go:162-189 | every modifier but Eq is returned only for its own text |
| QueryContext.VerifyModifierEq | resource/context.go:162-189 | Eq comes back exactly for the texts that name no other modifier |
| QueryContext.VerifyModifierText | resource/context.go:162-189 | every modifier's text maps back to it, `eq` through the default |
| QueryContext.ParseFilter | resource/context.go:113-124 | the filter keeps the values, and a key without `_` is its own name with Eq |
| QueryContext.LastUnderscore | resource/context.go:118 | the last `_` of name, `_` and a suffix without `_` is the one before the suffix |
| QueryContext.ParseFilterSplit | resource/context.go:113-124 | when a key is split, the name, `_` and the modifier's text rebuild it |
| QueryContext.KeyRoundTrip | resource/context.go:113-124 | a key written as a name, `_` and a modifier's text parses back to that name and modifier |
| QueryContext.UnknownSuffixKept | resource/context.go:118-123 | a last suffix naming no modifier leaves the whole key as the name, with Eq |
| QueryContext.PageSizeIsPlain | resource/context.go:27 | `page_size` is read as the plain name `page_size` |
| QueryContext.PageNumIsPlain | resource/context.go:28 | `page_num` is read as the plain name `page_num` |
| QueryContext.ValuesToIntSpec | resource/context.go:143-160 | a refusal is InvalidFormat with `negative number` |
| QueryContext.ValuesToIntOutcome | resource/context.go:143-160 | no values give 0; otherwise the first value decides alone, read as a non-negative integer or refused |
| QueryContext.FiltersValuesToInt | resource/context.go:143-160 | the loop computes ValuesToIntSpec |
| QueryContext.KeyStep | resource/context.go:126-137 | a paging key sets its half of the pagination, any other key appends its filter, and the step is refused exactly for a paging key with a refused value |
| QueryContext.GenFiltersAndPaginationSpec | resource/context.go:102-141 | a query that does not parse is InvalidFormat; otherwise the loop's outcome over the keys |
| QueryContext.KeyFilter | resource/context.go:113-124 | the loop body's filter is ParseFilter of the key and values |
| QueryContext.GenFiltersAndPagination | resource/context.go:102-141 | the loop computes GenFiltersAndPaginationSpec |
| QueryContext.GenNext | resource/context.go:112-138 | one more key advances the loop's result by KeyStep |
| QueryContext.GenStops | resource/context.go:127-134 | once a paging value is refused, later keys change nothing |
| QueryContext.KeptFilters | resource/context.go:126-137 | the reference list of kept filters is no longer than the keys |
| QueryContext.GenSucceeds | resource/context.go:112-138 | the parse succeeds exactly when every key naming a paging parameter has an acceptable value |
| QueryContext.GenFilters | resource/context.go:112-138 | a successful parse returns KeptFilters, the non-paging keys' filters in visiting order |
| QueryContext.KeptFiltersNoPaging | resource/context.go:135-136 | no returned filter names a paging parameter |
| QueryContext.PaginationDefault | resource/context.go:111 | without a paging key, pagination stays zero |
| QueryContext.PageSizeFromLastKey | resource/context.go:127-130 | the last key visited that names page_size decides the page size |
| QueryContext.Context.constructor | resource/context.go:61-70 | a context holding the parsed filters and pagination and no parameters |
| QueryContext.Context.Set | resource/context.go:73-75 | the key holds the value and nothing else changes |
| QueryContext.Context.GetFilters | resource/context.go:82-84 | the filters the context holds |
| QueryContext.Context.GetPagination | resource/context.go:86-88 | the pagination the context holds |
| QueryContext.ContextAccessors | resource/context.go:73-92 | a new context gives back its filters and pagination; SetPagination replaces only the pagination and Set touches neither |
| QueryContext.Context.Get | resource/context.go:77-80 | the value exactly when the key was set |
| QueryContext.Context.SetPagination | resource/context.go:90-92 | the pagination is replaced and nothing else changes |
| QueryContext.SetThenGet | resource/context.go:73-80 | a new context has no parameters, and a value that is Set is got back |

## Left out

- Database I/O is left out: connections, pools, `Exec`, `Query` and `CopyFrom` calls, `InitSchema`, `DropSchemas`, `db/recovery.go` and `db/schema.go`. The model produces the statements, arguments and their order. The replies of the database come in as parameters (a `Begin`/`f`/`Commit` outcome in `WithTx`, per-chunk execution results in `BatchInsert`, the rows of the recovery query).
- The `Get`/`Fill`/`GetOwned` wrappers and the `rowsToResources` variants are left out. They rebuild resources from driver rows by reflection. `GetResourceWithID` is modelled on the number of rows that `Fill` returns.
- Foreign helpers are parameters or concrete stand-ins. `uuid.Gen` is the `generated` parameter. `net.ParseIP`, `net.ParseCIDR` and the masked network text are function parameters. pq's array text parser is the already-parsed element list. `genBatchInsertSql` is the `RowSql` parameter of `RStore.PrepareSpec`, and `reflector.GetStructPointerInSlice` is its `elem` parameter, the element struct or its error. `url.ParseQuery` is its outcome. `\p{Han}` is the `HanTable` parameter. `ToSnake` is defined concretely (an upper-case letter becomes `_` plus its lower case, except at the start).
- `Strs.ToLower` lowers only ASCII letters; resource type names are ASCII.
- `IndexPrefix` and `batchSize` are defined outside the files modelled here, so they are parameters.
- The two-argument `getTableNameWithoutSchema` that `pg_store.go` calls is not part of this model. It is a parameter (`BareName`).
- Go map iteration order is a parameter: the entry order of a condition map and the key order of a parsed query.
- Error texts keep the fixed wording of the source. Wrapped driver errors are opaque strings. These messages lose a value or a character:
  - FillValues.BuildSql: `match condition isn't string, but %v` and `any value should be slice, but %v` (db/fill_value.go:54-69) drop `, but` and the value.
  - Dml.SearchTerm and Dml.MatchTerm: the condition loop's `search condition isn't string, but %v` and `match condition isn't string, but %v` (db/base_tx.go:341,354 and db/sql.go:441,454) drop `, but` and the value.
  - Builders.OrderStat: `order argument isn't string:%v` (db/base_tx.go:112 and db/sql.go:234) drops `:` and the value.
  - Builders.InsertSpec and Gauss.GaussInsertSpec: `%v is not pointer to resource` (db/base_tx.go:78, db/sql.go:200 and db/gauss_store.go:614) drops the leading kind.
  - Meta.ParseField: the slice and array case `isn't supported:[%v]` (db/resource_meta.go:199) drops `:[` + the element kind + `]`.
  - Meta.Placed: the embedded `!!! field %s is duplicate\n` (db/resource_meta.go:276) drops its trailing newline.
  - Meta.ParseResourceField: `!!!! warning, field %s parse failed %s\n` (db/resource_meta.go:331) drops its trailing newline. genDescriptor only logs this error.
  - IntRange.ParseIntErrorText: it quotes the refused text between plain double quotes, without strconv.Quote's escaping of special characters.

  The int-range messages keep their numbers, written with Itoa. They write the kind of a non-int value through `KindText`.
- BuildSql: for `any` or `&&` with a nil value, Go panics in `reflect.TypeOf(nil).Kind()`; the model returns the `any value should be slice` error instead.
- EmbeddedFields: an `embed` field whose type is a pointer to something other than a struct passes Go's pointer check and then panics in `NumField`; the model returns the `embed only support` error instead.
- A nil parameter in the openGauss value filter panics in Go; the model returns an `Err` instead. `ResourceDBType` takes a struct shape, so its panic for a value that does not point to a struct is left out.
- RStore.BatchInsert: affected-row counts are unbounded integers, without int64 wrap-around. With a field count above `batchSize`, Go's chunk loop never advances; the model reports `Stuck` after the first round instead of diverging.
- QueryContext.Context.constructor: NewContext itself is left out. Reading `accept-language`, `CreateResourceFromRequest` and the HTTP request and response are foreign or I/O. The constructor takes the parsed filters and pagination.
- `Pagination` is declared outside the files modelled here. Only its page size and page number, the two fields `genFiltersAndPagination` sets, are modelled. The JSON tags of every structure are left out.
- Logging (`showLog`, the print of an unparsable field) is left out because it has no effect on results.
