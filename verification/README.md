# Schema diff of airtable-devops, in Dafny

This project models the schema-diff engine of the `diff` command in
`commands/diff.ts` and proves properties of the model. The engine compares
two snapshots of an Airtable base and reports the differences, and it has
two halves:

- **Comparison.** Tables and fields are matched by their stable `id` through
  linear scans (`findTableById`, `compareFieldSets`, `compareTableSets`).
  Each side is split into created, updated and deleted entities. For every
  updated table, `compareSchemas` diffs its field list against the old table
  that bears the same id.
- **Rendering.** `formatFieldDiff`, `formatFieldChanges`, `formatTableDiff`
  and `formatSchemaDiff` turn the resulting diff record into a
  deterministic text report.

Modules, one concept each:

- `Schema` (`schema.dfy`): the snapshot shapes `Base`, `Table` and `Field`.
  A field's `options` object is its list of entries in enumeration order;
  option values are already-rendered JSON text.
- `Matching` (`matching.dfy`): generic id matching. It provides `Find` (the
  first entity with an id, as `Array.prototype.find`), `Unmatched` (the
  created and deleted lists) and `Changed` (the updated pairs).
- `Compare` (`compare.dfy`): the diff record (`TableDiff`, `SchemaDiff`) and
  `CompareFieldSets`, `CompareTableSets` and `CompareSchemas`.
- `Lines` (`lines.dfy`): text as a list of lines. `Join` is `join('\n')`,
  and `Split` is its inverse on lines without a newline.
- `OptionDiff` (`options.dfy`): the option lines of a field entry, both
  corrected and as written (see Findings).
- `Format` (`format.dfy`): the report as a list of lines, piece by piece.
- `Report` (`report.dfy`): what the report promises, namely its order, the
  kinds of lines it holds, and when it is empty. These are statements about
  the list of lines.
- `ReadBack` (`readback.dfy`): when no printed value (base id, table or
  field name, type, description, option key or value) holds a newline, the
  report's text split at newlines is exactly that list of lines, so the
  statements of `Report` hold of the text as well. A value with a newline
  breaks its line in two (`ReadBack.MultiLineDescriptionSplits`).
- `Render` (`render.dfy`): the formatter's loops and string accumulators,
  as `commands/diff.ts` arranges them, with the option loops using the
  corrected own-key test of `OptionDiff` in place of the `in` operator (see
  Findings). Each method is proved to produce the `Join` of the line model.

The two snapshots are trusted to be well-formed. Where a property depends on
ids being unique within one snapshot, or on a JSON object holding each key
once, it takes that as an explicit `requires` (`UniqueIds`,
`DistinctKeys`). Nothing in `commands/diff.ts` checks either.

Where the code's behaviour may surprise a reader, the model follows the
code:

- Values are compared as `JSON.stringify` text, which depends on key order.
  The model uses structural equality on the entry lists, which keeps the
  same key-order sensitivity. Two fields whose options differ only in entry
  order therefore count as updated, even though they show no change lines
  (`Report.KeyOrderIsUpdate`, `Report.KeyOrderHasNoChangeLines`).
- An absent description differs from an empty one, and an absent options
  object differs from `{}`, because their serialisations differ.
- An updated field with no change lines is followed by one empty line,
  which is the `\n` written before the empty change text.
- A deleted table is printed as its header line alone.

The `Field` type comes from `utils/types/field.d.ts`, which is not part of
this model. Its shape (id, name, type, optional description, optional
options object) follows its uses in `commands/diff.ts`.

## Model

| member | source | states |
|---|---|---|
| Matching.Find | commands/diff.ts:125-127 | A lookup by id succeeds exactly when some entity carries the id, and what it returns is an entity of the list bearing that id |
| Matching.FindFirst | commands/diff.ts:126 | The lookup returns the first entity with the id: an entity with no earlier namesake is what its id finds |
| Matching.FindUnique | commands/diff.ts:140 | With unique ids, looking up any entity's id finds that very entity |
| Matching.Unmatched | commands/diff.ts:139-153 | The created (or deleted) list is a sub-list of its side, and with nothing on the other side it is the whole side; its members are given by `UnmatchedMembers` and its order by `UnmatchedAppend` |
| Matching.Changed | commands/diff.ts:139-146 | At most one updated pair per new entity, and none when the old side is empty; its members are given by `ChangedMembers` and its order by `ChangedAppend` |
| Matching.AftersAppend | commands/diff.ts:168-175 | Taking the new values of a split list of pairs splits the result in place |
| Matching.UnmatchedMembers | commands/diff.ts:139-153 | An entity is reported as created (or deleted) exactly when it is on its side and no entity on the other side has its id; only the id matters |
| Matching.ChangedMembers | commands/diff.ts:139-146 | A pair is reported as updated exactly when its new value is on the new side, the id lookup finds its old value, and the two values differ |
| Matching.UnmatchedAppend | commands/diff.ts:139-153 | Created and deleted lists keep the order of their side: splitting a side splits the result in place |
| Matching.ChangedAppend | commands/diff.ts:139-146 | Updated pairs keep the order of the new side |
| Matching.UnmatchedUnique | commands/diff.ts:148-153 | Filtering a list with unique ids keeps the ids unique |
| Matching.ChangedUnique | commands/diff.ts:139-146 | The new values of the updated pairs have unique ids when the new side does |
| Matching.AllMatched | commands/diff.ts:148-153 | When every id of one side occurs on the other, nothing is created or deleted |
| Matching.AllUnchanged | commands/diff.ts:139-146 | When every new entity finds an equal old one, nothing is updated |
| Matching.SelfMatchIsEmpty | commands/diff.ts:139-153 | Matching an id-unique list against itself reports nothing |
| Matching.ReplaceOne | commands/diff.ts:139-153 | Replacing one entity by a different value with the same id yields no created, no deleted, and exactly that one updated pair |
| Matching.UnchangedSlice | commands/diff.ts:139-146 | Any slice of an id-unique list, matched against the whole list, changed nothing |
| Matching.UnmatchedIds | commands/diff.ts:139-153 | Every created id is absent from the old side, and every deleted id is absent from the new side |
| Matching.ChangedIds | commands/diff.ts:139-146 | Every updated id occurs on both sides |
| Matching.Partition | commands/diff.ts:139-153 | Given unique ids per side, no id occurs twice across created, updated and deleted |
| Compare.CompareFieldSets | commands/diff.ts:129-156 | Created fields are the new ones whose id is unknown to the old list; updated pairs are matched by id and differ; deleted fields are the old ones whose id is gone |
| Compare.CompareTableSets | commands/diff.ts:158-185 | The same classification for tables, with the new-side table standing for an update |
| Compare.UpdatedTables | commands/diff.ts:168-175 | A table is in `updated` exactly when it is on the new side, its id is found on the old side, and the old table differs |
| Compare.UpdatedDiffs | commands/diff.ts:192-201 | One entry per updated table; the lookup of the old table by id is required to succeed, as the non-null assertion at line 193 demands |
| Compare.UpdateEntry | commands/diff.ts:192-199 | The entry of one updated table is an UPDATE carrying that very table |
| Compare.UpdatedDiffsInOrder | commands/diff.ts:192-201 | Entry `i` is the UPDATE entry of the `i`-th updated table, so the mapped list keeps the updated tables' order |
| Compare.UpdatedDiffsAreFieldDiffs | commands/diff.ts:192-200 | Each UPDATE entry's field diff is the diff of the same-id old table's fields against the new table's fields |
| Compare.UpdatedDiffsMatch | commands/diff.ts:189-201 | Every updated table's id is on the old side, so the lookup at line 193 never fails; each entry is an UPDATE of a changed table with its field diff |
| Compare.CompareSchemas | commands/diff.ts:187-211 | The base id comes from the new snapshot; the created and deleted lists are exactly those `compareTableSets` returns, so they keep its order and its membership (matched by id); each updated entry is an UPDATE of a changed new table with the field diff against its old namesake; there is exactly one entry per updated table, in the order `compareTableSets` lists them |
| Compare.FieldSetsReflexive | commands/diff.ts:129-156 | Diffing an id-unique field list against itself gives three empty lists |
| Compare.SchemaReflexive | commands/diff.ts:187-211 | Diffing a base with unique table ids against itself gives an empty diff carrying the base id |
| Compare.FieldRenameIsUpdate | commands/diff.ts:139-153 | Renaming one field is reported as that single updated pair and nothing else |
| Compare.TableRenameIsUpdate | commands/diff.ts:168-210 | Renaming one table is never a create or delete: it is the single UPDATE entry, with an empty field diff |
| Compare.FieldSetsPartition | commands/diff.ts:129-156 | No field id occurs twice across created, updated and deleted |
| Compare.TableSetsPartition | commands/diff.ts:158-185 | No table id occurs twice across created, updated and deleted |
| Compare.FieldOrderPreserved | commands/diff.ts:139-153 | Created and updated fields follow the new list's order; deleted fields follow the old list's order |
| Compare.TableOrderPreserved | commands/diff.ts:168-182 | Created and updated tables follow the new base's order; deleted tables follow the old base's order |
| Lines.Join | commands/diff.ts:271 | Joining no lines gives the empty text; `SplitJoin` shows that splitting at newlines inverts it |
| Lines.JoinAppend | commands/diff.ts:271 | Joining two non-empty runs of lines puts exactly one newline between them |
| Lines.JoinPrefix | commands/diff.ts:286 | Prefixing joined text indents its first line only |
| Lines.SplitJoin | commands/diff.ts:271 | Splitting joined lines at newlines gives the lines back, provided no line holds a newline |
| Lines.SplitAtNewline | commands/diff.ts:271 | A newline after a newline-free line ends exactly that line |
| Lines.SplitJoinIff | commands/diff.ts:271 | Splitting joined lines gives them back exactly when none of them holds a newline |
| OptionDiff.Lookup | commands/diff.ts:265-266 | The value of a key is found exactly when the object has that own key, and it is an entry of the object |
| OptionDiff.LookupAt | commands/diff.ts:265-266 | With distinct keys, each entry is what a lookup of its key finds |
| OptionDiff.Added | commands/diff.ts:250-254 | At most one added line per new entry; `AddedMembers` gives the exact lines |
| OptionDiff.Removed | commands/diff.ts:257-261 | At most one removed line per old entry; `RemovedMembers` gives the exact lines |
| OptionDiff.Modified | commands/diff.ts:264-268 | At most one modified line per new entry; `ModifiedMembers` gives the exact lines |
| OptionDiff.AddedMembers | commands/diff.ts:250-254 | A line is an added line exactly when it is `options: + <key>: <value>` for a new entry whose key the old object lacks |
| OptionDiff.RemovedMembers | commands/diff.ts:257-261 | A line is a removed line exactly when it is `options: - <key>: <value>` for an old entry whose key the new object lacks |
| OptionDiff.ModifiedMembers | commands/diff.ts:264-268 | A line is a modified line exactly when it is `options: ~ <key>: <old> → <new>` for a new entry whose key the old object holds with another value |
| OptionDiff.OptionChanges | commands/diff.ts:245-269 | No option lines when neither field has an options object; `OptionChangesEmpty` and `OptionChangesOrdered` give the rest |
| OptionDiff.CreatedOptionLines | commands/diff.ts:219-223 | One `      + <key>: <value>` line per entry of a created field's options, in enumeration order |
| OptionDiff.AddedEmpty | commands/diff.ts:250-254 | No added lines exactly when every new key is a key of the old object |
| OptionDiff.RemovedEmpty | commands/diff.ts:257-261 | No removed lines exactly when every old key is a key of the new object |
| OptionDiff.ModifiedEmpty | commands/diff.ts:264-268 | No modified lines exactly when every new entry whose key the old object has carries the old value |
| OptionDiff.NoLinesIffSameEntries | commands/diff.ts:250-268 | No option lines at all exactly when both objects have the same keys and the same values |
| OptionDiff.SameEntriesSameMap | commands/diff.ts:250-268 | Same keys and values means equal key/value maps |
| OptionDiff.SameMapSameEntries | commands/diff.ts:250-268 | Equal key/value maps means same keys and values |
| OptionDiff.OptionChangesEmpty | commands/diff.ts:245-269 | The option lines are empty exactly when the two options objects, with absent read as `{}`, are equal as maps, whatever their entry order |
| OptionDiff.NewKeyIsAdded | commands/diff.ts:250-254 | Every new own key the old object lacks yields an added line |
| OptionDiff.OldKeyIsRemoved | commands/diff.ts:257-261 | Every old own key the new object lacks yields a removed line |
| OptionDiff.AddedAndRemovedReported | commands/diff.ts:245-261 | Whatever the other side holds, a key only on the new side appears as `options: +` and a key only on the old side as `options: -` |
| OptionDiff.ValueAsWritten | commands/diff.ts:265-266 | `obj[k]` rendered: for an own key the own value |
| OptionDiff.AddedAsWritten | commands/diff.ts:250-254 | At most one line per new entry; `AddedAsWrittenMembers` gives the exact lines |
| OptionDiff.RemovedAsWritten | commands/diff.ts:257-261 | At most one line per old entry; `RemovedAsWrittenMembers` gives the exact lines |
| OptionDiff.ModifiedAsWritten | commands/diff.ts:264-268 | At most one line per new entry; `ModifiedAsWrittenMembers` gives the exact lines |
| OptionDiff.AddedAsWrittenMembers | commands/diff.ts:250-254 | As written, a new entry yields an added line exactly when `key in oldOptions` fails, so never for an inherited name |
| OptionDiff.RemovedAsWrittenMembers | commands/diff.ts:257-261 | As written, an old entry yields a removed line exactly when `key in newOptions` fails, so never for an inherited name |
| OptionDiff.ModifiedAsWrittenMembers | commands/diff.ts:264-268 | As written, a new entry yields a modified line exactly when `key in oldOptions` holds and `oldOptions[key]` renders differently, the old value being printed as rendered |
| OptionDiff.OptionChangesAsWritten | commands/diff.ts:245-269 | The option lines computed with the `in` operator: none when neither field has an options object |
| OptionDiff.AddedAgrees | commands/diff.ts:250-254 | When no new key is an inherited property name, the `in` test and the own-key test give the same added lines |
| OptionDiff.RemovedAgrees | commands/diff.ts:257-261 | When no old key is an inherited property name, the two tests give the same removed lines |
| OptionDiff.ModifiedAgrees | commands/diff.ts:264-268 | When no new key is an inherited property name, the two tests give the same modified lines |
| OptionDiff.AsWrittenAgreesOnOwnNames | commands/diff.ts:250-268 | When no key is an inherited property name, the `in` test and the own-key test give the same lines |
| OptionDiff.InheritedNameAddedAsWritten | commands/diff.ts:250-266 | A new option `toString` is printed as a modification from `undefined`, where an addition is due |
| OptionDiff.InheritedNameRemovedAsWritten | commands/diff.ts:257-261 | A dropped option `constructor` is not printed at all, where a removal is due |
| Format.FieldDiffLines | commands/diff.ts:214-227 | A field entry starts with its header line; it has further lines exactly for a created field with a non-empty options object, and then they are `    options:` followed by one `      + <key>: <value>` line per entry, in order |
| Format.FieldChanges | commands/diff.ts:229-269 | A rename puts the `name:` line first; when name, type and description agree, the change lines are the option lines alone |
| Format.FieldChangeLines | commands/diff.ts:271 | Every change line is the change indented by four spaces, in the same order |
| Format.FieldBlocks | commands/diff.ts:285-287 | Entries of a field list: empty exactly for no fields, at least one line per field, starting with the first field's indented header |
| Format.ChangeBlock | commands/diff.ts:292 | Under an updated field: one empty line when there are no changes, otherwise each change indented by four spaces, in order |
| Format.UpdatedFieldBlocks | commands/diff.ts:290-293 | Entries of the updated fields: empty exactly for no pairs, at least two lines per pair, starting with the first new field's `~` header |
| Format.TableDiffLines | commands/diff.ts:274-307 | A table entry starts with its header line |
| Format.AsKind | commands/diff.ts:313-325 | Each created or deleted table becomes an entry of that kind, in order |
| Format.TableBlocks | commands/diff.ts:313-325 | Entries of a table list: empty exactly for no tables, at least two lines per table, starting with the first table's header and ending with an empty line |
| Format.SchemaDiffLines | commands/diff.ts:309-328 | The report starts with `Base: <id>` and an empty line, and ends with an empty line |
| Report.OptionChangesOrdered | commands/diff.ts:245-269 | Option lines come as added, then removed, then modified |
| Report.FieldChangesOrdered | commands/diff.ts:229-272 | Change lines come in the fixed order name, type, description, added, removed and modified options |
| Report.FieldChangesEmpty | commands/diff.ts:229-272 | An updated field shows no change lines exactly when name, type and description are equal and the options are equal as maps |
| Report.RenameChangeLine | commands/diff.ts:232-234 | A rename alone yields the single line `name: <old> → <new>` |
| Report.FieldChangesMembers | commands/diff.ts:229-269 | A line is a change line exactly when it is `name: <old> → <new>` for a changed name, `type: <old> → <new>` for a changed type, `description: "<old>" → "<new>"` (absent printed as empty) for a changed description, or an option line |
| Report.DroppedDescriptionLine | commands/diff.ts:240-242 | Removing a field's description `x` prints `description: "x" → ""` |
| Report.AddedDescriptionLine | commands/diff.ts:240-242 | Giving a field a description it lacked yields one description line, with the missing one printed as `""` |
| Report.ModifiedOne | commands/diff.ts:264-268 | Changing one option's value yields exactly one modified line for that key |
| Report.OptionValueChangeLine | commands/diff.ts:245-268 | A field whose only change is one option's value shows the single line `options: ~ <key>: <old> → <new>` |
| Report.KeyOrderIsUpdate | commands/diff.ts:143 | Two fields whose options differ only in entry order count as one updated pair |
| Report.KeyOrderHasNoChangeLines | commands/diff.ts:245-269 | Such a field has no change lines, and its entry is followed by one empty line |
| Report.FieldBlockLines | commands/diff.ts:286 | A field entry contributes its header as its one field line and no table line |
| Report.FieldBlocksLines | commands/diff.ts:285-287 | The field lines of a run of entries are their headers, in order |
| Report.PlainFieldBlocks | commands/diff.ts:214-227 | Updated and deleted fields print their indented header line alone, never an options listing |
| Report.ChangeBlockLines | commands/diff.ts:292 | In the list of lines, change lines are never mistaken for field or table lines; read back from the text this needs single-line values (`ReadBack.ReportReadsBack`) |
| Report.UpdatedFieldBlocksLines | commands/diff.ts:290-293 | The updated fields' lines list their new values' headers, in order |
| Report.UpdateEntryFieldLines | commands/diff.ts:283-298 | An UPDATE entry lists the created fields with `+`, then the updated fields with `~`, then the deleted fields with `-` |
| Report.CreateEntryFieldLines | commands/diff.ts:299-303 | A CREATE entry lists every field of the table with `+`, in order |
| Report.DeleteEntryIsHeaderOnly | commands/diff.ts:274-307 | A DELETE entry is its header line alone |
| Report.EntryTableLines | commands/diff.ts:274-307 | Each table entry holds exactly one table line, its header |
| Report.TableBlocksLines | commands/diff.ts:313-325 | The table lines of a run of entries are their headers, in order |
| Report.ReportTableLines | commands/diff.ts:309-328 | In the report's list of lines, the table lines are the created headers, then the updated, then the deleted, each in list order, and nothing else looks like one; read back from the text this needs single-line values (`ReadBack.ReportReadsBack`) |
| Report.EmptyReport | commands/diff.ts:309-328 | An empty diff prints as the base line and two empty lines |
| Report.SelfDiffReport | commands/diff.ts:309-328 | Diffing a base with unique table ids against itself prints `Base: <id>` followed by two newlines |
| Render.FormatFieldDiff | commands/diff.ts:214-227 | The text built by the field-entry code is the join of the field entry's lines |
| Render.PushAdded | commands/diff.ts:250-254 | The added-options loop appends exactly the added lines |
| Render.PushRemoved | commands/diff.ts:257-261 | The removed-options loop appends exactly the removed lines |
| Render.PushModified | commands/diff.ts:264-268 | The modified-options loop appends exactly the modified lines |
| Render.FormatFieldChanges | commands/diff.ts:229-272 | The text built by the change code is the join of the indented change lines |
| Render.AppendFieldBlocks | commands/diff.ts:285-287 | Each loop over a field list appends that list's entries to the text |
| Render.AppendUpdatedBlocks | commands/diff.ts:290-293 | The updated-field loop appends each entry followed by its change lines |
| Render.FormatTableDiff | commands/diff.ts:274-307 | The text built by the table-entry code is the join of the table entry's lines |
| Render.AppendTableBlocks | commands/diff.ts:313-325 | Each loop over a table list appends its entries, each followed by an empty line |
| Render.FormatSchemaDiff | commands/diff.ts:309-328 | The text built by the report code is the join of the report's lines |
| ReadBack.DiffOfOneLineBases | commands/diff.ts:187-211 | Every table and field of the diff of two single-line snapshots comes from one of them, so the diff holds no newline either |
| ReadBack.FieldSetOfOneLineTables | commands/diff.ts:129-156 | The field diff of two single-line tables holds only their fields |
| ReadBack.FieldDiffLinesOneLine | commands/diff.ts:214-227 | A single-line field prints its entry, options listing included, without a newline inside any line |
| ReadBack.AddedOneLine | commands/diff.ts:250-254 | The added-option lines of single-line entries hold no newline |
| ReadBack.RemovedOneLine | commands/diff.ts:257-261 | The removed-option lines of single-line entries hold no newline |
| ReadBack.ModifiedOneLine | commands/diff.ts:264-268 | The modified-option lines of single-line entries hold no newline |
| ReadBack.FieldChangesOneLine | commands/diff.ts:229-272 | The change lines of two single-line fields hold no newline |
| ReadBack.TableDiffLinesOneLine | commands/diff.ts:274-307 | A table entry of single-line values holds no newline inside any line |
| ReadBack.SchemaDiffLinesOneLine | commands/diff.ts:309-328 | No line of the report of a single-line diff holds a newline |
| ReadBack.ReportReadsBack | commands/diff.ts:309-328 | For snapshots without newlines in any printed value, splitting the report's text at newlines gives exactly the report's lines |
| ReadBack.MultiLineDescriptionSplits | commands/diff.ts:240-242 | A description holding a newline makes its change text split into more lines than were printed as one |

## Left out

- The `diff` command's file reading, JSON parsing, console output and error handling (commands/diff.ts:40-92). These are I/O and CLI plumbing; the two snapshots are the model's inputs.
- The JSON output mode of the command (commands/diff.ts:69-71), which serialises the diff record as indented JSON without going through the text formatter. It is serialisation only.
- `colorizeDiff` (commands/diff.ts:331-367). It wraps lines in ANSI colours from an external library and is cosmetic.
- Schema validation (`commands/validate.ts`). It calls an external JSON-Schema validator. Its guarantees, unique ids and well-formed snapshots, appear as preconditions where a property needs them.
- Rendering of arbitrary JSON values (`JSON.stringify(value)`). Option values are opaque, already-rendered strings, and the `views` of a table are opaque text that only takes part in the equality test.
- The attribute order of a serialised field or table. Datatype equality stands for `JSON.stringify` equality, which assumes both snapshots list a record's attributes in the same order, as snapshots written by one tool do.
- A `null` options object or description. The model assumes a field's options object is either an object or absent, and its description a string or absent, so it has `None` or `Some`. The formatter's truthiness tests (commands/diff.ts:219, 241 and 245-247) would treat `null` like an absent value, but the whole-value comparison would still tell `null` from absent.
- Values holding a newline. Field descriptions may span several lines, and the formatter prints every value as it is (commands/diff.ts:216, 233-242, 252-266). The report's text then has more lines than the line model, and a continuation line can look like a table or field entry. `ReadBack.ReportReadsBack` requires values without newlines, and `ReadBack.MultiLineDescriptionSplits` shows that a multi-line description cannot be read back.
- OptionDiff.Added: uses the corrected own-key test `HasKey` in place of `!(key in oldOptions)` at commands/diff.ts:251; the code as written is `AddedAsWritten`, and `AddedAgrees` shows the two give the same lines unless a new key is an inherited property name (see Findings).
- OptionDiff.Removed: uses `HasKey` in place of `!(key in newOptions)` at commands/diff.ts:258; the code as written is `RemovedAsWritten`, and `RemovedAgrees` shows the two agree unless an old key is an inherited property name (see Findings).
- OptionDiff.Modified: uses the own-key lookup in place of `key in oldOptions` and `oldOptions[key]` at commands/diff.ts:265; the code as written is `ModifiedAsWritten`, and `ModifiedAgrees` shows the two agree unless a new key is an inherited property name.
- OptionDiff.OptionChanges: is built from the three corrected members above; the code as written is `OptionChangesAsWritten`, and `AsWrittenAgreesOnOwnNames` shows the two give the same lines unless a key is an inherited property name (see Findings).
- Format.FieldChanges: builds its option lines with the corrected own-key test, not with `in` (see Findings and `OptionDiff.AsWrittenAgreesOnOwnNames`).
- Report.FieldChangesEmpty: is proved for the corrected own-key test; as written, dropping an option named like an inherited property leaves the maps different yet prints no line (`OptionDiff.InheritedNameRemovedAsWritten`).
- Render.PushAdded: the loop of commands/diff.ts:250-254 with `!HasKey` for `!(key in oldOptions)`; on keys that are not inherited property names the two agree (`OptionDiff.AddedAgrees`).
- Render.PushRemoved: the loop of commands/diff.ts:257-261 with `!HasKey` for `!(key in newOptions)`; on keys that are not inherited property names the two agree (`OptionDiff.RemovedAgrees`).
- Render.PushModified: the loop of commands/diff.ts:264-268 with the own-key lookup for `key in oldOptions` and `oldOptions[key]`; on keys that are not inherited property names the two agree (`OptionDiff.ModifiedAgrees`).
- Render.FormatFieldChanges: assembles the change text from the three loops above, so it uses the corrected own-key test; `OptionDiff.AsWrittenAgreesOnOwnNames` relates it to the code as written.
- OptionDiff.OptionChangesAsWritten: states only the case with no options objects. Its behaviour on inherited names is shown by the two counterexample lemmas and its agreement elsewhere by `AsWrittenAgreesOnOwnNames`.

## Findings

| source | as written | input that shows it | evidently intended | confidence | as-written member | corrected member |
|---|---|---|---|---|---|---|
| commands/diff.ts:251 | `key in oldOptions` is also true for the names every object inherits from `Object.prototype`, so a new option named like one of them is taken as already present | old options `{}`, new options `{"toString": 1}`: the line printed is `options: ~ toString: undefined → 1` | `options: + toString: 1` | not executed | OptionDiff.InheritedNameAddedAsWritten | OptionDiff.NewKeyIsAdded |
| commands/diff.ts:258 | `key in newOptions` is true for inherited names, so a dropped option named like one of them is never reported | old options `{"constructor": 1}`, new options `{}`: no option line is printed | `options: - constructor: 1` | not executed | OptionDiff.InheritedNameRemovedAsWritten | OptionDiff.OldKeyIsRemoved |

The rest of the model uses the corrected own-key test (`OptionDiff.HasKey`),
for which `OptionDiff.OptionChangesEmpty` proves that the option lines are
empty exactly when the two objects are equal as maps.
