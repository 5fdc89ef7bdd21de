/** The text report, line by line. Each function yields the lines of one
    piece of the report; the report's text is their `Join`. */
module Format {
  import opened Schema
  import opened Matching
  import opened Compare
  import opened Lines
  import opened OptionDiff

  function Sigil(kind: ChangeKind): string
  {
    match kind
    case Create => "+"
    case Update => "~"
    case Delete => "-"
  }

  function Label(kind: ChangeKind): string
  {
    match kind
    case Create => "NEW TABLE"
    case Update => "MODIFIED TABLE"
    case Delete => "REMOVED TABLE"
  }

  function TableHeader(kind: ChangeKind, t: Table): string
  {
    Sigil(kind) + " " + t.name + " (" + Label(kind) + ")"
  }

  function FieldHeader(kind: ChangeKind, f: Field): string
  {
    Sigil(kind) + " " + f.name + " (" + f.fieldType + ")"
  }

  /** The lines of one field entry: its header, then, for a created field
      with a non-empty options object, an `options:` listing. */
  function FieldDiffLines(f: Field, kind: ChangeKind): (ls: seq<string>)
    ensures |ls| > 0 && ls[0] == FieldHeader(kind, f)
    ensures |ls| > 1 <==> kind == Create && f.options.Some? && |f.options.value| > 0
    ensures forall i :: 1 <= i < |ls| ==> |ls[i]| > 2 && ls[i][..3] == "   "
    ensures |ls| > 1 ==>
      && f.options.Some?
      && |ls| == |f.options.value| + 2
      && ls[1] == "    options:"
      && forall i :: 0 <= i < |f.options.value| ==>
           ls[i + 2] == "      + " + f.options.value[i].key + ": " + f.options.value[i].value
  {
    if kind == Create && f.options.Some? && |f.options.value| > 0 then
      var os := CreatedOptionLines(f.options.value);
      assert forall i :: 0 <= i < |os| ==> os[i][..3] == "   ";
      [FieldHeader(kind, f), "    options:"] + os
    else [FieldHeader(kind, f)]
  }

  function DescriptionText(d: Option<string>): string
  {
    if d.Some? then d.value else ""
  }

  function NameChange(before: Field, after: Field): seq<string>
  {
    if before.name != after.name then ["name: " + before.name + Arrow + after.name] else []
  }

  function TypeChange(before: Field, after: Field): seq<string>
  {
    if before.fieldType != after.fieldType then ["type: " + before.fieldType + Arrow + after.fieldType] else []
  }

  /** An absent description prints as the empty string, but absent and empty
      still count as a change. */
  function DescriptionChange(before: Field, after: Field): seq<string>
  {
    if before.description != after.description then
      ["description: \"" + DescriptionText(before.description) + "\"" + Arrow
       + "\"" + DescriptionText(after.description) + "\""]
    else []
  }

  /** The attribute changes of an updated field, unindented: name, type,
      description, then the option lines. */
  function FieldChanges(before: Field, after: Field): (cs: seq<string>)
    ensures before.name != after.name ==> |cs| > 0 && cs[0] == "name: " + before.name + Arrow + after.name
    ensures before.name == after.name && before.fieldType == after.fieldType && before.description == after.description
      ==> cs == OptionChanges(before.options, after.options)
  {
    NameChange(before, after) + TypeChange(before, after) + DescriptionChange(before, after)
    + OptionChanges(before.options, after.options)
  }

  /** `FieldChanges`, each line indented by four spaces. */
  function FieldChangeLines(before: Field, after: Field): (ls: seq<string>)
    ensures |ls| == |FieldChanges(before, after)|
    ensures forall i :: 0 <= i < |ls| ==> ls[i] == "    " + FieldChanges(before, after)[i]
  {
    Indent(FieldChanges(before, after))
  }

  function Indent(cs: seq<string>): (ls: seq<string>)
    ensures |ls| == |cs|
    ensures forall i :: 0 <= i < |cs| ==> ls[i] == "    " + cs[i]
  {
    if |cs| == 0 then [] else ["    " + cs[0]] + Indent(cs[1..])
  }

  /** Two spaces before the first line of a block; the rest keeps its own
      indentation. */
  function IndentFirst(ls: seq<string>): seq<string>
    requires |ls| > 0
  {
    ["  " + ls[0]] + ls[1..]
  }

  function FieldBlock(f: Field, kind: ChangeKind): seq<string>
  {
    IndentFirst(FieldDiffLines(f, kind))
  }

  /** The field entries of one kind, in order. */
  function FieldBlocks(fs: seq<Field>, kind: ChangeKind): (ls: seq<string>)
    ensures |ls| >= |fs|
    ensures |ls| == 0 <==> |fs| == 0
    ensures |fs| > 0 ==> ls[0] == "  " + FieldHeader(kind, fs[0])
  {
    if |fs| == 0 then [] else FieldBlock(fs[0], kind) + FieldBlocks(fs[1..], kind)
  }

  /** The change lines under an updated field; an empty change list still
      leaves one empty line. */
  function ChangeBlock(before: Field, after: Field): (ls: seq<string>)
    ensures |ls| > 0
    ensures FieldChanges(before, after) == [] ==> ls == [""]
    ensures FieldChanges(before, after) != [] ==>
      |ls| == |FieldChanges(before, after)| && forall i :: 0 <= i < |ls| ==> ls[i] == "    " + FieldChanges(before, after)[i]
  {
    var cs := FieldChangeLines(before, after);
    if |cs| == 0 then [""] else cs
  }

  /** Each updated field: its `~` header, then its change lines. */
  function UpdatedFieldBlocks(ps: seq<Pair<Field>>): (ls: seq<string>)
    ensures |ls| >= 2 * |ps|
    ensures |ls| == 0 <==> |ps| == 0
    ensures |ps| > 0 ==> ls[0] == "  " + FieldHeader(Update, ps[0].after)
  {
    if |ps| == 0 then []
    else FieldBlock(ps[0].after, Update) + ChangeBlock(ps[0].before, ps[0].after) + UpdatedFieldBlocks(ps[1..])
  }

  /** The lines of one table entry: the header, then the field entries of an
      update (created, updated, deleted) or every field of a created table. A
      deleted table shows its header only. */
  function TableDiffLines(td: TableDiff): (ls: seq<string>)
    ensures |ls| > 0 && ls[0] == TableHeader(td.kind, td.table)
  {
    [TableHeader(td.kind, td.table)]
    + if td.kind == Update && td.fields.Some? then
        var fd := td.fields.value;
        FieldBlocks(fd.created, Create) + UpdatedFieldBlocks(fd.updated) + FieldBlocks(fd.deleted, Delete)
      else if td.kind == Create then FieldBlocks(td.table.fields, Create)
      else []
  }

  function AsKind(ts: seq<Table>, kind: ChangeKind): (r: seq<TableDiff>)
    ensures |r| == |ts|
    ensures forall i :: 0 <= i < |ts| ==> r[i] == TableDiff(kind, ts[i], None)
  {
    if |ts| == 0 then [] else [TableDiff(kind, ts[0], None)] + AsKind(ts[1..], kind)
  }

  /** Every table entry followed by an empty line. */
  function TableBlocks(tds: seq<TableDiff>): (ls: seq<string>)
    ensures |ls| >= 2 * |tds|
    ensures |ls| == 0 <==> |tds| == 0
    ensures |tds| > 0 ==> ls[0] == TableHeader(tds[0].kind, tds[0].table) && ls[|ls| - 1] == ""
  {
    if |tds| == 0 then [] else TableDiffLines(tds[0]) + [""] + TableBlocks(tds[1..])
  }

  /** The whole report: the base line, an empty line, the created, updated
      and deleted table entries, and a final empty line. */
  function SchemaDiffLines(d: SchemaDiff): (ls: seq<string>)
    ensures |ls| >= 3 && ls[0] == "Base: " + d.baseId && ls[1] == "" && ls[|ls| - 1] == ""
  {
    ["Base: " + d.baseId, ""]
    + TableBlocks(AsKind(d.tables.created, Create))
    + TableBlocks(d.tables.updated)
    + TableBlocks(AsKind(d.tables.deleted, Delete))
    + [""]
  }
}
