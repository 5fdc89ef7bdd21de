/** The diff record and the functions that build it: field lists and table
    lists are matched by id, and every updated table gets a field-level diff
    against the old table bearing its id. */
module Compare {
  import opened Schema
  import opened Matching

  datatype ChangeKind = Create | Update | Delete

  /** Field-level changes of one table; `updated` holds old/new pairs. */
  datatype FieldSetDiff = FieldSetDiff(created: seq<Field>, updated: seq<Pair<Field>>, deleted: seq<Field>)

  /** Table-level matching result; `updated` holds the new-side tables. */
  datatype TableSetDiff = TableSetDiff(created: seq<Table>, updated: seq<Table>, deleted: seq<Table>)

  /** One table change; `fields` is filled in for updates only. */
  datatype TableDiff = TableDiff(kind: ChangeKind, table: Table, fields: Option<FieldSetDiff>)

  datatype TableChanges = TableChanges(created: seq<Table>, updated: seq<TableDiff>, deleted: seq<Table>)

  datatype SchemaDiff = SchemaDiff(baseId: string, tables: TableChanges)

  /** Classify a table's fields: created (new order), updated pairs (new
      order, values differ), deleted (old order). */
  function CompareFieldSets(olds: seq<Field>, news: seq<Field>): (d: FieldSetDiff)
    ensures forall f :: f in d.created <==> f in news && f.id !in Ids(olds, FieldId)
    ensures forall p :: p in d.updated <==>
      p.after in news && Find(olds, FieldId, p.after.id) == Some(p.before) && p.before != p.after
    ensures forall f :: f in d.deleted <==> f in olds && f.id !in Ids(news, FieldId)
  {
    UnmatchedMembers(news, olds, FieldId);
    UnmatchedMembers(olds, news, FieldId);
    ChangedMembers(olds, news, FieldId);
    FieldSetDiff(Unmatched(news, olds, FieldId), Changed(olds, news, FieldId), Unmatched(olds, news, FieldId))
  }

  /** Classify a base's tables: created (new order), updated new-side tables
      (new order, values differ), deleted (old order). */
  function CompareTableSets(olds: seq<Table>, news: seq<Table>): (d: TableSetDiff)
    ensures forall t :: t in d.created <==> t in news && t.id !in Ids(olds, TableId)
    ensures forall t :: t in d.updated <==>
      t in news && Find(olds, TableId, t.id).Some? && Find(olds, TableId, t.id).value != t
    ensures forall t :: t in d.deleted <==> t in olds && t.id !in Ids(news, TableId)
  {
    UnmatchedMembers(news, olds, TableId);
    UnmatchedMembers(olds, news, TableId);
    UpdatedTables(olds, news);
    TableSetDiff(Unmatched(news, olds, TableId), Afters(Changed(olds, news, TableId)), Unmatched(olds, news, TableId))
  }

  lemma UpdatedTables(olds: seq<Table>, news: seq<Table>)
    ensures forall t :: t in Afters(Changed(olds, news, TableId)) <==>
      t in news && Find(olds, TableId, t.id).Some? && Find(olds, TableId, t.id).value != t
  {
    var ps := Changed(olds, news, TableId);
    var afters := Afters(ps);
    ChangedMembers(olds, news, TableId);
    forall t ensures t in afters <==> t in news && Find(olds, TableId, t.id).Some? && Find(olds, TableId, t.id).value != t {
      if t in afters {
        var i :| 0 <= i < |afters| && afters[i] == t;
        assert ps[i] in ps;
      }
      if t in news && Find(olds, TableId, t.id).Some? && Find(olds, TableId, t.id).value != t {
        var o :| Find(olds, TableId, t.id) == Some(o) && o != t;
        assert Pair(o, t) in ps;
        var i :| 0 <= i < |ps| && ps[i] == Pair(o, t);
        assert afters[i] == t;
      }
    }
  }

  /** One UPDATE entry per updated table, in order, each carrying the diff of
      the old table with the same id against the new one. */
  function UpdatedDiffs(oldTables: seq<Table>, updated: seq<Table>): (r: seq<TableDiff>)
    requires forall i :: 0 <= i < |updated| ==> updated[i].id in Ids(oldTables, TableId)
    ensures |r| == |updated|
  {
    if |updated| == 0 then []
    else
      var rest := updated[1..];
      assert forall i :: 0 <= i < |rest| ==> rest[i] == updated[i + 1];
      [UpdateEntry(oldTables, updated[0])] + UpdatedDiffs(oldTables, rest)
  }

  /** Entry `i` is the UPDATE entry of the `i`-th updated table. */
  lemma {:induction false} UpdatedDiffsInOrder(oldTables: seq<Table>, updated: seq<Table>)
    requires forall i :: 0 <= i < |updated| ==> updated[i].id in Ids(oldTables, TableId)
    ensures var r := UpdatedDiffs(oldTables, updated);
      forall i :: 0 <= i < |r| ==> r[i].kind == Update && r[i].table == updated[i]
  {
    if |updated| > 0 {
      var rest := updated[1..];
      assert forall i :: 0 <= i < |rest| ==> rest[i] == updated[i + 1];
      UpdatedDiffsInOrder(oldTables, rest);
      var r, tail := UpdatedDiffs(oldTables, updated), UpdatedDiffs(oldTables, rest);
      assert r == [UpdateEntry(oldTables, updated[0])] + tail;
      forall i | 0 <= i < |r| ensures r[i].kind == Update && r[i].table == updated[i] {
        if i > 0 { assert r[i] == tail[i - 1]; }
      }
    }
  }

  /** The UPDATE entry of one changed table: its fields diffed against the
      old table bearing its id. */
  function UpdateEntry(oldTables: seq<Table>, t: Table): (u: TableDiff)
    requires t.id in Ids(oldTables, TableId)
    ensures u.kind == Update && u.table == t
  {
    var o := Find(oldTables, TableId, t.id).value;
    TableDiff(Update, t, Some(CompareFieldSets(o.fields, t.fields)))
  }

  /** The whole diff: the new base's id, the matched table lists, and a
      field-level diff for every updated table. */
  function CompareSchemas(oldBase: Base, newBase: Base): (d: SchemaDiff)
    ensures d.baseId == newBase.id
    ensures d.tables.created == CompareTableSets(oldBase.tables, newBase.tables).created
    ensures d.tables.deleted == CompareTableSets(oldBase.tables, newBase.tables).deleted
    ensures forall t :: t in d.tables.created <==> t in newBase.tables && t.id !in Ids(oldBase.tables, TableId)
    ensures forall t :: t in d.tables.deleted <==> t in oldBase.tables && t.id !in Ids(newBase.tables, TableId)
    ensures forall u :: u in d.tables.updated ==>
      && u.kind == Update
      && u.table in newBase.tables
      && Find(oldBase.tables, TableId, u.table.id).Some?
      && Find(oldBase.tables, TableId, u.table.id).value != u.table
      && u.fields == Some(CompareFieldSets(Find(oldBase.tables, TableId, u.table.id).value.fields, u.table.fields))
    ensures var ups := CompareTableSets(oldBase.tables, newBase.tables).updated;
      |d.tables.updated| == |ups| && forall i :: 0 <= i < |ups| ==> d.tables.updated[i].table == ups[i]
  {
    var sets := CompareTableSets(oldBase.tables, newBase.tables);
    var updated := UpdatedDiffs(oldBase.tables, sets.updated);
    UpdatedDiffsMatch(oldBase.tables, newBase.tables);
    UpdatedDiffsInOrder(oldBase.tables, sets.updated);
    SchemaDiff(newBase.id, TableChanges(sets.created, updated, sets.deleted))
  }

  lemma {:induction false} UpdatedDiffsAreFieldDiffs(oldTables: seq<Table>, updated: seq<Table>)
    requires forall i :: 0 <= i < |updated| ==> updated[i].id in Ids(oldTables, TableId)
    ensures forall u :: u in UpdatedDiffs(oldTables, updated) ==>
      && u.kind == Update
      && u.table in updated
      && Find(oldTables, TableId, u.table.id).Some?
      && u.fields == Some(CompareFieldSets(Find(oldTables, TableId, u.table.id).value.fields, u.table.fields))
  {
    if |updated| > 0 {
      var rest := updated[1..];
      assert forall i :: 0 <= i < |rest| ==> rest[i] == updated[i + 1];
      UpdatedDiffsAreFieldDiffs(oldTables, rest);
    }
  }

  lemma UpdatedDiffsMatch(olds: seq<Table>, news: seq<Table>)
    ensures var ups := CompareTableSets(olds, news).updated;
      (forall i :: 0 <= i < |ups| ==> ups[i].id in Ids(olds, TableId)) &&
      forall u :: u in UpdatedDiffs(olds, ups) ==>
        && u.kind == Update
        && u.table in news
        && Find(olds, TableId, u.table.id).Some?
        && Find(olds, TableId, u.table.id).value != u.table
        && u.fields == Some(CompareFieldSets(Find(olds, TableId, u.table.id).value.fields, u.table.fields))
  {
    var ups := CompareTableSets(olds, news).updated;
    assert forall i :: 0 <= i < |ups| ==> ups[i] in ups;
    UpdatedDiffsAreFieldDiffs(olds, ups);
  }

  /** Diffing a field list with unique ids against itself reports nothing. */
  lemma {:induction false} FieldSetsReflexive(fs: seq<Field>)
    requires UniqueIds(fs, FieldId)
    ensures CompareFieldSets(fs, fs) == FieldSetDiff([], [], [])
  {
    SelfMatchIsEmpty(fs, FieldId);
  }

  /** Diffing a base whose table ids are unique against itself reports
      nothing at any level, and keeps the base id. */
  lemma {:induction false} SchemaReflexive(b: Base)
    requires UniqueIds(b.tables, TableId)
    ensures CompareSchemas(b, b) == SchemaDiff(b.id, TableChanges([], [], []))
  {
    SelfMatchIsEmpty(b.tables, TableId);
  }

  /** Renaming one field keeps its id: the field is neither created nor
      deleted, and it is the single updated pair. */
  lemma {:induction false} FieldRenameIsUpdate(fs: seq<Field>, i: int, name: string)
    requires UniqueIds(fs, FieldId)
    requires 0 <= i < |fs| && name != fs[i].name
    ensures CompareFieldSets(fs, fs[i := fs[i].(name := name)])
         == FieldSetDiff([], [Pair(fs[i], fs[i].(name := name))], [])
  {
    ReplaceOne(fs, i, fs[i].(name := name), FieldId);
  }

  /** Renaming one table keeps its id: the table is neither created nor
      deleted; it is the single updated table, and, its fields unchanged, its
      field-level diff is empty. */
  lemma {:induction false} TableRenameIsUpdate(b: Base, i: int, name: string, newId: string)
    requires UniqueIds(b.tables, TableId)
    requires 0 <= i < |b.tables| && name != b.tables[i].name
    requires UniqueIds(b.tables[i].fields, FieldId)
    ensures var renamed := b.tables[i].(name := name);
      CompareSchemas(b, Base(newId, b.tables[i := renamed]))
        == SchemaDiff(newId, TableChanges([], [TableDiff(Update, renamed, Some(FieldSetDiff([], [], [])))], []))
  {
    var renamed := b.tables[i].(name := name);
    ReplaceOne(b.tables, i, renamed, TableId);
    assert CompareTableSets(b.tables, b.tables[i := renamed]) == TableSetDiff([], [renamed], []);
    FindUnique(b.tables, TableId, i);
    FieldSetsReflexive(renamed.fields);
    assert UpdatedDiffs(b.tables, [renamed]) == [TableDiff(Update, renamed, Some(FieldSetDiff([], [], [])))];
  }

  /** With unique ids on each side, no field id occurs twice across created,
      updated and deleted. */
  lemma FieldSetsPartition(olds: seq<Field>, news: seq<Field>)
    requires UniqueIds(olds, FieldId) && UniqueIds(news, FieldId)
    ensures var d := CompareFieldSets(olds, news);
      Distinct(Ids(d.created, FieldId) + Ids(Afters(d.updated), FieldId) + Ids(d.deleted, FieldId))
  {
    Partition(olds, news, FieldId);
  }

  /** With unique ids on each side, no table id occurs twice across created,
      updated and deleted. */
  lemma TableSetsPartition(olds: seq<Table>, news: seq<Table>)
    requires UniqueIds(olds, TableId) && UniqueIds(news, TableId)
    ensures var d := CompareTableSets(olds, news);
      Distinct(Ids(d.created, TableId) + Ids(d.updated, TableId) + Ids(d.deleted, TableId))
  {
    Partition(olds, news, TableId);
  }

  /** Created and updated entries follow the new list's order and deleted
      entries the old list's: splitting one side splits its results in place. */
  lemma FieldOrderPreserved(olds: seq<Field>, a: seq<Field>, b: seq<Field>)
    ensures CompareFieldSets(olds, a + b).created == CompareFieldSets(olds, a).created + CompareFieldSets(olds, b).created
    ensures CompareFieldSets(olds, a + b).updated == CompareFieldSets(olds, a).updated + CompareFieldSets(olds, b).updated
    ensures CompareFieldSets(a + b, olds).deleted == CompareFieldSets(a, olds).deleted + CompareFieldSets(b, olds).deleted
  {
    UnmatchedAppend(a, b, olds, FieldId);
    ChangedAppend(olds, a, b, FieldId);
  }

  /** Created and updated tables follow the new base's order and deleted
      tables the old base's. */
  lemma TableOrderPreserved(olds: seq<Table>, a: seq<Table>, b: seq<Table>)
    ensures CompareTableSets(olds, a + b).created == CompareTableSets(olds, a).created + CompareTableSets(olds, b).created
    ensures CompareTableSets(olds, a + b).updated == CompareTableSets(olds, a).updated + CompareTableSets(olds, b).updated
    ensures CompareTableSets(a + b, olds).deleted == CompareTableSets(a, olds).deleted + CompareTableSets(b, olds).deleted
  {
    UnmatchedAppend(a, b, olds, TableId);
    ChangedAppend(olds, a, b, TableId);
    AftersAppend(Changed(olds, a, TableId), Changed(olds, b, TableId));
  }
}
