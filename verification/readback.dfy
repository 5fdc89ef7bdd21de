/** Reading the report back. The formatter prints names, types, descriptions
    and option text as they are, so a value holding a newline breaks its line
    in two. When no printed value holds one, splitting the report at newlines
    gives its lines back, and every property stated about the lines is a
    property of the text. */
module ReadBack {
  import opened Schema
  import opened Matching
  import opened Compare
  import opened Lines
  import opened OptionDiff
  import opened Format
  import opened Report

  predicate OneLine(s: string) { '\n' !in s }

  predicate AllOneLine(ls: seq<string>)
  {
    forall l :: l in ls ==> OneLine(l)
  }

  predicate EntriesOneLine(es: seq<Entry>)
  {
    forall e :: e in es ==> OneLine(e.key) && OneLine(e.value)
  }

  /** Every text of a field the report can print is a single line. */
  predicate FieldOneLine(f: Field)
  {
    && OneLine(f.name)
    && OneLine(f.fieldType)
    && OneLine(DescriptionText(f.description))
    && EntriesOneLine(Entries(f.options))
  }

  predicate TableOneLine(t: Table)
  {
    OneLine(t.name) && forall f :: f in t.fields ==> FieldOneLine(f)
  }

  /** No base id, table or field name, type, description, option key or
      option value of the snapshot holds a newline. */
  predicate BaseOneLine(b: Base)
  {
    OneLine(b.id) && forall t :: t in b.tables ==> TableOneLine(t)
  }

  predicate FieldSetOneLine(fd: FieldSetDiff)
  {
    && (forall f :: f in fd.created ==> FieldOneLine(f))
    && (forall p :: p in fd.updated ==> FieldOneLine(p.before) && FieldOneLine(p.after))
    && (forall f :: f in fd.deleted ==> FieldOneLine(f))
  }

  predicate EntryOneLine(td: TableDiff)
  {
    TableOneLine(td.table) && (td.fields.Some? ==> FieldSetOneLine(td.fields.value))
  }

  predicate DiffOneLine(d: SchemaDiff)
  {
    && OneLine(d.baseId)
    && (forall t :: t in d.tables.created ==> TableOneLine(t))
    && (forall u :: u in d.tables.updated ==> EntryOneLine(u))
    && (forall t :: t in d.tables.deleted ==> TableOneLine(t))
  }

  // ---------------------------------------------------------------------
  // From the snapshots to the diff

  /** Diffing two single-line snapshots yields a diff whose every table and
      field comes from one of them. */
  lemma DiffOfOneLineBases(oldBase: Base, newBase: Base)
    requires BaseOneLine(oldBase) && BaseOneLine(newBase)
    ensures DiffOneLine(CompareSchemas(oldBase, newBase))
  {
    var d := CompareSchemas(oldBase, newBase);
    forall u | u in d.tables.updated ensures EntryOneLine(u) {
      var o := Find(oldBase.tables, TableId, u.table.id).value;
      assert TableOneLine(o) && TableOneLine(u.table);
      FieldSetOfOneLineTables(o, u.table);
    }
  }

  lemma FieldSetOfOneLineTables(o: Table, t: Table)
    requires TableOneLine(o) && TableOneLine(t)
    ensures FieldSetOneLine(CompareFieldSets(o.fields, t.fields))
  {
    var fd := CompareFieldSets(o.fields, t.fields);
    forall p | p in fd.updated ensures FieldOneLine(p.before) && FieldOneLine(p.after) {
      assert Find(o.fields, FieldId, p.after.id) == Some(p.before);
    }
  }

  // ---------------------------------------------------------------------
  // From the diff to the report's lines

  lemma ArrowOneLine()
    ensures OneLine(Arrow)
  {
    assert Arrow == [' ', '→', ' '];
  }

  lemma KindOneLine(kind: ChangeKind)
    ensures OneLine(Sigil(kind)) && OneLine(Label(kind))
  {
    match kind
    case Create => assert Label(kind) == "NEW TABLE";
    case Update => assert Label(kind) == "MODIFIED TABLE";
    case Delete => assert Label(kind) == "REMOVED TABLE";
  }

  lemma HeaderOneLine(kind: ChangeKind, f: Field)
    requires FieldOneLine(f)
    ensures OneLine(FieldHeader(kind, f))
  {
    KindOneLine(kind);
    var a, b := Sigil(kind) + " " + f.name, " (" + f.fieldType;
    assert OneLine(a) && OneLine(b);
    assert FieldHeader(kind, f) == a + b + ")";
  }

  lemma TableHeaderOneLine(kind: ChangeKind, t: Table)
    requires OneLine(t.name)
    ensures AllOneLine([TableHeader(kind, t)])
  {
    KindOneLine(kind);
    var a, b := Sigil(kind) + " " + t.name, " (" + Label(kind);
    assert OneLine(a) && OneLine(b);
    assert TableHeader(kind, t) == a + b + ")";
  }

  lemma AppendOneLine(a: seq<string>, b: seq<string>)
    requires AllOneLine(a) && AllOneLine(b)
    ensures AllOneLine(a + b)
  {
  }

  lemma ListingLineOneLine(e: Entry)
    requires OneLine(e.key) && OneLine(e.value)
    ensures OneLine("      + " + e.key + ": " + e.value)
  {
    var a, b := "      + ", ": ";
    assert '\n' !in a && '\n' !in b;
    assert "      + " + e.key + ": " + e.value == a + e.key + b + e.value;
  }

  lemma OptionsHeadingOneLine()
    ensures OneLine("    options:")
  {
  }

  lemma FieldDiffLinesOneLine(f: Field, kind: ChangeKind)
    requires FieldOneLine(f)
    ensures AllOneLine(FieldDiffLines(f, kind))
  {
    var ls := FieldDiffLines(f, kind);
    forall l | l in ls ensures OneLine(l) {
      var i :| 0 <= i < |ls| && ls[i] == l;
      if i == 0 {
        HeaderOneLine(kind, f);
      } else if i == 1 {
        OptionsHeadingOneLine();
      } else {
        var e := f.options.value[i - 2];
        assert e in Entries(f.options);
        ListingLineOneLine(e);
        assert l == "      + " + e.key + ": " + e.value;
      }
    }
  }

  lemma OptionLinesOneLine(k: string, v: string, w: string)
    requires OneLine(k) && OneLine(v) && OneLine(w)
    ensures OneLine(AddedLine(Entry(k, v))) && OneLine(RemovedLine(Entry(k, v)))
    ensures OneLine(ModifiedLine(k, v, w))
  {
    ArrowOneLine();
    var a, r, m, c := "options: + ", "options: - ", "options: ~ ", ": ";
    assert OneLine(a) && OneLine(r) && OneLine(m) && OneLine(c);
    assert AddedLine(Entry(k, v)) == a + k + c + v;
    assert RemovedLine(Entry(k, v)) == r + k + c + v;
    assert ModifiedLine(k, v, w) == m + k + c + v + Arrow + w;
  }

  lemma AddedOneLine(news: seq<Entry>, olds: seq<Entry>)
    requires EntriesOneLine(news)
    ensures AllOneLine(Added(news, olds))
  {
    AddedMembers(news, olds);
    forall l | l in Added(news, olds) ensures OneLine(l) {
      var e :| e in news && !HasKey(olds, e.key) && l == AddedLine(e);
      OptionLinesOneLine(e.key, e.value, e.value);
    }
  }

  lemma RemovedOneLine(olds: seq<Entry>, news: seq<Entry>)
    requires EntriesOneLine(olds)
    ensures AllOneLine(Removed(olds, news))
  {
    RemovedMembers(olds, news);
    forall l | l in Removed(olds, news) ensures OneLine(l) {
      var e :| e in olds && !HasKey(news, e.key) && l == RemovedLine(e);
      OptionLinesOneLine(e.key, e.value, e.value);
    }
  }

  lemma ModifiedOneLine(news: seq<Entry>, olds: seq<Entry>)
    requires EntriesOneLine(news) && EntriesOneLine(olds)
    ensures AllOneLine(Modified(news, olds))
  {
    ModifiedMembers(news, olds);
    forall l | l in Modified(news, olds) ensures OneLine(l) {
      var e, v :| e in news && Lookup(olds, e.key) == Some(v) && v != e.value && l == ModifiedLine(e.key, v, e.value);
      assert Entry(e.key, v) in olds;
      OptionLinesOneLine(e.key, v, e.value);
    }
  }

  lemma OptionChangesOneLine(before: Field, after: Field)
    requires FieldOneLine(before) && FieldOneLine(after)
    ensures AllOneLine(OptionChanges(before.options, after.options))
  {
    var olds, news := Entries(before.options), Entries(after.options);
    if before.options.Some? || after.options.Some? {
      AddedOneLine(news, olds);
      RemovedOneLine(olds, news);
      ModifiedOneLine(news, olds);
      AppendOneLine(Added(news, olds), Removed(olds, news));
      AppendOneLine(Added(news, olds) + Removed(olds, news), Modified(news, olds));
    }
  }

  lemma FieldChangesOneLine(before: Field, after: Field)
    requires FieldOneLine(before) && FieldOneLine(after)
    ensures AllOneLine(FieldChanges(before, after))
  {
    FieldChangesMembers(before, after);
    OptionChangesOneLine(before, after);
    ArrowOneLine();
  }

  lemma ChangeBlockOneLine(before: Field, after: Field)
    requires FieldOneLine(before) && FieldOneLine(after)
    ensures AllOneLine(ChangeBlock(before, after))
  {
    var cs, ls := FieldChanges(before, after), ChangeBlock(before, after);
    FieldChangesOneLine(before, after);
    forall l | l in ls ensures OneLine(l) {
      if cs != [] {
        var i :| 0 <= i < |ls| && ls[i] == l;
        assert cs[i] in cs;
      }
    }
  }

  lemma FieldBlockOneLine(f: Field, kind: ChangeKind)
    requires FieldOneLine(f)
    ensures AllOneLine(FieldBlock(f, kind))
  {
    var ls := FieldDiffLines(f, kind);
    FieldDiffLinesOneLine(f, kind);
    assert ls[0] in ls;
    assert forall l :: l in ls[1..] ==> l in ls;
  }

  lemma {:induction false} FieldBlocksOneLine(fs: seq<Field>, kind: ChangeKind)
    requires forall f :: f in fs ==> FieldOneLine(f)
    ensures AllOneLine(FieldBlocks(fs, kind))
  {
    if |fs| > 0 {
      assert fs[0] in fs;
      assert forall f :: f in fs[1..] ==> f in fs;
      FieldBlockOneLine(fs[0], kind);
      FieldBlocksOneLine(fs[1..], kind);
    }
  }

  lemma {:induction false} UpdatedFieldBlocksOneLine(ps: seq<Pair<Field>>)
    requires forall p :: p in ps ==> FieldOneLine(p.before) && FieldOneLine(p.after)
    ensures AllOneLine(UpdatedFieldBlocks(ps))
  {
    if |ps| > 0 {
      assert ps[0] in ps;
      assert forall p :: p in ps[1..] ==> p in ps;
      FieldBlockOneLine(ps[0].after, Update);
      ChangeBlockOneLine(ps[0].before, ps[0].after);
      UpdatedFieldBlocksOneLine(ps[1..]);
    }
  }

  lemma TableDiffLinesOneLine(td: TableDiff)
    requires EntryOneLine(td)
    ensures AllOneLine(TableDiffLines(td))
  {
    var h := [TableHeader(td.kind, td.table)];
    TableHeaderOneLine(td.kind, td.table);
    if td.kind == Update && td.fields.Some? {
      var fd := td.fields.value;
      var c, u, d := FieldBlocks(fd.created, Create), UpdatedFieldBlocks(fd.updated), FieldBlocks(fd.deleted, Delete);
      assert TableDiffLines(td) == h + (c + u + d);
      FieldBlocksOneLine(fd.created, Create);
      UpdatedFieldBlocksOneLine(fd.updated);
      FieldBlocksOneLine(fd.deleted, Delete);
      AppendOneLine(c, u);
      AppendOneLine(c + u, d);
      AppendOneLine(h, c + u + d);
    } else if td.kind == Create {
      assert TableDiffLines(td) == h + FieldBlocks(td.table.fields, Create);
      FieldBlocksOneLine(td.table.fields, Create);
      AppendOneLine(h, FieldBlocks(td.table.fields, Create));
    } else {
      assert TableDiffLines(td) == h;
    }
  }

  lemma {:induction false} TableBlocksOneLine(tds: seq<TableDiff>)
    requires forall td :: td in tds ==> EntryOneLine(td)
    ensures AllOneLine(TableBlocks(tds))
  {
    if |tds| > 0 {
      assert tds[0] in tds;
      assert forall td :: td in tds[1..] ==> td in tds;
      TableDiffLinesOneLine(tds[0]);
      TableBlocksOneLine(tds[1..]);
    }
  }

  lemma AsKindOneLine(ts: seq<Table>, kind: ChangeKind)
    requires forall t :: t in ts ==> TableOneLine(t)
    ensures forall td :: td in AsKind(ts, kind) ==> EntryOneLine(td)
  {
    var tds := AsKind(ts, kind);
    forall td | td in tds ensures EntryOneLine(td) {
      var i :| 0 <= i < |tds| && tds[i] == td;
      assert ts[i] in ts;
    }
  }

  /** Every line of the report of a single-line diff is a single line. */
  lemma SchemaDiffLinesOneLine(d: SchemaDiff)
    requires DiffOneLine(d)
    ensures AllOneLine(SchemaDiffLines(d))
  {
    AsKindOneLine(d.tables.created, Create);
    AsKindOneLine(d.tables.deleted, Delete);
    TableBlocksOneLine(AsKind(d.tables.created, Create));
    TableBlocksOneLine(d.tables.updated);
    TableBlocksOneLine(AsKind(d.tables.deleted, Delete));
  }

  /** For snapshots whose printed values are single lines, splitting the
      report's text at newlines gives back exactly the report's lines. */
  lemma ReportReadsBack(oldBase: Base, newBase: Base)
    requires BaseOneLine(oldBase) && BaseOneLine(newBase)
    ensures var ls := SchemaDiffLines(CompareSchemas(oldBase, newBase));
      Split(Join(ls)) == ls
  {
    var d := CompareSchemas(oldBase, newBase);
    assert DiffOneLine(d) by {
      DiffOfOneLineBases(oldBase, newBase);
    }
    SchemaDiffLinesOneLine(d);
    LinesReadBack(SchemaDiffLines(d));
  }

  lemma LinesReadBack(ls: seq<string>)
    requires |ls| > 0 && AllOneLine(ls)
    ensures Split(Join(ls)) == ls
  {
    assert forall i :: 0 <= i < |ls| ==> ls[i] in ls;
    SplitJoin(ls);
  }

  /** A description holding a newline cannot be read back: its change line
      comes out of the text as two lines. */
  lemma MultiLineDescriptionSplits(f: Field, text: string)
    requires '\n' in text && f.description != Some(text)
    ensures var ls := ChangeBlock(f, f.(description := Some(text)));
      Split(Join(ls)) != ls
  {
    var g := f.(description := Some(text));
    var ls := ChangeBlock(f, g);
    FieldChangesMembers(f, g);
    var l := "description: \"" + DescriptionText(f.description) + "\"" + Arrow + "\"" + text + "\"";
    assert l in FieldChanges(f, g);
    var i :| 0 <= i < |FieldChanges(f, g)| && FieldChanges(f, g)[i] == l;
    assert ls[i] == "    " + l;
    assert '\n' in ls[i];
    SplitJoinIff(ls);
  }
}
