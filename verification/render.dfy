/** The formatter as it builds its text: string accumulators and loops over
    the diff's lists. Each method's result is the `Join` of the line model in
    `Format`. When no printed value holds a newline, splitting that text gives
    the lines back (`ReadBack.ReportReadsBack`), so the properties stated about
    the lines hold of the text read line by line. */
module Render {
  import opened Schema
  import opened Matching
  import opened Compare
  import opened Lines
  import opened OptionDiff
  import opened Format

  // ---------------------------------------------------------------------
  // How the line model grows by one element

  lemma CreatedOptionLinesSnoc(es: seq<Entry>, i: int)
    requires 0 <= i < |es|
    ensures CreatedOptionLines(es[..i + 1])
         == CreatedOptionLines(es[..i]) + ["      + " + es[i].key + ": " + es[i].value]
  {
  }

  lemma AddedSnoc(news: seq<Entry>, olds: seq<Entry>, i: int)
    requires 0 <= i < |news|
    ensures Added(news[..i + 1], olds)
         == Added(news[..i], olds) + (if HasKey(olds, news[i].key) then [] else [AddedLine(news[i])])
  {
    assert news[..i + 1] == news[..i] + [news[i]];
    AddedAppend(news[..i], [news[i]], olds);
    assert [news[i]][1..] == [];
  }

  lemma RemovedSnoc(olds: seq<Entry>, news: seq<Entry>, i: int)
    requires 0 <= i < |olds|
    ensures Removed(olds[..i + 1], news)
         == Removed(olds[..i], news) + (if HasKey(news, olds[i].key) then [] else [RemovedLine(olds[i])])
  {
    assert olds[..i + 1] == olds[..i] + [olds[i]];
    RemovedAppend(olds[..i], [olds[i]], news);
    assert [olds[i]][1..] == [];
  }

  lemma ModifiedSnoc(news: seq<Entry>, olds: seq<Entry>, i: int)
    requires 0 <= i < |news|
    ensures Modified(news[..i + 1], olds)
         == Modified(news[..i], olds)
          + (if HasKey(olds, news[i].key) && Lookup(olds, news[i].key).value != news[i].value
             then [ModifiedLine(news[i].key, Lookup(olds, news[i].key).value, news[i].value)] else [])
  {
    assert news[..i + 1] == news[..i] + [news[i]];
    ModifiedAppend(news[..i], [news[i]], olds);
    assert [news[i]][1..] == [];
  }

  lemma {:induction false} FieldBlocksAppend(a: seq<Field>, b: seq<Field>, kind: ChangeKind)
    ensures FieldBlocks(a + b, kind) == FieldBlocks(a, kind) + FieldBlocks(b, kind)
  {
    if |a| > 0 {
      var h, t := FieldBlock(a[0], kind), a[1..];
      assert (a + b)[0] == a[0] && (a + b)[1..] == t + b;
      assert FieldBlocks(a + b, kind) == h + FieldBlocks(t + b, kind);
      FieldBlocksAppend(t, b, kind);
      AppendAssoc(h, FieldBlocks(t, kind), FieldBlocks(b, kind));
    } else {
      assert a + b == b;
    }
  }

  lemma FieldBlocksSnoc(p: seq<string>, fs: seq<Field>, i: int, kind: ChangeKind)
    requires 0 <= i < |fs|
    ensures p + FieldBlocks(fs[..i + 1], kind) == p + FieldBlocks(fs[..i], kind) + FieldBlock(fs[i], kind)
  {
    assert fs[..i + 1] == fs[..i] + [fs[i]];
    FieldBlocksAppend(fs[..i], [fs[i]], kind);
    assert [fs[i]][1..] == [];
  }

  lemma {:induction false} UpdatedFieldBlocksAppend(a: seq<Pair<Field>>, b: seq<Pair<Field>>)
    ensures UpdatedFieldBlocks(a + b) == UpdatedFieldBlocks(a) + UpdatedFieldBlocks(b)
  {
    if |a| > 0 {
      var h, t := FieldBlock(a[0].after, Update) + ChangeBlock(a[0].before, a[0].after), a[1..];
      assert (a + b)[0] == a[0] && (a + b)[1..] == t + b;
      assert UpdatedFieldBlocks(a + b) == h + UpdatedFieldBlocks(t + b);
      UpdatedFieldBlocksAppend(t, b);
      AppendAssoc(h, UpdatedFieldBlocks(t), UpdatedFieldBlocks(b));
    } else {
      assert a + b == b;
    }
  }

  lemma AppendAssoc<T>(a: seq<T>, b: seq<T>, c: seq<T>)
    ensures a + (b + c) == a + b + c
  {
  }

  lemma UpdatedFieldBlocksOne(q: Pair<Field>)
    ensures UpdatedFieldBlocks([q]) == FieldBlock(q.after, Update) + ChangeBlock(q.before, q.after)
  {
    assert [q][1..] == [];
  }

  lemma UpdatedFieldBlocksLast(ps: seq<Pair<Field>>, i: int)
    requires 0 <= i < |ps|
    ensures UpdatedFieldBlocks(ps[..i + 1])
         == UpdatedFieldBlocks(ps[..i]) + (FieldBlock(ps[i].after, Update) + ChangeBlock(ps[i].before, ps[i].after))
  {
    assert ps[..i + 1] == ps[..i] + [ps[i]];
    UpdatedFieldBlocksAppend(ps[..i], [ps[i]]);
    UpdatedFieldBlocksOne(ps[i]);
  }

  lemma UpdatedFieldBlocksSnoc(p: seq<string>, ps: seq<Pair<Field>>, i: int)
    requires 0 <= i < |ps|
    ensures p + UpdatedFieldBlocks(ps[..i + 1])
         == p + UpdatedFieldBlocks(ps[..i]) + FieldBlock(ps[i].after, Update) + ChangeBlock(ps[i].before, ps[i].after)
  {
    var a, f, c := UpdatedFieldBlocks(ps[..i]), FieldBlock(ps[i].after, Update), ChangeBlock(ps[i].before, ps[i].after);
    UpdatedFieldBlocksLast(ps, i);
    AppendAssoc(p, a, f + c);
    AppendAssoc(p + a, f, c);
  }

  lemma {:induction false} TableBlocksAppend(a: seq<TableDiff>, b: seq<TableDiff>)
    ensures TableBlocks(a + b) == TableBlocks(a) + TableBlocks(b)
  {
    if |a| > 0 {
      var h, t := TableDiffLines(a[0]) + [""], a[1..];
      assert (a + b)[0] == a[0] && (a + b)[1..] == t + b;
      assert TableBlocks(a + b) == h + TableBlocks(t + b);
      TableBlocksAppend(t, b);
      AppendAssoc(h, TableBlocks(t), TableBlocks(b));
    } else {
      assert a + b == b;
    }
  }

  lemma TableBlocksLast(tds: seq<TableDiff>, i: int)
    requires 0 <= i < |tds|
    ensures TableBlocks(tds[..i + 1]) == TableBlocks(tds[..i]) + (TableDiffLines(tds[i]) + [""])
  {
    assert tds[..i + 1] == tds[..i] + [tds[i]];
    TableBlocksAppend(tds[..i], [tds[i]]);
    assert [tds[i]][1..] == [];
  }

  lemma TableBlocksSnoc(p: seq<string>, tds: seq<TableDiff>, i: int)
    requires 0 <= i < |tds|
    ensures p + TableBlocks(tds[..i + 1]) + [""] == p + TableBlocks(tds[..i]) + TableDiffLines(tds[i]) + [""] + [""]
  {
    var a, t := TableBlocks(tds[..i]), TableDiffLines(tds[i]);
    TableBlocksLast(tds, i);
    AppendAssoc(p, a, t + [""]);
    AppendAssoc(p + a, t, [""]);
  }

  // ---------------------------------------------------------------------
  // How the text grows by one piece

  lemma Regroup(a: string, b: string, c: string, d: string)
    ensures a + b + (c + d) == a + (b + c) + d
  {
  }

  /** Appending `"\n  "` and a joined text appends its lines with the first
      one indented. */
  lemma JoinIndentFirst(p: seq<string>, ls: seq<string>)
    requires |p| > 0 && |ls| > 0
    ensures Join(p + IndentFirst(ls)) == Join(p) + "\n  " + Join(ls)
  {
    var b := IndentFirst(ls);
    assert Join(p + b) == Join(p) + "\n" + Join(b) by {
      JoinAppend(p, b);
    }
    assert Join(b) == "  " + Join(ls) by {
      JoinPrefix("  ", ls);
    }
    Regroup(Join(p), "\n", "  ", Join(ls));
  }

  /** Appending `"\n  "` and a field entry's text appends its block. */
  lemma JoinFieldBlock(p: seq<string>, f: Field, kind: ChangeKind)
    requires |p| > 0
    ensures Join(p + FieldBlock(f, kind)) == Join(p) + "\n  " + Join(FieldDiffLines(f, kind))
  {
    JoinIndentFirst(p, FieldDiffLines(f, kind));
  }

  /** Appending `"\n"` and the change text appends the change block, which
      is a single empty line when there are no changes. */
  lemma JoinChangeBlock(p: seq<string>, before: Field, after: Field)
    requires |p| > 0
    ensures Join(p + ChangeBlock(before, after)) == Join(p) + "\n" + Join(FieldChangeLines(before, after))
  {
    JoinAppend(p, ChangeBlock(before, after));
  }

  /** Appending an entry's text and `"\n\n"` to a text that ends in an empty
      line appends the entry and one more empty line. */
  lemma JoinTableBlock(p: seq<string>, t: seq<string>)
    requires |p| > 0 && |t| > 0
    ensures Join(p + t + [""] + [""]) == Join(p + [""]) + Join(t) + "\n\n"
  {
    var a, b := Join(p), Join(t);
    assert Join(p + [""]) == a + "\n" by {
      JoinSnoc(p, "");
    }
    assert Join(p + t + [""] + [""]) == a + "\n" + b + "\n" + "\n" by {
      JoinAppend(p, t);
      JoinSnoc(p + t, "");
      JoinSnoc(p + t + [""], "");
    }
    Regroup(a + "\n", b, "\n", "\n");
  }

  /** One loop step of the field-entry loops. */
  lemma FieldBlockStep(p: seq<string>, fs: seq<Field>, i: int, kind: ChangeKind)
    requires |p| > 0 && 0 <= i < |fs|
    ensures Join(p + FieldBlocks(fs[..i + 1], kind))
         == Join(p + FieldBlocks(fs[..i], kind)) + "\n  " + Join(FieldDiffLines(fs[i], kind))
  {
    FieldBlocksSnoc(p, fs, i, kind);
    JoinFieldBlock(p + FieldBlocks(fs[..i], kind), fs[i], kind);
  }

  /** One loop step of the updated-field loop. */
  lemma UpdatedBlockStep(p: seq<string>, ps: seq<Pair<Field>>, i: int)
    requires |p| > 0 && 0 <= i < |ps|
    ensures Join(p + UpdatedFieldBlocks(ps[..i + 1]))
         == Join(p + UpdatedFieldBlocks(ps[..i])) + "\n  " + Join(FieldDiffLines(ps[i].after, Update))
          + "\n" + Join(FieldChangeLines(ps[i].before, ps[i].after))
  {
    var q := p + UpdatedFieldBlocks(ps[..i]);
    UpdatedFieldBlocksSnoc(p, ps, i);
    JoinFieldBlock(q, ps[i].after, Update);
    JoinChangeBlock(q + FieldBlock(ps[i].after, Update), ps[i].before, ps[i].after);
  }

  /** One loop step of the table-entry loops. */
  lemma TableBlockStep(p: seq<string>, tds: seq<TableDiff>, i: int)
    requires |p| > 0 && 0 <= i < |tds|
    ensures Join(p + TableBlocks(tds[..i + 1]) + [""])
         == Join(p + TableBlocks(tds[..i]) + [""]) + Join(TableDiffLines(tds[i])) + "\n\n"
  {
    TableBlocksSnoc(p, tds, i);
    JoinTableBlock(p + TableBlocks(tds[..i]), TableDiffLines(tds[i]));
  }

  /** One loop step of the options listing. */
  lemma OptionLineStep(p: seq<string>, es: seq<Entry>, i: int, output: string)
    requires |p| > 0 && 0 <= i < |es|
    requires output == Join(p + CreatedOptionLines(es[..i]))
    ensures output + "\n" + ("      + " + es[i].key + ": " + es[i].value) == Join(p + CreatedOptionLines(es[..i + 1]))
  {
    var line := "      + " + es[i].key + ": " + es[i].value;
    assert p + CreatedOptionLines(es[..i + 1]) == p + CreatedOptionLines(es[..i]) + [line] by {
      CreatedOptionLinesSnoc(es, i);
    }
    JoinSnoc(p + CreatedOptionLines(es[..i]), line);
  }

  // ---------------------------------------------------------------------
  // The formatter

  /** The entry of one field: header, and for a created field with options
      an `options:` listing. */
  method FormatFieldDiff(field: Field, kind: ChangeKind) returns (output: string)
    ensures output == Join(FieldDiffLines(field, kind))
  {
    output := FieldHeader(kind, field);
    if kind == Create && field.options.Some? && |field.options.value| > 0 {
      var es := field.options.value;
      var p := [FieldHeader(kind, field), "    options:"];
      output := output + "\n" + "    options:";
      assert p[1..] == ["    options:"];
      assert es[..0] == [];
      var i := 0;
      while i < |es|
        invariant 0 <= i <= |es|
        invariant output == Join(p + CreatedOptionLines(es[..i]))
      {
        OptionLineStep(p, es, i, output);
        output := output + "\n" + ("      + " + es[i].key + ": " + es[i].value);
        i := i + 1;
      }
      assert es[..|es|] == es;
    }
  }

  /** One added line per new key, in the new object's order. */
  method PushAdded(changes0: seq<string>, news: seq<Entry>, olds: seq<Entry>) returns (changes: seq<string>)
    ensures changes == changes0 + Added(news, olds)
  {
    changes := changes0;
    var i := 0;
    assert news[..0] == [];
    while i < |news|
      invariant 0 <= i <= |news|
      invariant changes == changes0 + Added(news[..i], olds)
    {
      AddedSnoc(news, olds, i);
      if !HasKey(olds, news[i].key) {
        changes := changes + [AddedLine(news[i])];
      }
      i := i + 1;
    }
    assert news[..|news|] == news;
  }

  /** One removed line per dropped key, in the old object's order. */
  method PushRemoved(changes0: seq<string>, olds: seq<Entry>, news: seq<Entry>) returns (changes: seq<string>)
    ensures changes == changes0 + Removed(olds, news)
  {
    changes := changes0;
    var i := 0;
    assert olds[..0] == [];
    while i < |olds|
      invariant 0 <= i <= |olds|
      invariant changes == changes0 + Removed(olds[..i], news)
    {
      RemovedSnoc(olds, news, i);
      if !HasKey(news, olds[i].key) {
        changes := changes + [RemovedLine(olds[i])];
      }
      i := i + 1;
    }
    assert olds[..|olds|] == olds;
  }

  /** One modified line per kept key whose value changed, in the new
      object's order. */
  method PushModified(changes0: seq<string>, news: seq<Entry>, olds: seq<Entry>) returns (changes: seq<string>)
    ensures changes == changes0 + Modified(news, olds)
  {
    changes := changes0;
    var i := 0;
    assert news[..0] == [];
    while i < |news|
      invariant 0 <= i <= |news|
      invariant changes == changes0 + Modified(news[..i], olds)
    {
      ModifiedSnoc(news, olds, i);
      var prior := Lookup(olds, news[i].key);
      if prior.Some? && prior.value != news[i].value {
        changes := changes + [ModifiedLine(news[i].key, prior.value, news[i].value)];
      }
      i := i + 1;
    }
    assert news[..|news|] == news;
  }

  /** The change lines of an updated field, built up in a list and joined. */
  method FormatFieldChanges(before: Field, after: Field) returns (output: string)
    ensures output == Join(FieldChangeLines(before, after))
  {
    var changes: seq<string> := [];
    if before.name != after.name {
      changes := changes + ["name: " + before.name + Arrow + after.name];
    }
    if before.fieldType != after.fieldType {
      changes := changes + ["type: " + before.fieldType + Arrow + after.fieldType];
    }
    if before.description != after.description {
      changes := changes + ["description: \"" + DescriptionText(before.description) + "\"" + Arrow
                            + "\"" + DescriptionText(after.description) + "\""];
    }
    assert changes == NameChange(before, after) + TypeChange(before, after) + DescriptionChange(before, after);
    if before.options.Some? || after.options.Some? {
      var olds, news := Entries(before.options), Entries(after.options);
      changes := PushAdded(changes, news, olds);
      changes := PushRemoved(changes, olds, news);
      changes := PushModified(changes, news, olds);
      AppendAssoc(NameChange(before, after) + TypeChange(before, after) + DescriptionChange(before, after),
                  Added(news, olds) + Removed(olds, news), Modified(news, olds));
      AppendAssoc(NameChange(before, after) + TypeChange(before, after) + DescriptionChange(before, after),
                  Added(news, olds), Removed(olds, news));
    }
    assert changes == FieldChanges(before, after);
    output := Join(Indent(changes));
  }

  /** Appends one entry per field, each after `"\n  "`. */
  method AppendFieldBlocks(output0: string, p: seq<string>, fs: seq<Field>, kind: ChangeKind) returns (output: string)
    requires |p| > 0 && output0 == Join(p)
    ensures output == Join(p + FieldBlocks(fs, kind))
  {
    output := output0;
    var i := 0;
    assert fs[..0] == [] && p + FieldBlocks([], kind) == p;
    while i < |fs|
      invariant 0 <= i <= |fs|
      invariant output == Join(p + FieldBlocks(fs[..i], kind))
    {
      var f := FormatFieldDiff(fs[i], kind);
      FieldBlockStep(p, fs, i, kind);
      output := output + "\n  " + f;
      i := i + 1;
    }
    assert fs[..|fs|] == fs;
  }

  /** Appends, per updated field, its entry after `"\n  "` and its change
      lines after `"\n"`. */
  method AppendUpdatedBlocks(output0: string, p: seq<string>, ps: seq<Pair<Field>>) returns (output: string)
    requires |p| > 0 && output0 == Join(p)
    ensures output == Join(p + UpdatedFieldBlocks(ps))
  {
    output := output0;
    var i := 0;
    assert ps[..0] == [] && p + UpdatedFieldBlocks([]) == p;
    while i < |ps|
      invariant 0 <= i <= |ps|
      invariant output == Join(p + UpdatedFieldBlocks(ps[..i]))
    {
      var f := FormatFieldDiff(ps[i].after, Update);
      var changes := FormatFieldChanges(ps[i].before, ps[i].after);
      UpdatedBlockStep(p, ps, i);
      output := output + "\n  " + f;
      output := output + "\n" + changes;
      i := i + 1;
    }
    assert ps[..|ps|] == ps;
  }

  /** One table entry: the header line, then its field entries. */
  method FormatTableDiff(td: TableDiff) returns (output: string)
    ensures output == Join(TableDiffLines(td))
  {
    var h := [TableHeader(td.kind, td.table)];
    output := TableHeader(td.kind, td.table);
    if td.kind == Update && td.fields.Some? {
      var fd := td.fields.value;
      output := AppendFieldBlocks(output, h, fd.created, Create);
      var c := h + FieldBlocks(fd.created, Create);
      output := AppendUpdatedBlocks(output, c, fd.updated);
      var u := c + UpdatedFieldBlocks(fd.updated);
      output := AppendFieldBlocks(output, u, fd.deleted, Delete);
      var cs, us, ds := FieldBlocks(fd.created, Create), UpdatedFieldBlocks(fd.updated), FieldBlocks(fd.deleted, Delete);
      AppendAssoc(h, cs + us, ds);
      AppendAssoc(h, cs, us);
    } else if td.kind == Create {
      output := AppendFieldBlocks(output, h, td.table.fields, Create);
    }
  }

  /** Appends the entries of one list, each followed by an empty line. */
  method AppendTableBlocks(output0: string, p: seq<string>, tds: seq<TableDiff>) returns (output: string)
    requires |p| > 0 && output0 == Join(p + [""])
    ensures output == Join(p + TableBlocks(tds) + [""])
  {
    output := output0;
    var i := 0;
    assert tds[..0] == [] && p + TableBlocks([]) == p;
    while i < |tds|
      invariant 0 <= i <= |tds|
      invariant output == Join(p + TableBlocks(tds[..i]) + [""])
    {
      var t := FormatTableDiff(tds[i]);
      TableBlockStep(p, tds, i);
      output := output + t + "\n\n";
      i := i + 1;
    }
    assert tds[..|tds|] == tds;
  }

  /** The whole report: the base line, an empty line, then the created,
      updated and deleted table entries, each followed by an empty line. */
  method FormatSchemaDiff(d: SchemaDiff) returns (output: string)
    ensures output == Join(SchemaDiffLines(d))
  {
    var h := ["Base: " + d.baseId, ""];
    output := "Base: " + d.baseId + "\n\n";
    assert output == Join(h + [""]) by {
      assert (h + [""])[1..] == ["", ""] && ["", ""][1..] == [""];
    }
    var c := AsKind(d.tables.created, Create);
    output := AppendTableBlocks(output, h, c);
    output := AppendTableBlocks(output, h + TableBlocks(c), d.tables.updated);
    var x := AsKind(d.tables.deleted, Delete);
    output := AppendTableBlocks(output, h + TableBlocks(c) + TableBlocks(d.tables.updated), x);
  }
}
