/** What the text report promises: which lines it holds, in which order, and
    when an updated field shows no change lines at all. */
module Report {
  import opened Schema
  import opened Matching
  import opened Compare
  import opened Lines
  import opened OptionDiff
  import opened Format

  // ---------------------------------------------------------------------
  // Attribute-change lines of an updated field

  /** The position of a change line's category in the fixed output order. */
  function Rank(l: string): nat
  {
    if "name: " <= l then 0
    else if "type: " <= l then 1
    else if "description: " <= l then 2
    else if "options: + " <= l then 3
    else if "options: - " <= l then 4
    else if "options: ~ " <= l then 5
    else 6
  }

  predicate RankOrdered(cs: seq<string>)
  {
    forall i, j :: 0 <= i < j < |cs| ==> Rank(cs[i]) <= Rank(cs[j])
  }

  predicate AllRank(cs: seq<string>, r: nat)
  {
    forall i :: 0 <= i < |cs| ==> Rank(cs[i]) == r
  }

  predicate RanksAtMost(cs: seq<string>, r: nat)
  {
    forall i :: 0 <= i < |cs| ==> Rank(cs[i]) <= r
  }

  lemma AllRankAppend(a: seq<string>, b: seq<string>, r: nat)
    requires AllRank(a, r) && AllRank(b, r)
    ensures AllRank(a + b, r)
  {
    forall i | 0 <= i < |a + b| ensures Rank((a + b)[i]) == r {
      if i >= |a| {
        assert (a + b)[i] == b[i - |a|];
      }
    }
  }

  /** Appending lines of rank `r` after lines of rank at most `lo <= r`
      keeps the ranks in order. */
  lemma Chain(a: seq<string>, b: seq<string>, lo: nat, r: nat)
    requires RankOrdered(a) && RanksAtMost(a, lo) && lo <= r && AllRank(b, r)
    ensures RankOrdered(a + b) && RanksAtMost(a + b, r)
  {
    forall i, j | 0 <= i < j < |a + b| ensures Rank((a + b)[i]) <= Rank((a + b)[j]) {
      if j >= |a| {
        assert (a + b)[j] == b[j - |a|];
        if i >= |a| {
          assert (a + b)[i] == b[i - |a|];
        }
      }
    }
    forall i | 0 <= i < |a + b| ensures Rank((a + b)[i]) <= r {
      if i >= |a| {
        assert (a + b)[i] == b[i - |a|];
      }
    }
  }

  lemma AddedLineRank(e: Entry)
    ensures Rank(AddedLine(e)) == 3
  {
    var l := AddedLine(e);
    assert l[..11] == "options: + ";
    assert l[0] == 'o';
  }

  lemma RemovedLineRank(e: Entry)
    ensures Rank(RemovedLine(e)) == 4
  {
    var l := RemovedLine(e);
    assert l[..11] == "options: - ";
    assert l[0] == 'o' && l[9] == '-';
  }

  lemma ModifiedLineRank(k: string, v: string, w: string)
    ensures Rank(ModifiedLine(k, v, w)) == 5
  {
    var l := ModifiedLine(k, v, w);
    assert l[..11] == "options: ~ ";
    assert l[0] == 'o' && l[9] == '~';
  }

  lemma {:induction false} AddedRank(news: seq<Entry>, olds: seq<Entry>)
    ensures AllRank(Added(news, olds), 3)
  {
    if |news| > 0 {
      AddedRank(news[1..], olds);
      AddedLineRank(news[0]);
      AllRankAppend(if HasKey(olds, news[0].key) then [] else [AddedLine(news[0])], Added(news[1..], olds), 3);
    }
  }

  lemma {:induction false} RemovedRank(olds: seq<Entry>, news: seq<Entry>)
    ensures AllRank(Removed(olds, news), 4)
  {
    if |olds| > 0 {
      RemovedRank(olds[1..], news);
      RemovedLineRank(olds[0]);
      AllRankAppend(if HasKey(news, olds[0].key) then [] else [RemovedLine(olds[0])], Removed(olds[1..], news), 4);
    }
  }

  lemma {:induction false} ModifiedRank(news: seq<Entry>, olds: seq<Entry>)
    ensures AllRank(Modified(news, olds), 5)
  {
    if |news| > 0 {
      ModifiedRank(news[1..], olds);
      var e := news[0];
      var here := match Lookup(olds, e.key)
        case Some(v) => if v != e.value then [ModifiedLine(e.key, v, e.value)] else []
        case None => [];
      if Lookup(olds, e.key).Some? {
        ModifiedLineRank(e.key, Lookup(olds, e.key).value, e.value);
      }
      assert AllRank(here, 5);
      AllRankAppend(here, Modified(news[1..], olds), 5);
    }
  }

  lemma PlainRanks(before: Field, after: Field)
    ensures AllRank(NameChange(before, after), 0)
    ensures AllRank(TypeChange(before, after), 1)
    ensures AllRank(DescriptionChange(before, after), 2)
  {
    var t := TypeChange(before, after);
    if |t| > 0 {
      assert t[0][..6] == "type: ";
      assert t[0][0] == 't';
    }
    var d := DescriptionChange(before, after);
    if |d| > 0 {
      assert d[0][..13] == "description: ";
      assert d[0][0] == 'd';
    }
    var n := NameChange(before, after);
    if |n| > 0 {
      assert n[0][..6] == "name: ";
    }
  }

  predicate RanksAtLeast(cs: seq<string>, r: nat)
  {
    forall i :: 0 <= i < |cs| ==> r <= Rank(cs[i])
  }

  /** Lines of rank at most `r` followed by lines of rank above `r`. */
  lemma Concat(a: seq<string>, b: seq<string>, r: nat)
    requires RankOrdered(a) && RanksAtMost(a, r) && RankOrdered(b) && RanksAtLeast(b, r + 1)
    ensures RankOrdered(a + b)
  {
    forall i, j | 0 <= i < j < |a + b| ensures Rank((a + b)[i]) <= Rank((a + b)[j]) {
      if j >= |a| {
        assert (a + b)[j] == b[j - |a|];
        if i >= |a| {
          assert (a + b)[i] == b[i - |a|];
        }
      }
    }
  }

  /** The option lines: added (rank 3), then removed (4), then modified (5). */
  lemma OptionChangesOrdered(before: Option<seq<Entry>>, after: Option<seq<Entry>>)
    ensures RankOrdered(OptionChanges(before, after)) && RanksAtLeast(OptionChanges(before, after), 3)
  {
    if !(before.None? && after.None?) {
      var olds, news := Entries(before), Entries(after);
      var a, r, m := Added(news, olds), Removed(olds, news), Modified(news, olds);
      AddedRank(news, olds);
      RemovedRank(olds, news);
      ModifiedRank(news, olds);
      assert RankOrdered(a) && RanksAtMost(a, 3);
      Chain(a, r, 3, 4);
      Chain(a + r, m, 4, 5);
      forall i | 0 <= i < |a + r + m| ensures 3 <= Rank((a + r + m)[i]) {
        if i < |a| {
          assert (a + r + m)[i] == a[i];
        } else if i < |a| + |r| {
          assert (a + r + m)[i] == r[i - |a|];
        } else {
          assert (a + r + m)[i] == m[i - |a| - |r|];
        }
      }
    }
  }

  /** Change lines come in the fixed order name, type, description, options
      added, options removed, options modified. */
  lemma FieldChangesOrdered(before: Field, after: Field)
    ensures RankOrdered(FieldChanges(before, after))
  {
    var n, t, d := NameChange(before, after), TypeChange(before, after), DescriptionChange(before, after);
    PlainRanks(before, after);
    assert RankOrdered(n) && RanksAtMost(n, 0);
    Chain(n, t, 0, 1);
    Chain(n + t, d, 1, 2);
    OptionChangesOrdered(before.options, after.options);
    Concat(n + t + d, OptionChanges(before.options, after.options), 2);
  }

  /** The change lines of an updated field are exactly: the name line when
      the name changed, the type line when the type changed, the description
      line (an absent description printed as `""`) when the description
      changed, and the option lines. */
  lemma FieldChangesMembers(before: Field, after: Field)
    ensures forall l :: l in FieldChanges(before, after) <==>
      || (before.name != after.name && l == "name: " + before.name + Arrow + after.name)
      || (before.fieldType != after.fieldType && l == "type: " + before.fieldType + Arrow + after.fieldType)
      || (before.description != after.description
          && l == "description: \"" + DescriptionText(before.description) + "\"" + Arrow
                  + "\"" + DescriptionText(after.description) + "\"")
      || l in OptionChanges(before.options, after.options)
  {
    var n, t, d := NameChange(before, after), TypeChange(before, after), DescriptionChange(before, after);
    assert FieldChanges(before, after) == n + t + d + OptionChanges(before.options, after.options);
  }

  /** A description dropped from a field prints as changing to `""`. */
  lemma DroppedDescriptionLine(f: Field, text: string)
    requires f.description == Some(text)
    ensures "description: \"" + text + "\"" + Arrow + "\"\"" in FieldChanges(f, f.(description := None))
  {
    var g := f.(description := None);
    assert DescriptionText(f.description) == text && DescriptionText(g.description) == "";
    var x := "description: \"" + text + "\"" + Arrow;
    assert x + "\"" + "" + "\"" == x + "\"\"";
    assert DescriptionChange(f, g) == [x + "\"\""];
    assert FieldChanges(f, g) == NameChange(f, g) + TypeChange(f, g) + DescriptionChange(f, g) + OptionChanges(f.options, g.options);
  }

  /** An updated field shows no change lines exactly when name, type and
      description agree and both options objects hold the same keys with the
      same values; the order of option entries does not matter. */
  lemma FieldChangesEmpty(before: Field, after: Field)
    requires DistinctKeys(Entries(before.options)) && DistinctKeys(Entries(after.options))
    ensures FieldChanges(before, after) == [] <==>
      && before.name == after.name
      && before.fieldType == after.fieldType
      && before.description == after.description
      && OptionsMap(before.options) == OptionsMap(after.options)
  {
    OptionChangesEmpty(before.options, after.options);
  }

  /** Renaming a field yields the single line `name: <old> → <new>`. */
  lemma RenameChangeLine(f: Field, name: string)
    requires DistinctKeys(Entries(f.options))
    requires name != f.name
    ensures FieldChanges(f, f.(name := name)) == ["name: " + f.name + Arrow + name]
  {
    OptionChangesEmpty(f.options, f.options);
  }

  /** Giving a field a description it lacked yields the single description
      line, with the missing old description printed as `""`. */
  lemma AddedDescriptionLine(f: Field, text: string)
    requires DistinctKeys(Entries(f.options))
    requires f.description.None?
    ensures FieldChanges(f, f.(description := Some(text)))
         == ["description: \"\"" + Arrow + "\"" + text + "\""]
  {
    OptionChangesEmpty(f.options, f.options);
    assert "description: \"" + "" + "\"" == "description: \"\"";
  }

  /** An object compared with itself shows no modification. */
  lemma UnmodifiedSelf(es: seq<Entry>)
    requires DistinctKeys(es)
    ensures Modified(es, es) == []
  {
    forall i | 0 <= i < |es| ensures Lookup(es, es[i].key) == Some(es[i].value) {
      LookupAt(es, i);
    }
    ModifiedNone(es, es);
  }

  /** Entries that all carry their old value show no modification. */
  lemma {:induction false} ModifiedNone(news: seq<Entry>, olds: seq<Entry>)
    requires forall i :: 0 <= i < |news| ==> Lookup(olds, news[i].key) == Some(news[i].value)
    ensures Modified(news, olds) == []
  {
    if |news| > 0 {
      assert forall i :: 0 <= i < |news[1..]| ==> news[1..][i] == news[i + 1];
      ModifiedNone(news[1..], olds);
    }
  }

  lemma ModifiedSingle(x: Entry, olds: seq<Entry>, w: string)
    requires Lookup(olds, x.key) == Some(w) && w != x.value
    ensures Modified([x], olds) == [ModifiedLine(x.key, w, x.value)]
  {
    assert [x][1..] == [];
  }

  lemma SplitAt<T>(s: seq<T>, i: int)
    requires 0 <= i < |s|
    ensures s == s[0..i] + ([s[i]] + s[i + 1..|s|])
  {
    UpdateAsConcat(s, i, s[i]);
    assert s[i := s[i]] == s;
  }

  lemma UpdateAsConcat<T>(s: seq<T>, i: int, x: T)
    requires 0 <= i < |s|
    ensures s[i := x] == s[0..i] + ([x] + s[i + 1..|s|])
  {
    var r := s[0..i] + ([x] + s[i + 1..|s|]);
    forall k | 0 <= k < |s| ensures r[k] == s[i := x][k] {
      if k > i {
        assert r[k] == s[i + 1..|s|][k - i - 1];
      }
    }
  }

  lemma ModifiedAround(pre: seq<Entry>, x: Entry, post: seq<Entry>, olds: seq<Entry>)
    ensures Modified(pre + ([x] + post), olds) == Modified(pre, olds) + (Modified([x], olds) + Modified(post, olds))
  {
    ModifiedAppend(pre, [x] + post, olds);
    ModifiedAppend([x], post, olds);
  }

  /** The entries before and after any one entry show no modification
      against the object itself. */
  lemma UnmodifiedAround(es: seq<Entry>, i: int)
    requires DistinctKeys(es)
    requires 0 <= i < |es|
    ensures Modified(es[0..i], es) == [] && Modified(es[i + 1..|es|], es) == []
  {
    var pre, post := es[0..i], es[i + 1..|es|];
    assert Modified(es, es) == [] by {
      UnmodifiedSelf(es);
    }
    SplitAt(es, i);
    ModifiedAround(pre, es[i], post, es);
  }

  lemma ModifiedOne(es: seq<Entry>, i: int, v: string)
    requires DistinctKeys(es)
    requires 0 <= i < |es| && v != es[i].value
    ensures Modified(es[i := es[i].(value := v)], es) == [ModifiedLine(es[i].key, es[i].value, v)]
  {
    var x := es[i].(value := v);
    var pre, post := es[0..i], es[i + 1..|es|];
    assert Modified([x], es) == [ModifiedLine(es[i].key, es[i].value, v)] by {
      LookupAt(es, i);
      ModifiedSingle(x, es, es[i].value);
    }
    UnmodifiedAround(es, i);
    assert Modified(es[i := x], es) == Modified(pre, es) + (Modified([x], es) + Modified(post, es)) by {
      UpdateAsConcat(es, i, x);
      ModifiedAround(pre, x, post, es);
    }
  }

  lemma SameKeysNoAddedRemoved(es: seq<Entry>, es2: seq<Entry>)
    requires Keys(es2) == Keys(es)
    ensures Added(es2, es) == [] && Removed(es, es2) == []
  {
    AddedEmpty(es2, es);
    forall j | 0 <= j < |es2| ensures HasKey(es, es2[j].key) {
      assert Keys(es)[j] == es2[j].key;
    }
    RemovedEmpty(es, es2);
    forall j | 0 <= j < |es| ensures HasKey(es2, es[j].key) {
      assert Keys(es2)[j] == es[j].key;
    }
  }

  /** Changing the value of one option yields the single line
      `options: ~ <key>: <old> → <new>`. */
  lemma OptionValueChangeLine(f: Field, i: int, v: string)
    requires f.options.Some? && DistinctKeys(f.options.value)
    requires 0 <= i < |f.options.value| && v != f.options.value[i].value
    ensures var es := f.options.value;
      FieldChanges(f, f.(options := Some(es[i := es[i].(value := v)])))
        == [ModifiedLine(es[i].key, es[i].value, v)]
  {
    var es := f.options.value;
    var es2 := es[i := es[i].(value := v)];
    assert Keys(es2) == Keys(es);
    SameKeysNoAddedRemoved(es, es2);
    ModifiedOne(es, i, v);
    var g := f.(options := Some(es2));
    assert NameChange(f, g) == [] && TypeChange(f, g) == [] && DescriptionChange(f, g) == [];
    assert OptionChanges(f.options, Some(es2)) == [] + [] + [ModifiedLine(es[i].key, es[i].value, v)];
  }

  lemma SwapSameMap(a: Entry, b: Entry)
    requires a.key != b.key
    ensures EntriesMap([a, b]) == EntriesMap([b, a])
  {
    assert [a, b][1..] == [b] && [b, a][1..] == [a];
    assert [b][1..] == [] && [a][1..] == [];
  }

  /** A field whose options differ only in entry order is a different value,
      so matching reports it as updated... */
  lemma KeyOrderIsUpdate(f: Field, a: Entry, b: Entry)
    requires f.options == Some([a, b]) && a.key != b.key
    ensures var g := f.(options := Some([b, a]));
      CompareFieldSets([f], [g]) == FieldSetDiff([], [Pair(f, g)], [])
  {
    var g := f.(options := Some([b, a]));
    assert [a, b] != [b, a] by { assert [a, b][0] != [b, a][0]; }
    assert UniqueIds([f], FieldId);
    assert [f][0 := g] == [g];
    ReplaceOne([f], 0, g, FieldId);
  }

  /** ...yet its change list is empty, and its entry is followed by an empty
      line only. */
  lemma KeyOrderHasNoChangeLines(f: Field, a: Entry, b: Entry)
    requires f.options == Some([a, b]) && a.key != b.key
    ensures var g := f.(options := Some([b, a]));
      FieldChanges(f, g) == [] && ChangeBlock(f, g) == [""]
  {
    var g := f.(options := Some([b, a]));
    SwapSameMap(a, b);
    FieldChangesEmpty(f, g);
  }

  // ---------------------------------------------------------------------
  // Which lines of the report are table and field entries

  predicate IsSigil(c: char) { c == '+' || c == '~' || c == '-' }

  /** A table entry line starts with its sigil; a field entry line is two
      spaces and a sigil. */
  datatype LineClass = TableLine | FieldLine

  predicate Is(c: LineClass, l: string)
  {
    match c
    case TableLine => |l| > 0 && IsSigil(l[0])
    case FieldLine => |l| > 2 && l[0] == ' ' && l[1] == ' ' && IsSigil(l[2])
  }

  /** Lines of neither class: empty, or a space first and a space third. */
  predicate Inner(l: string) { |l| == 0 || (|l| > 2 && l[0] == ' ' && l[2] == ' ') }

  /** The lines of `ls` of class `c`, in order. */
  function Keep(ls: seq<string>, c: LineClass): (r: seq<string>)
    ensures |r| <= |ls|
  {
    if |ls| == 0 then [] else (if Is(c, ls[0]) then [ls[0]] else []) + Keep(ls[1..], c)
  }

  lemma {:induction false} KeepAppend(a: seq<string>, b: seq<string>, c: LineClass)
    ensures Keep(a + b, c) == Keep(a, c) + Keep(b, c)
  {
    if |a| > 0 {
      assert (a + b)[1..] == a[1..] + b;
      KeepAppend(a[1..], b, c);
    } else {
      assert a + b == b;
    }
  }

  lemma Keep3(a: seq<string>, b: seq<string>, d: seq<string>, c: LineClass)
    ensures Keep(a + b + d, c) == Keep(a, c) + Keep(b, c) + Keep(d, c)
  {
    KeepAppend(a + b, d, c);
    KeepAppend(a, b, c);
  }

  lemma {:induction false} KeepNone(ls: seq<string>, c: LineClass)
    requires forall i :: 0 <= i < |ls| ==> Inner(ls[i])
    ensures Keep(ls, c) == []
  {
    if |ls| > 0 {
      assert forall i :: 0 <= i < |ls[1..]| ==> ls[1..][i] == ls[i + 1];
      KeepNone(ls[1..], c);
    }
  }

  lemma KeepOne(l: string, c: LineClass)
    ensures Keep([l], c) == if Is(c, l) then [l] else []
  {
    assert [l][1..] == [];
  }

  function TableHeaders(tds: seq<TableDiff>): (r: seq<string>)
    ensures |r| == |tds|
    ensures forall i :: 0 <= i < |tds| ==> r[i] == TableHeader(tds[i].kind, tds[i].table)
  {
    if |tds| == 0 then [] else [TableHeader(tds[0].kind, tds[0].table)] + TableHeaders(tds[1..])
  }

  function FieldLines(fs: seq<Field>, kind: ChangeKind): (r: seq<string>)
    ensures |r| == |fs|
    ensures forall i :: 0 <= i < |fs| ==> r[i] == "  " + FieldHeader(kind, fs[i])
  {
    if |fs| == 0 then [] else ["  " + FieldHeader(kind, fs[0])] + FieldLines(fs[1..], kind)
  }

  lemma TableHeaderClass(kind: ChangeKind, t: Table)
    ensures Keep([TableHeader(kind, t)], TableLine) == [TableHeader(kind, t)]
    ensures Keep([TableHeader(kind, t)], FieldLine) == []
  {
    KeepOne(TableHeader(kind, t), TableLine);
    KeepOne(TableHeader(kind, t), FieldLine);
  }

  lemma FieldHeaderClass(kind: ChangeKind, f: Field)
    ensures Keep(["  " + FieldHeader(kind, f)], FieldLine) == ["  " + FieldHeader(kind, f)]
    ensures Keep(["  " + FieldHeader(kind, f)], TableLine) == []
  {
    KeepOne("  " + FieldHeader(kind, f), TableLine);
    KeepOne("  " + FieldHeader(kind, f), FieldLine);
  }

  /** A field entry contributes its header as its one field line and no
      table line. */
  lemma FieldBlockLines(f: Field, kind: ChangeKind)
    ensures Keep(FieldBlock(f, kind), FieldLine) == ["  " + FieldHeader(kind, f)]
    ensures Keep(FieldBlock(f, kind), TableLine) == []
  {
    var ls := FieldDiffLines(f, kind);
    var rest := ls[1..];
    assert FieldBlock(f, kind) == ["  " + ls[0]] + rest;
    forall i | 0 <= i < |rest| ensures Inner(rest[i]) {
      assert rest[i] == ls[i + 1];
      assert ls[i + 1][..3] == "   ";
    }
    KeepNone(rest, FieldLine);
    KeepNone(rest, TableLine);
    FieldHeaderClass(kind, f);
    KeepAppend(["  " + ls[0]], rest, FieldLine);
    KeepAppend(["  " + ls[0]], rest, TableLine);
  }

  lemma {:induction false} FieldBlocksLines(fs: seq<Field>, kind: ChangeKind)
    ensures Keep(FieldBlocks(fs, kind), FieldLine) == FieldLines(fs, kind)
    ensures Keep(FieldBlocks(fs, kind), TableLine) == []
  {
    if |fs| > 0 {
      FieldBlockLines(fs[0], kind);
      FieldBlocksLines(fs[1..], kind);
      KeepAppend(FieldBlock(fs[0], kind), FieldBlocks(fs[1..], kind), FieldLine);
      KeepAppend(FieldBlock(fs[0], kind), FieldBlocks(fs[1..], kind), TableLine);
    }
  }

  /** Updated and deleted fields print their header line alone, with no
      options listing. */
  lemma {:induction false} PlainFieldBlocks(fs: seq<Field>, kind: ChangeKind)
    requires kind != Create
    ensures FieldBlocks(fs, kind) == FieldLines(fs, kind)
  {
    if |fs| > 0 {
      assert FieldDiffLines(fs[0], kind) == [FieldHeader(kind, fs[0])];
      PlainFieldBlocks(fs[1..], kind);
    }
  }

  lemma ChangeBlockLines(before: Field, after: Field)
    ensures Keep(ChangeBlock(before, after), FieldLine) == []
    ensures Keep(ChangeBlock(before, after), TableLine) == []
  {
    var ls := ChangeBlock(before, after);
    forall i | 0 <= i < |ls| ensures Inner(ls[i]) {
      if ls != [""] {
        assert ls[i] == "    " + FieldChanges(before, after)[i];
      }
    }
    KeepNone(ls, FieldLine);
    KeepNone(ls, TableLine);
  }

  lemma {:induction false} UpdatedFieldBlocksLines(ps: seq<Pair<Field>>)
    ensures Keep(UpdatedFieldBlocks(ps), FieldLine) == FieldLines(Afters(ps), Update)
    ensures Keep(UpdatedFieldBlocks(ps), TableLine) == []
  {
    if |ps| > 0 {
      var a, c, rest := FieldBlock(ps[0].after, Update), ChangeBlock(ps[0].before, ps[0].after), UpdatedFieldBlocks(ps[1..]);
      FieldBlockLines(ps[0].after, Update);
      ChangeBlockLines(ps[0].before, ps[0].after);
      UpdatedFieldBlocksLines(ps[1..]);
      Keep3(a, c, rest, FieldLine);
      Keep3(a, c, rest, TableLine);
      assert Afters(ps) == [ps[0].after] + Afters(ps[1..]);
    }
  }

  /** The field lines of an UPDATE entry: created fields with `+`, then
      updated fields with `~`, then deleted fields with `-`, each in its
      list's order. */
  lemma UpdateEntryFieldLines(td: TableDiff)
    requires td.kind == Update && td.fields.Some?
    ensures var fd := td.fields.value;
      Keep(TableDiffLines(td), FieldLine)
        == FieldLines(fd.created, Create) + FieldLines(Afters(fd.updated), Update) + FieldLines(fd.deleted, Delete)
  {
    var fd := td.fields.value;
    var h := [TableHeader(td.kind, td.table)];
    var c, u, d := FieldBlocks(fd.created, Create), UpdatedFieldBlocks(fd.updated), FieldBlocks(fd.deleted, Delete);
    assert TableDiffLines(td) == h + (c + u + d);
    TableHeaderClass(td.kind, td.table);
    FieldBlocksLines(fd.created, Create);
    UpdatedFieldBlocksLines(fd.updated);
    FieldBlocksLines(fd.deleted, Delete);
    KeepAppend(h, c + u + d, FieldLine);
    Keep3(c, u, d, FieldLine);
  }

  /** A CREATE entry lists every field of the table with `+`, in order. */
  lemma CreateEntryFieldLines(t: Table)
    ensures Keep(TableDiffLines(TableDiff(Create, t, None)), FieldLine) == FieldLines(t.fields, Create)
  {
    var h := [TableHeader(Create, t)];
    TableHeaderClass(Create, t);
    FieldBlocksLines(t.fields, Create);
    KeepAppend(h, FieldBlocks(t.fields, Create), FieldLine);
  }

  /** A DELETE entry is its header line alone: no field is listed. */
  lemma DeleteEntryIsHeaderOnly(t: Table, fields: Option<FieldSetDiff>)
    ensures TableDiffLines(TableDiff(Delete, t, fields)) == [TableHeader(Delete, t)]
  {
  }

  /** Each table entry holds exactly one table line, its header. */
  lemma EntryTableLines(td: TableDiff)
    ensures Keep(TableDiffLines(td), TableLine) == [TableHeader(td.kind, td.table)]
  {
    var h := [TableHeader(td.kind, td.table)];
    var body := TableDiffLines(td)[1..];
    assert TableDiffLines(td) == h + body;
    TableHeaderClass(td.kind, td.table);
    if td.kind == Update && td.fields.Some? {
      var fd := td.fields.value;
      assert body == FieldBlocks(fd.created, Create) + UpdatedFieldBlocks(fd.updated) + FieldBlocks(fd.deleted, Delete);
      FieldBlocksLines(fd.created, Create);
      UpdatedFieldBlocksLines(fd.updated);
      FieldBlocksLines(fd.deleted, Delete);
      Keep3(FieldBlocks(fd.created, Create), UpdatedFieldBlocks(fd.updated), FieldBlocks(fd.deleted, Delete), TableLine);
    } else if td.kind == Create {
      assert body == FieldBlocks(td.table.fields, Create);
      FieldBlocksLines(td.table.fields, Create);
    } else {
      assert body == [];
    }
    KeepAppend(h, body, TableLine);
  }

  lemma {:induction false} TableBlocksLines(tds: seq<TableDiff>)
    ensures Keep(TableBlocks(tds), TableLine) == TableHeaders(tds)
  {
    if |tds| > 0 {
      EntryTableLines(tds[0]);
      TableBlocksLines(tds[1..]);
      KeepOne("", TableLine);
      Keep3(TableDiffLines(tds[0]), [""], TableBlocks(tds[1..]), TableLine);
    }
  }

  lemma BaseLineNotTable(id: string)
    ensures Keep(["Base: " + id, ""], TableLine) == []
  {
    assert ["Base: " + id, ""] == ["Base: " + id] + [""];
    KeepOne("Base: " + id, TableLine);
    KeepOne("", TableLine);
    KeepAppend(["Base: " + id], [""], TableLine);
  }

  /** The table lines of the report are the created tables' headers, then the
      updated entries' headers, then the deleted tables' headers, each group
      in its list's order; nothing else in the report looks like one. */
  lemma ReportTableLines(d: SchemaDiff)
    ensures Keep(SchemaDiffLines(d), TableLine)
      == TableHeaders(AsKind(d.tables.created, Create))
       + TableHeaders(d.tables.updated)
       + TableHeaders(AsKind(d.tables.deleted, Delete))
  {
    var cs, ds := AsKind(d.tables.created, Create), AsKind(d.tables.deleted, Delete);
    var c, u, x := TableBlocks(cs), TableBlocks(d.tables.updated), TableBlocks(ds);
    assert Keep(SchemaDiffLines(d), TableLine) == Keep(c, TableLine) + Keep(u, TableLine) + Keep(x, TableLine) by {
      var h := ["Base: " + d.baseId, ""];
      SchemaDiffParts(d);
      BaseLineNotTable(d.baseId);
      KeepOne("", TableLine);
      KeepInner(SchemaDiffLines(d), h, c, u, x, [""], TableLine);
    }
    TableBlocksLines(cs);
    TableBlocksLines(d.tables.updated);
    TableBlocksLines(ds);
  }

  /** Dropping a prefix and a suffix without lines of a class leaves the
      lines of the class in the middle parts. */
  lemma KeepInner(ls: seq<string>, a: seq<string>, b: seq<string>, c: seq<string>, d: seq<string>, e: seq<string>, k: LineClass)
    requires ls == a + b + c + d + e
    requires Keep(a, k) == [] && Keep(e, k) == []
    ensures Keep(ls, k) == Keep(b, k) + Keep(c, k) + Keep(d, k)
  {
    var kb, kc, kd := Keep(b, k), Keep(c, k), Keep(d, k);
    KeepSplit(a, b, c, d, e, k);
    EmptyEnds(kb, kc, kd);
  }

  lemma EmptyEnds<T>(b: seq<T>, c: seq<T>, d: seq<T>)
    ensures [] + b + c + d + [] == b + c + d
  {
  }

  lemma SchemaDiffParts(d: SchemaDiff)
    ensures SchemaDiffLines(d)
      == ["Base: " + d.baseId, ""] + TableBlocks(AsKind(d.tables.created, Create)) + TableBlocks(d.tables.updated)
       + TableBlocks(AsKind(d.tables.deleted, Delete)) + [""]
  {
  }

  lemma KeepSplit(a: seq<string>, b: seq<string>, c: seq<string>, d: seq<string>, e: seq<string>, k: LineClass)
    ensures Keep(a + b + c + d + e, k) == Keep(a, k) + Keep(b, k) + Keep(c, k) + Keep(d, k) + Keep(e, k)
  {
    KeepAppend(a + b + c + d, e, k);
    KeepAppend(a + b + c, d, k);
    KeepAppend(a + b, c, k);
    KeepAppend(a, b, k);
  }

  /** The report of an empty diff is the base line and two empty lines. */
  lemma EmptyReport(id: string)
    ensures SchemaDiffLines(SchemaDiff(id, TableChanges([], [], []))) == ["Base: " + id, "", ""]
  {
  }

  /** Diffing a base with unique table ids against itself reports nothing but
      its base line. */
  lemma SelfDiffReport(b: Base)
    requires UniqueIds(b.tables, TableId)
    ensures Join(SchemaDiffLines(CompareSchemas(b, b))) == "Base: " + b.id + "\n\n"
  {
    SchemaReflexive(b);
    EmptyReport(b.id);
    var ls := ["Base: " + b.id, "", ""];
    assert ls[1..] == ["", ""] && ls[1..][1..] == [""];
    assert Join(["", ""]) == "" + "\n" + Join([""]);
    assert Join(ls) == ls[0] + "\n" + Join(["", ""]);
  }
}
