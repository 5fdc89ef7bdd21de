/** The option lines of the field formatter: the `options:` listing of a
    created field, and the added / removed / modified lines of an updated one.
    A field's options object is its entry list in enumeration order; an
    absent object reads as `{}`. */
module OptionDiff {
  import opened Schema
  import opened Lines

  /** Whether the object has `k` as an own key. */
  predicate HasKey(es: seq<Entry>, k: string)
  {
    k in Keys(es)
  }

  /** The value of own key `k`: the first entry with that key. */
  function Lookup(es: seq<Entry>, k: string): (v: Option<string>)
    ensures v.Some? <==> HasKey(es, k)
    ensures v.Some? ==> Entry(k, v.value) in es
  {
    if |es| == 0 then None
    else if es[0].key == k then Some(es[0].value)
    else
      assert Keys(es) == [es[0].key] + Keys(es[1..]);
      Lookup(es[1..], k)
  }

  function Entries(opts: Option<seq<Entry>>): seq<Entry>
  {
    if opts.Some? then opts.value else []
  }

  function AddedLine(e: Entry): string { "options: + " + e.key + ": " + e.value }

  function RemovedLine(e: Entry): string { "options: - " + e.key + ": " + e.value }

  function ModifiedLine(k: string, before: string, after: string): string
  {
    "options: ~ " + k + ": " + before + Arrow + after
  }

  /** One line per entry of `news` whose key `olds` lacks, in `news` order. */
  function Added(news: seq<Entry>, olds: seq<Entry>): (ls: seq<string>)
    ensures |ls| <= |news|
  {
    if |news| == 0 then []
    else (if HasKey(olds, news[0].key) then [] else [AddedLine(news[0])]) + Added(news[1..], olds)
  }

  /** One line per entry of `olds` whose key `news` lacks, in `olds` order. */
  function Removed(olds: seq<Entry>, news: seq<Entry>): (ls: seq<string>)
    ensures |ls| <= |olds|
  {
    if |olds| == 0 then []
    else (if HasKey(news, olds[0].key) then [] else [RemovedLine(olds[0])]) + Removed(olds[1..], news)
  }

  /** One line per entry of `news` whose key `olds` holds with another value,
      in `news` order. */
  function Modified(news: seq<Entry>, olds: seq<Entry>): (ls: seq<string>)
    ensures |ls| <= |news|
  {
    if |news| == 0 then []
    else
      var e := news[0];
      var here := match Lookup(olds, e.key)
        case Some(v) => if v != e.value then [ModifiedLine(e.key, v, e.value)] else []
        case None => [];
      here + Modified(news[1..], olds)
  }

  /** The option lines of an updated field: added, then removed, then
      modified; nothing when neither side has an options object. */
  function OptionChanges(before: Option<seq<Entry>>, after: Option<seq<Entry>>): (ls: seq<string>)
    ensures before.None? && after.None? ==> ls == []
  {
    if before.None? && after.None? then []
    else
      var olds, news := Entries(before), Entries(after);
      Added(news, olds) + Removed(olds, news) + Modified(news, olds)
  }

  /** The `options:` listing printed under a created field: one line per
      entry, in enumeration order. */
  function CreatedOptionLines(es: seq<Entry>): (ls: seq<string>)
    ensures |ls| == |es|
    ensures forall i :: 0 <= i < |es| ==> ls[i] == "      + " + es[i].key + ": " + es[i].value
  {
    if |es| == 0 then [] else ["      + " + es[0].key + ": " + es[0].value] + CreatedOptionLines(es[1..])
  }

  // ---------------------------------------------------------------------
  // Properties

  lemma {:induction false} AddedEmpty(news: seq<Entry>, olds: seq<Entry>)
    ensures Added(news, olds) == [] <==> forall i :: 0 <= i < |news| ==> HasKey(olds, news[i].key)
  {
    if |news| > 0 {
      AddedEmpty(news[1..], olds);
      assert forall i :: 1 <= i < |news| ==> news[i] == news[1..][i - 1];
    }
  }

  lemma {:induction false} RemovedEmpty(olds: seq<Entry>, news: seq<Entry>)
    ensures Removed(olds, news) == [] <==> forall i :: 0 <= i < |olds| ==> HasKey(news, olds[i].key)
  {
    if |olds| > 0 {
      RemovedEmpty(olds[1..], news);
      assert forall i :: 1 <= i < |olds| ==> olds[i] == olds[1..][i - 1];
    }
  }

  lemma {:induction false} ModifiedEmpty(news: seq<Entry>, olds: seq<Entry>)
    ensures Modified(news, olds) == [] <==>
      forall i :: 0 <= i < |news| && HasKey(olds, news[i].key) ==> Lookup(olds, news[i].key) == Some(news[i].value)
  {
    if |news| > 0 {
      ModifiedEmpty(news[1..], olds);
      assert forall i :: 1 <= i < |news| ==> news[i] == news[1..][i - 1];
    }
  }

  /** With distinct keys, every entry is what a lookup of its key finds. */
  lemma {:induction false} LookupAt(es: seq<Entry>, i: int)
    requires DistinctKeys(es)
    requires 0 <= i < |es|
    ensures Lookup(es, es[i].key) == Some(es[i].value)
  {
    if i > 0 {
      assert es[0].key != es[i].key;
      assert DistinctKeys(es[1..]) by {
        assert forall j :: 0 <= j < |es[1..]| ==> es[1..][j] == es[j + 1];
      }
      LookupAt(es[1..], i - 1);
    }
  }

  lemma KeyAt(es: seq<Entry>, k: string) returns (i: int)
    requires HasKey(es, k)
    ensures 0 <= i < |es| && es[i].key == k
  {
    i :| 0 <= i < |es| && Keys(es)[i] == k;
  }

  /** The map view has exactly the own keys, with the looked-up values. */
  lemma LookupIsMap(es: seq<Entry>, k: string)
    requires DistinctKeys(es)
    ensures HasKey(es, k) <==> k in EntriesMap(es)
    ensures HasKey(es, k) ==> Lookup(es, k) == Some(EntriesMap(es)[k])
  {
    if HasKey(es, k) {
      var i := KeyAt(es, k);
      LookupAt(es, i);
    }
  }

  /** Both objects hold the same keys, and every key of the new one has the
      same value in the old one. */
  predicate SameEntries(olds: seq<Entry>, news: seq<Entry>)
  {
    && (forall i :: 0 <= i < |news| ==> HasKey(olds, news[i].key))
    && (forall i :: 0 <= i < |olds| ==> HasKey(news, olds[i].key))
    && (forall i :: 0 <= i < |news| && HasKey(olds, news[i].key) ==> Lookup(olds, news[i].key) == Some(news[i].value))
  }

  lemma NoLinesIffSameEntries(olds: seq<Entry>, news: seq<Entry>)
    ensures Added(news, olds) + Removed(olds, news) + Modified(news, olds) == [] <==> SameEntries(olds, news)
  {
    AddedEmpty(news, olds);
    RemovedEmpty(olds, news);
    ModifiedEmpty(news, olds);
  }

  lemma SameEntriesSameMap(olds: seq<Entry>, news: seq<Entry>)
    requires DistinctKeys(olds) && DistinctKeys(news)
    requires SameEntries(olds, news)
    ensures EntriesMap(olds) == EntriesMap(news)
  {
    var mo, mn := EntriesMap(olds), EntriesMap(news);
    forall k ensures k in mo <==> k in mn {
      LookupIsMap(olds, k);
      LookupIsMap(news, k);
      if HasKey(news, k) {
        var i := KeyAt(news, k);
      }
      if HasKey(olds, k) {
        var i := KeyAt(olds, k);
      }
    }
    forall k | k in mn ensures mo[k] == mn[k] {
      LookupIsMap(olds, k);
      LookupIsMap(news, k);
      var i := KeyAt(news, k);
      LookupAt(news, i);
    }
  }

  lemma SameMapSameEntries(olds: seq<Entry>, news: seq<Entry>)
    requires DistinctKeys(olds) && DistinctKeys(news)
    requires EntriesMap(olds) == EntriesMap(news)
    ensures SameEntries(olds, news)
  {
    var m := EntriesMap(olds);
    forall i | 0 <= i < |news| ensures HasKey(olds, news[i].key) && Lookup(olds, news[i].key) == Some(news[i].value) {
      LookupAt(news, i);
      LookupIsMap(news, news[i].key);
      LookupIsMap(olds, news[i].key);
    }
    forall i | 0 <= i < |olds| ensures HasKey(news, olds[i].key) {
      assert Keys(olds)[i] == olds[i].key;
      LookupIsMap(olds, olds[i].key);
      LookupIsMap(news, olds[i].key);
    }
  }

  /** The option lines of an updated field are empty exactly when both
      options objects hold the same keys with the same values, whatever the
      order of their entries. */
  lemma OptionChangesEmpty(before: Option<seq<Entry>>, after: Option<seq<Entry>>)
    requires DistinctKeys(Entries(before)) && DistinctKeys(Entries(after))
    ensures OptionChanges(before, after) == [] <==> OptionsMap(before) == OptionsMap(after)
  {
    var olds, news := Entries(before), Entries(after);
    assert OptionsMap(before) == EntriesMap(olds) && OptionsMap(after) == EntriesMap(news);
    if !(before.None? && after.None?) {
      NoLinesIffSameEntries(olds, news);
      if SameEntries(olds, news) {
        SameEntriesSameMap(olds, news);
      }
      if EntriesMap(olds) == EntriesMap(news) {
        SameMapSameEntries(olds, news);
      }
    }
  }

  lemma {:induction false} AddedAppend(a: seq<Entry>, b: seq<Entry>, olds: seq<Entry>)
    ensures Added(a + b, olds) == Added(a, olds) + Added(b, olds)
  {
    if |a| > 0 {
      assert (a + b)[1..] == a[1..] + b;
      AddedAppend(a[1..], b, olds);
    } else {
      assert a + b == b;
    }
  }

  lemma {:induction false} RemovedAppend(a: seq<Entry>, b: seq<Entry>, news: seq<Entry>)
    ensures Removed(a + b, news) == Removed(a, news) + Removed(b, news)
  {
    if |a| > 0 {
      assert (a + b)[1..] == a[1..] + b;
      RemovedAppend(a[1..], b, news);
    } else {
      assert a + b == b;
    }
  }

  lemma {:induction false} ModifiedAppend(a: seq<Entry>, b: seq<Entry>, olds: seq<Entry>)
    ensures Modified(a + b, olds) == Modified(a, olds) + Modified(b, olds)
  {
    if |a| > 0 {
      assert (a + b)[1..] == a[1..] + b;
      ModifiedAppend(a[1..], b, olds);
    } else {
      assert a + b == b;
    }
  }

  /** A new own key is reported as added. */
  lemma {:induction false} NewKeyIsAdded(news: seq<Entry>, olds: seq<Entry>, i: int)
    requires 0 <= i < |news| && !HasKey(olds, news[i].key)
    ensures AddedLine(news[i]) in Added(news, olds)
  {
    if i > 0 {
      assert news[i] == news[1..][i - 1];
      NewKeyIsAdded(news[1..], olds, i - 1);
    }
  }

  /** A dropped own key is reported as removed. */
  lemma {:induction false} OldKeyIsRemoved(olds: seq<Entry>, news: seq<Entry>, i: int)
    requires 0 <= i < |olds| && !HasKey(news, olds[i].key)
    ensures RemovedLine(olds[i]) in Removed(olds, news)
  {
    if i > 0 {
      assert olds[i] == olds[1..][i - 1];
      OldKeyIsRemoved(olds[1..], news, i - 1);
    }
  }

  /** A line is added exactly for an entry of the new object whose key the
      old object lacks. */
  lemma {:induction false} AddedMembers(news: seq<Entry>, olds: seq<Entry>)
    ensures forall l :: l in Added(news, olds) <==>
      exists e :: e in news && !HasKey(olds, e.key) && l == AddedLine(e)
  {
    if |news| > 0 {
      AddedMembers(news[1..], olds);
      assert forall e :: e in news <==> e == news[0] || e in news[1..];
    }
  }

  /** A line is removed exactly for an entry of the old object whose key the
      new object lacks. */
  lemma {:induction false} RemovedMembers(olds: seq<Entry>, news: seq<Entry>)
    ensures forall l :: l in Removed(olds, news) <==>
      exists e :: e in olds && !HasKey(news, e.key) && l == RemovedLine(e)
  {
    if |olds| > 0 {
      RemovedMembers(olds[1..], news);
      assert forall e :: e in olds <==> e == olds[0] || e in olds[1..];
    }
  }

  /** A line is modified exactly for an entry of the new object whose key the
      old object holds with another value, shown old value first. */
  lemma {:induction false} ModifiedMembers(news: seq<Entry>, olds: seq<Entry>)
    ensures forall l :: l in Modified(news, olds) <==>
      exists e, v :: e in news && Lookup(olds, e.key) == Some(v) && v != e.value && l == ModifiedLine(e.key, v, e.value)
  {
    if |news| > 0 {
      ModifiedMembers(news[1..], olds);
      assert forall e :: e in news <==> e == news[0] || e in news[1..];
    }
  }

  /** Whatever the other side holds, a key of the new options object that
      the old one lacks shows as `options: + <key>: <value>`, and a key of
      the old one that the new one lacks as `options: - <key>: <value>`. */
  lemma AddedAndRemovedReported(before: Option<seq<Entry>>, after: Option<seq<Entry>>, k: string)
    ensures forall i :: (0 <= i < |Entries(after)| && Entries(after)[i].key == k && !HasKey(Entries(before), k)
      ==> AddedLine(Entries(after)[i]) in OptionChanges(before, after))
    ensures forall i :: (0 <= i < |Entries(before)| && Entries(before)[i].key == k && !HasKey(Entries(after), k)
      ==> RemovedLine(Entries(before)[i]) in OptionChanges(before, after))
  {
    var olds, news := Entries(before), Entries(after);
    forall i | 0 <= i < |news| && news[i].key == k && !HasKey(olds, k)
      ensures AddedLine(news[i]) in OptionChanges(before, after)
    {
      NewKeyIsAdded(news, olds, i);
    }
    forall i | 0 <= i < |olds| && olds[i].key == k && !HasKey(news, k)
      ensures RemovedLine(olds[i]) in OptionChanges(before, after)
    {
      OldKeyIsRemoved(olds, news, i);
    }
  }

  // ---------------------------------------------------------------------
  // The option lines as the formatter computes them: its membership test is
  // the `in` operator, which also finds the properties every object inherits
  // from Object.prototype.

  /** The property names a plain object inherits. */
  const InheritedNames: set<string> := {
    "constructor", "hasOwnProperty", "isPrototypeOf", "propertyIsEnumerable",
    "toLocaleString", "toString", "valueOf", "__proto__",
    "__defineGetter__", "__defineSetter__", "__lookupGetter__", "__lookupSetter__"
  }

  /** `k in obj` on an options object. */
  predicate InAsWritten(es: seq<Entry>, k: string)
  {
    HasKey(es, k) || k in InheritedNames
  }

  /** The rendered serialisation of `obj[k]` for a key `k in obj`: the own
      value, or for an inherited name the prototype's member, which renders
      as `{}` for `__proto__` and as `undefined` for a method. */
  function ValueAsWritten(es: seq<Entry>, k: string): (v: string)
    ensures HasKey(es, k) ==> Some(v) == Lookup(es, k)
  {
    match Lookup(es, k)
    case Some(v) => v
    case None => if k == "__proto__" then "{}" else "undefined"
  }

  function AddedAsWritten(news: seq<Entry>, olds: seq<Entry>): (ls: seq<string>)
    ensures |ls| <= |news|
  {
    if |news| == 0 then []
    else (if InAsWritten(olds, news[0].key) then [] else [AddedLine(news[0])]) + AddedAsWritten(news[1..], olds)
  }

  function RemovedAsWritten(olds: seq<Entry>, news: seq<Entry>): (ls: seq<string>)
    ensures |ls| <= |olds|
  {
    if |olds| == 0 then []
    else (if InAsWritten(news, olds[0].key) then [] else [RemovedLine(olds[0])]) + RemovedAsWritten(olds[1..], news)
  }

  function ModifiedAsWritten(news: seq<Entry>, olds: seq<Entry>): (ls: seq<string>)
    ensures |ls| <= |news|
  {
    if |news| == 0 then []
    else
      var e := news[0];
      var here :=
        if InAsWritten(olds, e.key) && ValueAsWritten(olds, e.key) != e.value
        then [ModifiedLine(e.key, ValueAsWritten(olds, e.key), e.value)] else [];
      here + ModifiedAsWritten(news[1..], olds)
  }

  function OptionChangesAsWritten(before: Option<seq<Entry>>, after: Option<seq<Entry>>): (ls: seq<string>)
    ensures before.None? && after.None? ==> ls == []
  {
    if before.None? && after.None? then []
    else
      var olds, news := Entries(before), Entries(after);
      AddedAsWritten(news, olds) + RemovedAsWritten(olds, news) + ModifiedAsWritten(news, olds)
  }

  /** As written, a line is added for a new entry only when `in` misses its
      key, so never for an inherited name. */
  lemma {:induction false} AddedAsWrittenMembers(news: seq<Entry>, olds: seq<Entry>)
    ensures forall l :: l in AddedAsWritten(news, olds) <==>
      exists e :: e in news && !InAsWritten(olds, e.key) && l == AddedLine(e)
  {
    if |news| > 0 {
      AddedAsWrittenMembers(news[1..], olds);
      assert forall e :: e in news <==> e == news[0] || e in news[1..];
    }
  }

  /** As written, a line is removed for an old entry only when `in` misses
      its key, so never for an inherited name. */
  lemma {:induction false} RemovedAsWrittenMembers(olds: seq<Entry>, news: seq<Entry>)
    ensures forall l :: l in RemovedAsWritten(olds, news) <==>
      exists e :: e in olds && !InAsWritten(news, e.key) && l == RemovedLine(e)
  {
    if |olds| > 0 {
      RemovedAsWrittenMembers(olds[1..], news);
      assert forall e :: e in olds <==> e == olds[0] || e in olds[1..];
    }
  }

  /** As written, a line is modified for a new entry whenever `in` finds its
      key and the rendered `obj[k]` differs, inherited names included. */
  lemma {:induction false} ModifiedAsWrittenMembers(news: seq<Entry>, olds: seq<Entry>)
    ensures forall l :: l in ModifiedAsWritten(news, olds) <==>
      exists e :: e in news && InAsWritten(olds, e.key) && ValueAsWritten(olds, e.key) != e.value
        && l == ModifiedLine(e.key, ValueAsWritten(olds, e.key), e.value)
  {
    if |news| > 0 {
      ModifiedAsWrittenMembers(news[1..], olds);
      assert forall e :: e in news <==> e == news[0] || e in news[1..];
    }
  }

  /** No key among the inherited names. */
  predicate OwnNamesOnly(es: seq<Entry>)
  {
    forall i :: 0 <= i < |es| ==> es[i].key !in InheritedNames
  }

  lemma {:induction false} AddedAgrees(news: seq<Entry>, olds: seq<Entry>)
    requires OwnNamesOnly(news)
    ensures AddedAsWritten(news, olds) == Added(news, olds)
  {
    if |news| > 0 {
      assert OwnNamesOnly(news[1..]) by {
        forall i | 0 <= i < |news[1..]| ensures news[1..][i].key !in InheritedNames {
          assert news[1..][i] == news[i + 1];
        }
      }
      AddedAgrees(news[1..], olds);
    }
  }

  lemma {:induction false} RemovedAgrees(olds: seq<Entry>, news: seq<Entry>)
    requires OwnNamesOnly(olds)
    ensures RemovedAsWritten(olds, news) == Removed(olds, news)
  {
    if |olds| > 0 {
      assert OwnNamesOnly(olds[1..]) by {
        forall i | 0 <= i < |olds[1..]| ensures olds[1..][i].key !in InheritedNames {
          assert olds[1..][i] == olds[i + 1];
        }
      }
      RemovedAgrees(olds[1..], news);
    }
  }

  lemma {:induction false} ModifiedAgrees(news: seq<Entry>, olds: seq<Entry>)
    requires OwnNamesOnly(news)
    ensures ModifiedAsWritten(news, olds) == Modified(news, olds)
  {
    if |news| > 0 {
      assert OwnNamesOnly(news[1..]) by {
        forall i | 0 <= i < |news[1..]| ensures news[1..][i].key !in InheritedNames {
          assert news[1..][i] == news[i + 1];
        }
      }
      ModifiedAgrees(news[1..], olds);
    }
  }

  /** Away from the inherited names the formatter's test is the own-key test:
      both computations give the same lines. */
  lemma AsWrittenAgreesOnOwnNames(before: Option<seq<Entry>>, after: Option<seq<Entry>>)
    requires OwnNamesOnly(Entries(before)) && OwnNamesOnly(Entries(after))
    ensures OptionChangesAsWritten(before, after) == OptionChanges(before, after)
  {
    var olds, news := Entries(before), Entries(after);
    AddedAgrees(news, olds);
    RemovedAgrees(olds, news);
    ModifiedAgrees(news, olds);
  }

  /** A new option named `toString` is reported as a modification of the
      inherited method instead of an addition. */
  lemma InheritedNameAddedAsWritten()
    ensures OptionChangesAsWritten(Some([]), Some([Entry("toString", "1")]))
      == ["options: ~ toString: undefined" + Arrow + "1"]
    ensures OptionChanges(Some([]), Some([Entry("toString", "1")]))
      == ["options: + toString: 1"]
  {
    var news := [Entry("toString", "1")];
    assert news[1..] == [];
    assert !HasKey([], "toString");
    assert Added(news, []) == [AddedLine(news[0])];
    assert Removed([], news) == [] && Modified(news, []) == [];
    assert AddedLine(news[0]) == "options: + toString: 1";
    assert AddedAsWritten(news, []) == [] && RemovedAsWritten([], news) == [];
    assert ValueAsWritten([], "toString") == "undefined";
    assert ModifiedAsWritten(news, []) == [ModifiedLine("toString", "undefined", "1")];
    assert ModifiedLine("toString", "undefined", "1") == "options: ~ toString: undefined" + Arrow + "1";
  }

  /** A dropped option named `constructor` is not reported at all. */
  lemma InheritedNameRemovedAsWritten()
    ensures OptionChangesAsWritten(Some([Entry("constructor", "1")]), Some([])) == []
    ensures OptionChanges(Some([Entry("constructor", "1")]), Some([])) == ["options: - constructor: 1"]
  {
    var olds := [Entry("constructor", "1")];
    assert olds[1..] == [];
    assert !HasKey([], "constructor");
    assert Removed(olds, []) == [RemovedLine(olds[0])];
    assert Added([], olds) == [] && Modified([], olds) == [];
    assert RemovedLine(olds[0]) == "options: - constructor: 1";
  }
}
