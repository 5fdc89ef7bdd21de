/** The schema snapshot shapes the diff engine reads: a base is an id plus an
    ordered list of tables, a table an id, a name, an ordered list of fields and
    optional presentation views. Values are immutable; identity is the `id`. */
module Schema {

  datatype Option<+T> = None | Some(value: T)

  /** One own enumerable property of a field's `options` object. `value` is the
      property's JSON text, already rendered; it is compared as text. */
  datatype Entry = Entry(key: string, value: string)

  /** A field. `description` and `options` may be absent, and absence differs
      from an empty string or an empty object: the serialised forms differ.
      `options` holds the object's entries in enumeration order. */
  datatype Field = Field(
    id: string,
    name: string,
    fieldType: string,
    description: Option<string>,
    options: Option<seq<Entry>>)

  /** A table. `views` is carried as opaque rendered text: it is never read, but
      it takes part in the whole-value comparison of two tables. */
  datatype Table = Table(
    id: string,
    name: string,
    fields: seq<Field>,
    views: Option<seq<string>>)

  datatype Base = Base(id: string, tables: seq<Table>)

  function FieldId(f: Field): string { f.id }

  function TableId(t: Table): string { t.id }

  /** The keys of an entry list, in order. */
  function Keys(es: seq<Entry>): (ks: seq<string>)
    ensures |ks| == |es|
    ensures forall i :: 0 <= i < |es| ==> ks[i] == es[i].key
  {
    if |es| == 0 then [] else [es[0].key] + Keys(es[1..])
  }

  /** No string occurs twice. */
  predicate Distinct(ss: seq<string>)
  {
    forall i, j :: 0 <= i < j < |ss| ==> ss[i] != ss[j]
  }

  /** A JSON object never holds the same key twice. */
  predicate DistinctKeys(es: seq<Entry>)
  {
    Distinct(Keys(es))
  }

  /** The options object as a key/value map; an absent object reads as `{}`. */
  function OptionsMap(opts: Option<seq<Entry>>): (m: map<string, string>)
    ensures opts.Some? ==> m.Keys == set e | e in opts.value :: e.key
    ensures opts.None? ==> m == map[]
  {
    match opts
    case None => map[]
    case Some(es) => EntriesMap(es)
  }

  function EntriesMap(es: seq<Entry>): (m: map<string, string>)
    ensures m.Keys == set e | e in es :: e.key
    ensures forall i :: 0 <= i < |es| && DistinctKeys(es) ==> es[i].key in m && m[es[i].key] == es[i].value
  {
    if |es| == 0 then map[]
    else
      var rest := EntriesMap(es[1..]);
      assert forall i :: 1 <= i < |es| ==> es[i] == es[1..][i - 1];
      assert DistinctKeys(es) ==> DistinctKeys(es[1..]) && forall i :: 1 <= i < |es| ==> es[i].key != es[0].key by {
        if DistinctKeys(es) {
          DistinctKeysTail(es);
        }
      }
      rest[es[0].key := es[0].value]
  }

  lemma DistinctKeysTail(es: seq<Entry>)
    requires |es| > 0 && DistinctKeys(es)
    ensures DistinctKeys(es[1..])
    ensures forall i :: 1 <= i < |es| ==> es[i].key != es[0].key
  {
    assert Keys(es[1..]) == Keys(es)[1..];
    forall i | 1 <= i < |es| ensures es[i].key != es[0].key {
      assert Keys(es)[0] == es[0].key && Keys(es)[i] == es[i].key;
    }
  }
}
