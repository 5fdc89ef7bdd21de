/** Pairing two ordered collections of entities by their stable id, with linear
    scans, as the diff engine does for both fields and tables. The id of an
    entity is read through `key`; everything here is generic in the entity. */
module Matching {
  import opened Schema

  /** An old value and the new value that carries the same id. */
  datatype Pair<T> = Pair(before: T, after: T)

  /** The ids of `s`, position by position. */
  function Ids<T>(s: seq<T>, key: T -> string): (r: seq<string>)
    ensures |r| == |s|
    ensures forall i :: 0 <= i < |s| ==> r[i] == key(s[i])
  {
    if |s| == 0 then [] else [key(s[0])] + Ids(s[1..], key)
  }

  /** No two entities of `s` share an id (what the upstream validator is
      trusted to guarantee for each snapshot). */
  predicate UniqueIds<T>(s: seq<T>, key: T -> string)
  {
    Distinct(Ids(s, key))
  }

  /** The first entity of `s` whose id is `id`, as `Array.prototype.find`
      returns it; `None` when no entity has that id. */
  function Find<T>(s: seq<T>, key: T -> string, id: string): (r: Option<T>)
    ensures r.Some? <==> id in Ids(s, key)
    ensures r.Some? ==> r.value in s && key(r.value) == id
  {
    if |s| == 0 then None
    else if key(s[0]) == id then Some(s[0])
    else
      assert Ids(s, key) == [key(s[0])] + Ids(s[1..], key);
      Find(s[1..], key, id)
  }

  /** `Find` returns the first entity bearing the id: an entity is found when
      no entity before it has its id. */
  lemma {:induction false} FindFirst<T>(s: seq<T>, key: T -> string, i: int)
    requires 0 <= i < |s|
    requires forall j :: 0 <= j < i ==> key(s[j]) != key(s[i])
    ensures Find(s, key, key(s[i])) == Some(s[i])
  {
    if i > 0 {
      FindFirst(s[1..], key, i - 1);
    }
  }

  /** With unique ids, looking up the id of any element finds that element. */
  lemma {:induction false} FindUnique<T>(s: seq<T>, key: T -> string, i: int)
    requires UniqueIds(s, key)
    requires 0 <= i < |s|
    ensures Find(s, key, key(s[i])) == Some(s[i])
  {
    assert forall j :: 0 <= j < i ==> Ids(s, key)[j] != Ids(s, key)[i];
    FindFirst(s, key, i);
  }

  /** With unique ids, every element finds itself. */
  lemma {:induction false} SelfFinds<T>(s: seq<T>, key: T -> string)
    requires UniqueIds(s, key)
    ensures forall j :: 0 <= j < |s| ==> Find(s, key, key(s[j])) == Some(s[j])
  {
    forall j | 0 <= j < |s| ensures Find(s, key, key(s[j])) == Some(s[j]) {
      FindUnique(s, key, j);
    }
  }

  /** The entities of `s` whose id has no match in `others`, in the order of
      `s`: the new side's `created` and the old side's `deleted`. */
  function Unmatched<T>(s: seq<T>, others: seq<T>, key: T -> string): (r: seq<T>)
    ensures |r| <= |s|
    ensures |others| == 0 ==> r == s
  {
    if |s| == 0 then []
    else
      var rest := Unmatched(s[1..], others, key);
      if Find(others, key, key(s[0])).None? then [s[0]] + rest else rest
  }

  /** The matched entities whose old and new values differ, as pairs in the
      order of `news`. The old value is the one a linear lookup by id finds. */
  function Changed<T(==)>(olds: seq<T>, news: seq<T>, key: T -> string): (r: seq<Pair<T>>)
    ensures |r| <= |news|
    ensures |olds| == 0 ==> r == []
  {
    if |news| == 0 then []
    else
      var rest := Changed(olds, news[1..], key);
      match Find(olds, key, key(news[0]))
      case Some(o) => if o != news[0] then [Pair(o, news[0])] + rest else rest
      case None => rest
  }

  /** The new-side values of a list of pairs. */
  function Afters<T>(ps: seq<Pair<T>>): (r: seq<T>)
    ensures |r| == |ps|
    ensures forall i :: 0 <= i < |ps| ==> r[i] == ps[i].after
  {
    if |ps| == 0 then [] else [ps[0].after] + Afters(ps[1..])
  }

  lemma AftersAppend<T>(a: seq<Pair<T>>, b: seq<Pair<T>>)
    ensures Afters(a + b) == Afters(a) + Afters(b)
  {
  }

  /** An entity is unmatched exactly when it belongs to `s` and no entity of
      `others` carries its id. */
  lemma {:induction false} UnmatchedMembers<T>(s: seq<T>, others: seq<T>, key: T -> string)
    ensures forall x :: x in Unmatched(s, others, key) <==> x in s && key(x) !in Ids(others, key)
  {
    if |s| > 0 {
      UnmatchedMembers(s[1..], others, key);
      assert forall x :: x in s <==> x == s[0] || x in s[1..];
    }
  }

  /** A pair is reported exactly when its new value belongs to `news`, the
      lookup by id finds its old value, and the two values differ. */
  lemma {:induction false} ChangedMembers<T>(olds: seq<T>, news: seq<T>, key: T -> string)
    ensures forall p :: p in Changed(olds, news, key) <==>
      p.after in news && Find(olds, key, key(p.after)) == Some(p.before) && p.before != p.after
  {
    if |news| > 0 {
      ChangedMembers(olds, news[1..], key);
      assert forall x :: x in news <==> x == news[0] || x in news[1..];
    }
  }

  /** Order preservation: filtering a concatenation filters each part in place,
      so `Unmatched` keeps the relative order of `s`. */
  lemma {:induction false} UnmatchedAppend<T>(a: seq<T>, b: seq<T>, others: seq<T>, key: T -> string)
    ensures Unmatched(a + b, others, key) == Unmatched(a, others, key) + Unmatched(b, others, key)
  {
    if |a| > 0 {
      assert (a + b)[1..] == a[1..] + b;
      UnmatchedAppend(a[1..], b, others, key);
    } else {
      assert a + b == b;
    }
  }

  /** Order preservation for `Changed`: pairs follow the order of `news`. */
  lemma {:induction false} ChangedAppend<T>(olds: seq<T>, a: seq<T>, b: seq<T>, key: T -> string)
    ensures Changed(olds, a + b, key) == Changed(olds, a, key) + Changed(olds, b, key)
  {
    if |a| > 0 {
      assert (a + b)[1..] == a[1..] + b;
      ChangedAppend(olds, a[1..], b, key);
    } else {
      assert a + b == b;
    }
  }

  lemma DistinctPrepend(x: string, ss: seq<string>)
    requires Distinct(ss)
    requires x !in ss
    ensures Distinct([x] + ss)
  {
  }

  lemma DistinctTail(ss: seq<string>)
    requires |ss| > 0 && Distinct(ss)
    ensures Distinct(ss[1..]) && ss[0] !in ss[1..]
  {
    assert forall j, k :: 0 <= j < k < |ss[1..]| ==> ss[1..][j] == ss[j + 1] && ss[1..][k] == ss[k + 1];
  }

  lemma DistinctConcat(a: seq<string>, b: seq<string>)
    requires Distinct(a) && Distinct(b)
    requires forall x :: x in a ==> x !in b
    ensures Distinct(a + b)
  {
    forall i, j | 0 <= i < j < |a + b|
      ensures (a + b)[i] != (a + b)[j]
    {
      if j < |a| {
      } else if i < |a| {
        assert (a + b)[i] in a && (a + b)[j] == b[j - |a|];
      } else {
        assert (a + b)[i] == b[i - |a|] && (a + b)[j] == b[j - |a|];
      }
    }
  }

  /** Filtering a list with unique ids keeps the ids unique. */
  lemma {:induction false} UnmatchedUnique<T>(s: seq<T>, others: seq<T>, key: T -> string)
    requires UniqueIds(s, key)
    ensures UniqueIds(Unmatched(s, others, key), key)
  {
    if |s| > 0 {
      assert Ids(s, key)[1..] == Ids(s[1..], key);
      DistinctTail(Ids(s, key));
      UnmatchedUnique(s[1..], others, key);
      UnmatchedMembers(s[1..], others, key);
      var rest := Unmatched(s[1..], others, key);
      if Find(others, key, key(s[0])).None? {
        assert key(s[0]) !in Ids(rest, key);
        assert Ids([s[0]] + rest, key) == [key(s[0])] + Ids(rest, key);
        DistinctPrepend(key(s[0]), Ids(rest, key));
      }
    }
  }

  /** The new-side values of `Changed` keep the new side's ids unique. */
  lemma {:induction false} ChangedUnique<T>(olds: seq<T>, news: seq<T>, key: T -> string)
    requires UniqueIds(news, key)
    ensures UniqueIds(Afters(Changed(olds, news, key)), key)
  {
    if |news| > 0 {
      assert Ids(news, key)[1..] == Ids(news[1..], key);
      DistinctTail(Ids(news, key));
      ChangedUnique(olds, news[1..], key);
      ChangedMembers(olds, news[1..], key);
      var rest := Changed(olds, news[1..], key);
      var o := Find(olds, key, key(news[0]));
      if o.Some? && o.value != news[0] {
        assert Changed(olds, news, key) == [Pair(o.value, news[0])] + rest;
        assert Afters([Pair(o.value, news[0])] + rest) == [news[0]] + Afters(rest);
        assert key(news[0]) !in Ids(Afters(rest), key);
        assert Ids([news[0]] + Afters(rest), key) == [key(news[0])] + Ids(Afters(rest), key);
        DistinctPrepend(key(news[0]), Ids(Afters(rest), key));
      }
    }
  }

  /** When every id of `s` occurs in `others`, nothing of `s` is unmatched. */
  lemma {:induction false} AllMatched<T>(s: seq<T>, others: seq<T>, key: T -> string)
    requires forall i :: 0 <= i < |s| ==> key(s[i]) in Ids(others, key)
    ensures Unmatched(s, others, key) == []
  {
    if |s| > 0 {
      AllMatched(s[1..], others, key);
    }
  }

  /** When every entity of `news` finds itself among `olds`, nothing changed. */
  lemma {:induction false} AllUnchanged<T>(olds: seq<T>, news: seq<T>, key: T -> string)
    requires forall i :: 0 <= i < |news| ==> Find(olds, key, key(news[i])) == Some(news[i])
    ensures Changed(olds, news, key) == []
  {
    if |news| > 0 {
      AllUnchanged(olds, news[1..], key);
    }
  }

  /** Matching an id-unique list against itself reports nothing: every element
      finds itself, so nothing is unmatched and nothing differs. */
  lemma {:induction false} SelfMatchIsEmpty<T>(s: seq<T>, key: T -> string)
    requires UniqueIds(s, key)
    ensures Unmatched(s, s, key) == []
    ensures Changed(s, s, key) == []
  {
    AllMatched(s, s, key);
    SelfFinds(s, key);
    AllUnchanged(s, s, key);
  }

  /** Replacing one entity by a different value with the same id (a rename,
      say) is reported as exactly one changed pair and nothing else. */
  lemma {:induction false} ReplaceOne<T>(olds: seq<T>, i: int, x: T, key: T -> string)
    requires UniqueIds(olds, key)
    requires 0 <= i < |olds|
    requires key(x) == key(olds[i]) && x != olds[i]
    ensures Unmatched(olds[i := x], olds, key) == []
    ensures Unmatched(olds, olds[i := x], key) == []
    ensures Changed(olds, olds[i := x], key) == [Pair(olds[i], x)]
  {
    var news := olds[i := x];
    assert Ids(news, key) == Ids(olds, key);
    AllMatched(news, olds, key);
    AllMatched(olds, news, key);
    ReplaceOneChanged(olds, i, x, key);
  }

  lemma {:induction false} ReplaceOneChanged<T>(olds: seq<T>, i: int, x: T, key: T -> string)
    requires UniqueIds(olds, key)
    requires 0 <= i < |olds|
    requires key(x) == key(olds[i]) && x != olds[i]
    ensures Changed(olds, olds[i := x], key) == [Pair(olds[i], x)]
  {
    var pre, post := olds[0..i], olds[i + 1..|olds|];
    assert olds[i := x] == (pre + [x]) + post;
    FindUnique(olds, key, i);
    UnchangedSlice(olds, 0, i, key);
    UnchangedSlice(olds, i + 1, |olds|, key);
    ChangedSingle(olds, olds[i], x, key);
    ChangedAppend(olds, pre + [x], post, key);
    ChangedAppend(olds, pre, [x], key);
    calc {
      Changed(olds, olds[i := x], key);
      Changed(olds, pre + [x], key) + Changed(olds, post, key);
      Changed(olds, pre, key) + Changed(olds, [x], key);
      [Pair(olds[i], x)];
    }
  }

  lemma ChangedSingle<T>(olds: seq<T>, o: T, x: T, key: T -> string)
    requires Find(olds, key, key(x)) == Some(o) && o != x
    ensures Changed(olds, [x], key) == [Pair(o, x)]
  {
    assert [x][1..] == [];
  }

  /** A slice of an id-unique list, matched against the whole list, changed
      nothing. */
  lemma {:induction false} UnchangedSlice<T>(s: seq<T>, lo: int, hi: int, key: T -> string)
    requires 0 <= lo <= hi <= |s|
    requires UniqueIds(s, key)
    ensures Changed(s, s[lo..hi], key) == []
  {
    SelfFinds(s, key);
    assert forall j :: 0 <= j < hi - lo ==> s[lo..hi][j] == s[lo + j];
    AllUnchanged(s, s[lo..hi], key);
  }

  /** Every id in the unmatched part of `s` is an id of `s` and of no entity
      of `others`. */
  lemma UnmatchedIds<T>(s: seq<T>, others: seq<T>, key: T -> string)
    ensures forall x :: x in Ids(Unmatched(s, others, key), key) ==>
      x in Ids(s, key) && x !in Ids(others, key)
  {
    var us := Unmatched(s, others, key);
    UnmatchedMembers(s, others, key);
    forall x | x in Ids(us, key) ensures x in Ids(s, key) && x !in Ids(others, key) {
      var i :| 0 <= i < |us| && key(us[i]) == x;
      assert us[i] in us;
    }
  }

  /** Every id of a changed pair is an id on both sides. */
  lemma ChangedIds<T>(olds: seq<T>, news: seq<T>, key: T -> string)
    ensures forall x :: x in Ids(Afters(Changed(olds, news, key)), key) ==>
      x in Ids(news, key) && x in Ids(olds, key)
  {
    var ps := Changed(olds, news, key);
    var afters := Afters(ps);
    ChangedMembers(olds, news, key);
    forall x | x in Ids(afters, key) ensures x in Ids(news, key) && x in Ids(olds, key) {
      var i :| 0 <= i < |afters| && key(afters[i]) == x;
      assert ps[i] in ps;
    }
  }

  /** No id occurs twice across created, updated and deleted. */
  lemma Partition<T>(olds: seq<T>, news: seq<T>, key: T -> string)
    requires UniqueIds(olds, key) && UniqueIds(news, key)
    ensures Distinct(Ids(Unmatched(news, olds, key), key)
                   + Ids(Afters(Changed(olds, news, key)), key)
                   + Ids(Unmatched(olds, news, key), key))
  {
    var c := Ids(Unmatched(news, olds, key), key);
    var u := Ids(Afters(Changed(olds, news, key)), key);
    var d := Ids(Unmatched(olds, news, key), key);
    UnmatchedUnique(news, olds, key);
    UnmatchedUnique(olds, news, key);
    ChangedUnique(olds, news, key);
    UnmatchedIds(news, olds, key);
    UnmatchedIds(olds, news, key);
    ChangedIds(olds, news, key);
    DistinctConcat(c, u);
    DistinctConcat(c + u, d);
  }
}
