/** Text as a list of lines. `Join` is the `join('\n')` the formatter uses:
    it puts one newline between consecutive lines and none at the end. */
module Lines {

  /** The arrow that separates an old value from a new one. */
  const Arrow: string := " \U{2192} "

  function Join(ls: seq<string>): (s: string)
    ensures |ls| == 0 ==> s == ""
  {
    if |ls| == 0 then ""
    else if |ls| == 1 then ls[0]
    else ls[0] + "\n" + Join(ls[1..])
  }

  /** Joining two non-empty runs of lines puts exactly one newline between
      them. */
  lemma {:induction false} JoinAppend(a: seq<string>, b: seq<string>)
    requires |a| > 0 && |b| > 0
    ensures Join(a + b) == Join(a) + "\n" + Join(b)
  {
    if |a| == 1 {
      assert (a + b)[1..] == b;
    } else {
      assert (a + b)[1..] == a[1..] + b;
      JoinAppend(a[1..], b);
    }
  }

  /** One more line costs one more newline. */
  lemma JoinSnoc(a: seq<string>, l: string)
    requires |a| > 0
    ensures Join(a + [l]) == Join(a) + "\n" + l
  {
    JoinAppend(a, [l]);
  }

  /** Prefixing joined text indents its first line only. */
  lemma {:induction false} JoinPrefix(p: string, ls: seq<string>)
    requires |ls| > 0
    ensures p + Join(ls) == Join([p + ls[0]] + ls[1..])
  {
    if |ls| > 1 {
      assert ([p + ls[0]] + ls[1..])[1..] == ls[1..];
    }
  }

  /** Lines split off a text at its newlines: the inverse of `Join`. */
  function Split(s: string): (ls: seq<string>)
    ensures |ls| > 0
    decreases |s|
  {
    if '\n' in s then
      var i := IndexOfNewline(s);
      [s[..i]] + Split(s[i + 1..])
    else [s]
  }

  function IndexOfNewline(s: string): (i: nat)
    requires '\n' in s
    ensures i < |s| && s[i] == '\n' && '\n' !in s[..i]
  {
    if s[0] == '\n' then 0
    else
      assert s == [s[0]] + s[1..];
      1 + IndexOfNewline(s[1..])
  }

  /** Splitting joined lines gives the lines back, provided none of them
      holds a newline of its own. */
  lemma {:induction false} SplitJoin(ls: seq<string>)
    requires |ls| > 0
    requires forall i :: 0 <= i < |ls| ==> '\n' !in ls[i]
    ensures Split(Join(ls)) == ls
  {
    if |ls| > 1 {
      var rest := ls[1..];
      assert forall i :: 0 <= i < |rest| ==> rest[i] == ls[i + 1];
      SplitJoin(rest);
      SplitAtNewline(ls[0], Join(rest));
      assert ls == [ls[0]] + rest;
    }
  }

  /** A newline after a newline-free line ends that line. */
  lemma SplitAtNewline(a: string, b: string)
    requires '\n' !in a
    ensures Split(a + "\n" + b) == [a] + Split(b)
  {
    var s := a + "\n" + b;
    var n := |a|;
    assert s[n] == '\n' && s[..n] == a && s[n + 1..] == b;
    NewlineAt(s, n);
  }

  /** No line split off a text holds a newline. */
  lemma {:induction false} SplitLinesOneLine(s: string)
    ensures forall l :: l in Split(s) ==> '\n' !in l
    decreases |s|
  {
    if '\n' in s {
      var i := IndexOfNewline(s);
      SplitLinesOneLine(s[i + 1..]);
    }
  }

  /** Splitting joined lines gives them back exactly when none of them holds
      a newline: a line with a newline of its own is read back as two. */
  lemma SplitJoinIff(ls: seq<string>)
    requires |ls| > 0
    ensures Split(Join(ls)) == ls <==> forall i :: 0 <= i < |ls| ==> '\n' !in ls[i]
  {
    SplitLinesOneLine(Join(ls));
    if forall i :: 0 <= i < |ls| ==> '\n' !in ls[i] {
      SplitJoin(ls);
    }
  }

  /** The first newline of a text is the one after a newline-free prefix. */
  lemma {:induction false} NewlineAt(s: string, n: nat)
    requires n < |s| && s[n] == '\n' && '\n' !in s[..n]
    ensures '\n' in s && IndexOfNewline(s) == n
  {
    if n > 0 {
      assert s[0] in s[..n];
      assert s[1..][..n - 1] == s[1..n];
      assert forall c :: c in s[1..n] ==> c in s[..n];
      NewlineAt(s[1..], n - 1);
    }
  }
}
