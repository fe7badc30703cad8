/**
 * Go's `strings.Join(xs, "\n")` and `strings.Split(s, "\n")`, which the `strings`
 * codec wraps around its text coder.
 */
module Lines {

  /** The number of newlines inside the elements of `xs`. */
  function Newlines(xs: seq<string>): nat {
    if xs == [] then 0 else multiset(xs[0])['\n'] + Newlines(xs[1..])
  }

  /**
   * `strings.Join(xs, "\n")`: the elements with a newline between each two. The empty
   * list gives "" and one element gives itself; JoinCons states how a longer list joins.
   */
  function Join(xs: seq<string>): (r: string)
    ensures xs == [] ==> r == ""
    ensures |xs| == 1 ==> r == xs[0]
  {
    if xs == [] then "" else if |xs| == 1 then xs[0] else xs[0] + "\n" + Join(xs[1..])
  }

  /**
   * `strings.Split(s, "\n")`: the pieces between the newlines of `s`. There is always
   * one piece more than there are newlines, and no piece holds a newline.
   */
  function Split(s: string): (r: seq<string>)
    ensures |r| == multiset(s)['\n'] + 1
    ensures forall k :: 0 <= k < |r| ==> '\n' !in r[k]
  {
    if s == [] then [""]
    else
      assert s == [s[0]] + s[1..];
      var rest := Split(s[1..]);
      if s[0] == '\n' then [""] + rest
      else [[s[0]] + rest[0]] + rest[1..]
  }

  /** Joining a list after a first element puts one newline between them. */
  lemma JoinCons(x: string, xs: seq<string>)
    requires xs != []
    ensures Join([x] + xs) == x + "\n" + Join(xs)
  {
    assert ([x] + xs)[1..] == xs;
  }

  /** Putting a character in front of the first element puts it in front of the join. */
  lemma JoinExtendFirst(c: char, xs: seq<string>)
    requires xs != []
    ensures Join([[c] + xs[0]] + xs[1..]) == [c] + Join(xs)
  {
    if |xs| > 1 {
      JoinCons([c] + xs[0], xs[1..]);
      assert xs == [xs[0]] + xs[1..];
      JoinCons(xs[0], xs[1..]);
    }
  }

  /** Joining the pieces of a text restores the text. */
  lemma {:induction false} JoinSplit(s: string)
    ensures Join(Split(s)) == s
  {
    if s != [] {
      var rest := Split(s[1..]);
      JoinSplit(s[1..]);
      assert s == [s[0]] + s[1..];
      if s[0] == '\n' {
        assert Split(s) == [""] + rest;
        JoinCons("", rest);
      } else {
        assert Split(s) == [[s[0]] + rest[0]] + rest[1..];
        JoinExtendFirst(s[0], rest);
      }
    }
  }

  /** A text without newlines splits into itself. */
  lemma {:induction false} SplitLine(a: string)
    requires '\n' !in a
    ensures Split(a) == [a]
  {
    if a != [] {
      assert '\n' !in a[1..] by { assert forall k :: 0 <= k < |a[1..]| ==> a[1..][k] == a[k + 1]; }
      SplitLine(a[1..]);
      assert a == [a[0]] + a[1..];
    }
  }

  /** A newline-free first line followed by a newline splits off as one piece. */
  lemma {:induction false} SplitFirstLine(a: string, t: string)
    requires '\n' !in a
    ensures Split(a + "\n" + t) == [a] + Split(t)
  {
    if a == [] {
      assert [] + "\n" + t == "\n" + t;
      assert ("\n" + t)[1..] == t;
    } else {
      var s := a + "\n" + t;
      assert s[1..] == a[1..] + "\n" + t;
      assert '\n' !in a[1..] by { assert forall k :: 0 <= k < |a[1..]| ==> a[1..][k] == a[k + 1]; }
      SplitFirstLine(a[1..], t);
      assert [a[0]] + a[1..] == a;
    }
  }

  /**
   * Joining then splitting gives back every non-empty list whose elements hold no
   * newline.
   */
  lemma {:induction false} SplitJoin(xs: seq<string>)
    requires xs != []
    requires forall k :: 0 <= k < |xs| ==> '\n' !in xs[k]
    ensures Split(Join(xs)) == xs
  {
    if |xs| == 1 {
      SplitLine(xs[0]);
    } else {
      SplitFirstLine(xs[0], Join(xs[1..]));
      SplitJoin(xs[1..]);
    }
  }

  /** The empty list joins to "" and comes back as one empty line. */
  lemma EmptyListSplitsToOneLine()
    ensures Join([]) == "" && Split(Join([])) == [""]
  {
  }

  /** A join holds the elements' own newlines plus one separator between each two elements. */
  lemma {:induction false} JoinNewlines(xs: seq<string>)
    requires xs != []
    ensures multiset(Join(xs))['\n'] == |xs| - 1 + Newlines(xs)
  {
    if |xs| > 1 {
      JoinNewlines(xs[1..]);
      assert Join(xs) == xs[0] + "\n" + Join(xs[1..]);
      assert multiset(Join(xs)) == multiset(xs[0]) + multiset("\n") + multiset(Join(xs[1..]));
    }
  }

  /**
   * Joining then splitting gives one element more per newline inside the elements,
   * so the round trip keeps the length exactly when no element holds a newline.
   */
  lemma NewlinesInElementsSplit(xs: seq<string>)
    requires xs != []
    ensures |Split(Join(xs))| == |xs| + Newlines(xs)
  {
    JoinNewlines(xs);
  }

  /** For example, `["a\nb"]` comes back as `["a", "b"]`. */
  lemma NewlineInElementSplits()
    ensures Split(Join(["a\nb"])) == ["a", "b"]
  {
    assert Join(["a\nb"]) == "a" + "\n" + "b";
    SplitFirstLine("a", "b");
    SplitLine("b");
  }
}
