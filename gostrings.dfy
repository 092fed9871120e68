/** Go's strings.Split and strings.Join for a one-character separator,
    and the facts about them that the ReplicaSet name trimming relies on. */
module GoStrings {

  /** strings.Split(s, sep) for a non-empty separator: the pieces of `s`
      between occurrences of `sep`. An empty `s` gives one empty piece. */
  function Split(s: string, sep: char): (parts: seq<string>)
    ensures |parts| >= 1
    ensures forall k :: 0 <= k < |parts| ==> sep !in parts[k]
    decreases |s|
  {
    if s == [] then [[]]
    else
      var rest := Split(s[1..], sep);
      if s[0] == sep then [[]] + rest
      else [[s[0]] + rest[0]] + rest[1..]
  }

  /** strings.Join(parts, sep): no parts give "", one part gives itself,
      otherwise the parts with `sep` between neighbours. */
  function Join(parts: seq<string>, sep: char): (s: string)
    ensures |parts| >= 1 ==> parts[0] <= s
  {
    if |parts| == 0 then []
    else if |parts| == 1 then parts[0]
    else parts[0] + [sep] + Join(parts[1..], sep)
  }

  /** The position of the last `c` in `s`, or -1 when `s` has none. */
  function LastIndexOf(s: string, c: char): (i: int)
    ensures -1 <= i < |s|
    ensures i >= 0 ==> s[i] == c
    ensures c !in s[i + 1..]
    ensures i == -1 <==> c !in s
  {
    if s == [] then -1
    else if s[|s| - 1] == c then |s| - 1
    else
      var i := LastIndexOf(s[..|s| - 1], c);
      assert s[i + 1..] == s[..|s| - 1][i + 1..] + [s[|s| - 1]];
      i
  }

  /** The last occurrence is the only one with no occurrence after it. */
  lemma LastIndexOfUnique(s: string, c: char, j: int)
    requires 0 <= j < |s| && s[j] == c && c !in s[j + 1..]
    ensures LastIndexOf(s, c) == j
  {
  }

  /** Joining after splitting gives back the original string. */
  lemma {:induction false} JoinSplit(s: string, sep: char)
    ensures Join(Split(s, sep), sep) == s
    decreases |s|
  {
    if s != [] {
      var rest := Split(s[1..], sep);
      JoinSplit(s[1..], sep);
      if s[0] == sep {
        assert Join([[]] + rest, sep) == [] + [sep] + Join(rest, sep);
      } else {
        JoinConsHead(s[0], rest[0], rest[1..], sep);
        assert [rest[0]] + rest[1..] == rest;
      }
      assert [s[0]] + s[1..] == s;
    }
  }

  /** Prepending a character to the first part prepends it to the join. */
  lemma JoinConsHead(c: char, p: string, ps: seq<string>, sep: char)
    ensures Join([[c] + p] + ps, sep) == [c] + Join([p] + ps, sep)
  {
  }

  /** Split yields one more piece than there are separators in `s`. */
  lemma {:induction false} SplitCount(s: string, sep: char)
    ensures |Split(s, sep)| == multiset(s)[sep] + 1
    decreases |s|
  {
    if s != [] {
      SplitCount(s[1..], sep);
      assert s == [s[0]] + s[1..];
      assert multiset(s) == multiset([s[0]]) + multiset(s[1..]);
    }
  }

  /** Split yields at least two pieces exactly when `s` holds a separator. */
  lemma SplitHasTwoPieces(s: string, sep: char)
    ensures |Split(s, sep)| >= 2 <==> sep in s
  {
  }

  /** Joining every piece but the last gives the prefix of `s` before its
      last separator. */
  lemma {:induction false} JoinAllButLast(s: string, sep: char, i: int)
    requires 0 <= i < |s| && s[i] == sep && sep !in s[i + 1..]
    ensures |Split(s, sep)| >= 2
    ensures Join(Split(s, sep)[..|Split(s, sep)| - 1], sep) == s[..i]
    decreases |s|
  {
    var parts := Split(s, sep);
    var rest := Split(s[1..], sep);
    SplitHasTwoPieces(s, sep);
    assert s[i] in s;
    if s[0] == sep && i == 0 {
      assert s[1..] == s[i + 1..];
      SplitHasTwoPieces(s[1..], sep);
      assert parts[..|parts| - 1] == [[]];
    } else {
      JoinAllButLast(s[1..], sep, i - 1);
      assert s[1..][i - 1 + 1..] == s[i + 1..];
      var init := rest[..|rest| - 1];
      assert Join(init, sep) == s[1..i];
      if s[0] == sep {
        assert parts[..|parts| - 1] == [[]] + init;
        assert Join([[]] + init, sep) == [] + [sep] + Join(init, sep);
      } else {
        assert parts[..|parts| - 1] == [[s[0]] + rest[0]] + rest[1..|rest| - 1];
        JoinConsHead(s[0], rest[0], rest[1..|rest| - 1], sep);
        assert [rest[0]] + rest[1..|rest| - 1] == init;
      }
      assert s[..i] == [s[0]] + s[1..i];
    }
  }

  /** A string without the separator splits into itself alone. */
  lemma {:induction false} SplitWithoutSeparator(p: string, sep: char)
    requires sep !in p
    ensures Split(p, sep) == [p]
    decreases |p|
  {
    if p != [] {
      SplitWithoutSeparator(p[1..], sep);
      assert [p[0]] + p[1..] == p;
    }
  }

  /** A separator-free piece followed by a separator splits off as the
      first piece. */
  lemma {:induction false} SplitAfterPiece(p: string, t: string, sep: char)
    requires sep !in p
    ensures Split(p + [sep] + t, sep) == [p] + Split(t, sep)
    decreases |p|
  {
    var s := p + [sep] + t;
    if p == [] {
      assert s[1..] == t;
    } else {
      SplitAfterPiece(p[1..], t, sep);
      assert s[1..] == p[1..] + [sep] + t;
      assert [p[0]] + p[1..] == p;
    }
  }

  /** Splitting after joining gives back the pieces, provided there is at
      least one piece and none contains the separator. */
  lemma {:induction false} SplitJoin(parts: seq<string>, sep: char)
    requires |parts| >= 1 && forall k :: 0 <= k < |parts| ==> sep !in parts[k]
    ensures Split(Join(parts, sep), sep) == parts
    decreases |parts|
  {
    if |parts| == 1 {
      SplitWithoutSeparator(parts[0], sep);
    } else {
      SplitJoin(parts[1..], sep);
      SplitAfterPiece(parts[0], Join(parts[1..], sep), sep);
      assert [parts[0]] + parts[1..] == parts;
    }
  }

  /** Joining separator-free pieces puts exactly one separator between
      each pair of neighbours. */
  lemma {:induction false} JoinCount(parts: seq<string>, sep: char)
    requires |parts| >= 1 && forall k :: 0 <= k < |parts| ==> sep !in parts[k]
    ensures multiset(Join(parts, sep))[sep] == |parts| - 1
    decreases |parts|
  {
    if |parts| > 1 {
      JoinCount(parts[1..], sep);
      assert multiset(Join(parts, sep)) == multiset(parts[0]) + multiset([sep]) + multiset(Join(parts[1..], sep));
    } else {
      assert sep !in multiset(parts[0]);
    }
  }
}
