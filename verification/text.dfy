/** Byte-string helpers shared by the whole model.

    A C++ `std::string` is a sequence of bytes; here it is a Dafny `string`
    whose characters carry those byte values. Pinyin strings are plain ASCII
    letters, words are UTF-8 byte strings. The group separator of a
    segmentation is the apostrophe. */
module Text {

  datatype Option<T> = None | Some(value: T)

  const Quote: char := '\''

  /** `s[i]` with the meaning of `std::string::operator[]`: reading at
      `size()` yields the terminating NUL character. */
  function CharAt(s: string, i: nat): (c: char)
    ensures i < |s| ==> c == s[i]
    ensures i >= |s| ==> c == '\0'
  {
    if i < |s| then s[i] else '\0'
  }

  predicate IsLower(c: char) { 'a' <= c <= 'z' }

  predicate IsUpper(c: char) { 'A' <= c <= 'Z' }

  predicate IsLowerWord(s: string)
  {
    forall i :: 0 <= i < |s| ==> IsLower(s[i])
  }

  lemma {:induction false} AppendAssoc<T>(a: seq<T>, b: seq<T>, c: seq<T>)
    ensures (a + b) + c == a + (b + c)
  {
  }

  /** The concatenation of a list of strings. */
  function Concat(gs: seq<string>): string
  {
    if |gs| == 0 then "" else gs[0] + Concat(gs[1..])
  }

  /** The groups with `sep` between consecutive ones, never before the first
      nor after the last. */
  function Join(gs: seq<string>, sep: char): string
  {
    if |gs| == 0 then "" else if |gs| == 1 then gs[0] else gs[0] + [sep] + Join(gs[1..], sep)
  }

  predicate SepFree(gs: seq<string>, sep: char)
  {
    forall i :: 0 <= i < |gs| ==> sep !in gs[i]
  }

  /** Index of the first `c` in `s` (`std::string::find`). */
  function IndexOf(s: string, c: char): (r: Option<nat>)
    ensures r.None? <==> c !in s
    ensures r.Some? ==> r.value < |s| && s[r.value] == c && c !in s[..r.value]
  {
    if |s| == 0 then None
    else if s[0] == c then Some(0)
    else
      match IndexOf(s[1..], c)
      case None => None
      case Some(i) =>
        assert s[..i + 1] == [s[0]] + s[1..][..i];
        Some(i + 1)
  }

  /** `boost::split(out, s, is_any_of(sep))` without token compression: every
      separator splits, adjacent separators give an empty token, and the
      empty string gives one empty token. */
  function Split(s: string, sep: char): (r: seq<string>)
    ensures |r| >= 1
    ensures SepFree(r, sep)
    decreases |s|
  {
    match IndexOf(s, sep)
    case None => [s]
    case Some(i) => [s[..i]] + Split(s[i + 1..], sep)
  }

  /** Joining the tokens of a split gives back the string; there is one
      token exactly when the separator does not occur. */
  lemma {:induction false} JoinSplit(s: string, sep: char)
    ensures Join(Split(s, sep), sep) == s
    ensures |Split(s, sep)| == 1 <==> sep !in s
    decreases |s|
  {
    match IndexOf(s, sep)
    case None =>
    case Some(i) =>
      var rest := Split(s[i + 1..], sep);
      JoinSplit(s[i + 1..], sep);
      assert s == s[..i] + [sep] + s[i + 1..];
  }

  /** Joining splits off the first group. */
  lemma {:induction false} JoinHead(gs: seq<string>, sep: char)
    requires |gs| >= 1
    ensures Join(gs, sep) == gs[0] + (if |gs| == 1 then "" else [sep] + Join(gs[1..], sep))
  {
  }

  /** Joining splits off the last group. */
  lemma {:induction false} JoinLast(gs: seq<string>, sep: char)
    requires |gs| >= 2
    ensures Join(gs, sep) == Join(gs[..|gs| - 1], sep) + [sep] + gs[|gs| - 1]
  {
    if |gs| == 2 {
      assert gs[..1] == [gs[0]];
    } else {
      JoinLast(gs[1..], sep);
      assert gs[1..][..|gs| - 2] == gs[..|gs| - 1][1..];
    }
  }

  /** `Split` undoes `Join` whenever no group contains the separator. */
  lemma {:induction false} SplitJoin(gs: seq<string>, sep: char)
    requires |gs| >= 1
    requires SepFree(gs, sep)
    ensures Split(Join(gs, sep), sep) == gs
  {
    var s := Join(gs, sep);
    if |gs| == 1 {
      assert sep !in s;
    } else {
      SplitJoin(gs[1..], sep);
      SplitAppend(gs[0], Join(gs[1..], sep), sep);
    }
  }

  /** Splitting `g + sep + t` with a separator-free `g`. */
  lemma {:induction false} SplitAppend(g: string, t: string, sep: char)
    requires sep !in g
    ensures Split(g + [sep] + t, sep) == [g] + Split(t, sep)
  {
    var u := g + [sep] + t;
    var r := IndexOf(u, sep);
    assert u[|g|] == sep;
    assert u[..|g|] == g && u[|g| + 1..] == t;
  }

  /** `s` with every occurrence of `c` removed (`boost::replace_all_copy(s, c, "")`). */
  function RemoveAll(s: string, c: char): (r: string)
    ensures c !in r
    ensures |r| <= |s|
  {
    if |s| == 0 then "" else if s[0] == c then RemoveAll(s[1..], c) else [s[0]] + RemoveAll(s[1..], c)
  }

  lemma {:induction false} RemoveAllAppend(a: string, b: string, c: char)
    ensures RemoveAll(a + b, c) == RemoveAll(a, c) + RemoveAll(b, c)
  {
    if |a| > 0 {
      assert (a + b)[1..] == a[1..] + b;
      RemoveAllAppend(a[1..], b, c);
    } else {
      assert a + b == b;
    }
  }

  lemma {:induction false} RemoveAllAbsent(s: string, c: char)
    requires c !in s
    ensures RemoveAll(s, c) == s
  {
    if |s| > 0 {
      RemoveAllAbsent(s[1..], c);
    }
  }

  /** Deleting the separators of a join gives back the concatenation. */
  lemma {:induction false} RemoveAllJoin(gs: seq<string>, sep: char)
    requires SepFree(gs, sep)
    ensures RemoveAll(Join(gs, sep), sep) == Concat(gs)
  {
    if |gs| == 1 {
      RemoveAllAbsent(gs[0], sep);
    } else if |gs| > 1 {
      RemoveAllJoin(gs[1..], sep);
      RemoveAllAppend(gs[0] + [sep], Join(gs[1..], sep), sep);
      RemoveAllAppend(gs[0], [sep], sep);
      RemoveAllAbsent(gs[0], sep);
    }
  }

  lemma {:induction false} ConcatAppend(a: seq<string>, b: seq<string>)
    ensures Concat(a + b) == Concat(a) + Concat(b)
  {
    if |a| > 0 {
      assert (a + b)[1..] == a[1..] + b;
      ConcatAppend(a[1..], b);
    } else {
      assert a + b == b;
    }
  }

  /** Index of the last `c` in `s` (`std::string::rfind`). */
  function LastIndexOf(s: string, c: char): (r: Option<nat>)
    ensures r.None? <==> c !in s
    ensures r.Some? ==> r.value < |s| && s[r.value] == c && c !in s[r.value + 1..]
  {
    if |s| == 0 then None
    else if s[|s| - 1] == c then Some(|s| - 1)
    else
      var r := LastIndexOf(s[..|s| - 1], c);
      assert s == s[..|s| - 1] + [s[|s| - 1]];
      r
  }

  /** Truncating a join at its last separator drops exactly the last group. */
  lemma {:induction false} TruncateJoin(gs: seq<string>, sep: char)
    requires |gs| >= 2
    requires SepFree(gs, sep)
    ensures LastIndexOf(Join(gs, sep), sep) == Some(|Join(gs[..|gs| - 1], sep)|)
    ensures Join(gs, sep)[..|Join(gs[..|gs| - 1], sep)|] == Join(gs[..|gs| - 1], sep)
  {
    var s := Join(gs, sep);
    var init := Join(gs[..|gs| - 1], sep);
    JoinLast(gs, sep);
    var r := LastIndexOf(s, sep);
    assert s[|init|] == sep;
    assert s[|init| + 1..] == gs[|gs| - 1];
    assert sep !in gs[|gs| - 1];
  }

  /** `a` is an order-preserving subsequence of `b`. */
  predicate IsSubseq<T(==)>(a: seq<T>, b: seq<T>)
    decreases |b|
  {
    |a| == 0 || (|b| > 0 && if a[0] == b[0] then IsSubseq(a[1..], b[1..]) else IsSubseq(a, b[1..]))
  }

  /** The elements of `s` that satisfy `p`, in their original order. */
  function Filter<T(==,!new)>(s: seq<T>, p: T -> bool): (r: seq<T>)
    ensures |r| <= |s|
    ensures forall x :: x in r <==> x in s && p(x)
    ensures IsSubseq(r, s)
  {
    if |s| == 0 then []
    else
      var rest := Filter(s[1..], p);
      assert s == [s[0]] + s[1..];
      if p(s[0]) then
        var r := [s[0]] + rest;
        assert r[1..] == rest;
        r
      else rest
  }

  /** The number of occurrences of `x` in `s`. */
  function Count<T(==)>(s: seq<T>, x: T): nat
  {
    if |s| == 0 then 0 else (if s[0] == x then 1 else 0) + Count(s[1..], x)
  }

  /** Every element the filter keeps appears as often as in `s`. */
  lemma {:induction false} FilterCounts<T(!new)>(s: seq<T>, p: T -> bool)
    ensures forall x :: Count(Filter(s, p), x) == if p(x) then Count(s, x) else 0
    decreases |s|
  {
    if |s| > 0 {
      FilterCounts(s[1..], p);
      if p(s[0]) {
        var r := Filter(s, p);
        assert r == [s[0]] + Filter(s[1..], p);
        assert r[1..] == Filter(s[1..], p);
      }
    }
  }

  lemma {:induction false} FilterAppend<T(!new)>(a: seq<T>, b: seq<T>, p: T -> bool)
    ensures Filter(a + b, p) == Filter(a, p) + Filter(b, p)
  {
    if |a| > 0 {
      assert (a + b)[1..] == a[1..] + b;
      FilterAppend(a[1..], b, p);
    } else {
      assert a + b == b;
    }
  }

  /** Lexicographic order on byte strings (SQLite's BINARY collation). */
  predicate LexLe(a: string, b: string)
  {
    |a| == 0 || (|b| > 0 && (a[0] < b[0] || (a[0] == b[0] && LexLe(a[1..], b[1..]))))
  }

  lemma {:induction false} LexLeRefl(a: string)
    ensures LexLe(a, a)
  {
    if |a| > 0 {
      LexLeRefl(a[1..]);
    }
  }

  /** Strings that agree except at one position compare as that position does. */
  lemma {:induction false} LexLeAt(p: string, x: char, y: char, s: string)
    requires x <= y
    ensures LexLe(p + [x] + s, p + [y] + s)
  {
    if |p| == 0 {
      assert (p + [x] + s)[1..] == s;
      assert (p + [y] + s)[1..] == s;
      LexLeRefl(s);
    } else {
      LexLeAt(p[1..], x, y, s);
      assert (p + [x] + s)[1..] == p[1..] + [x] + s;
      assert (p + [y] + s)[1..] == p[1..] + [y] + s;
    }
  }
}
