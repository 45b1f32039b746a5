/** The dictionary lookups of `DictionaryUlPb` (dictionary.cpp): which table
    a key lives in, the query `build_sql` chooses for a segmentation, and the
    key pattern `filter_key_value_list` applies to the rows of an
    abbreviation query.

    The SQLite database is not modelled as SQL text: a query is a value of
    `Query`, and the database is a function from queries to rows (see
    `Engine.Env`). */
module Query {
  import opened Text

  /** A row of a dictionary table: the typed key, the word, its weight. */
  datatype WordItem = WordItem(key: string, word: string, weight: int)

  /** The word-length part of a table name: `tbl_<n>_<lead>` or
      `tbl_others_<lead>`. */
  datatype TableSize = Words(count: nat) | Others

  datatype Table = Table(size: TableSize, lead: char)

  /** `default_candicate_page_limit`: the row limit of key and range queries. */
  const PageLimit: nat := 80

  /** Words of this many characters or more share the "others" table. */
  const OthersFrom: nat := 8

  /** The queries `build_sql` issues. Key and range queries are ordered by
      descending weight and limited to `PageLimit` rows; the abbreviation
      query has neither order nor limit. `NoQuery` is the empty SQL text of
      the all-abbreviation branch, which yields no rows. */
  datatype Query =
    | ByKey(table: Table, key: string)
    | NoQuery
    | KeyRange(table: Table, lo: string, hi: string)
    | ByAbbrev(table: Table, jp: string)

  /** `choose_tbl`: the table holding words of `n` characters whose key
      starts with the first character of `s` (NUL for an empty `s`). */
  function ChooseTbl(s: string, n: nat): (t: Table)
    ensures t.lead == CharAt(s, 0)
    ensures t.size == Others <==> n >= OthersFrom
    ensures t.size.Words? ==> t.size.count == n
  {
    Table(if n >= OthersFrom then Others else Words(n), CharAt(s, 0))
  }

  /** The abbreviation column of a key (the `jp` loop of `create_word` and of
      the weight update): the characters at even positions. */
  function Abbrev(key: string): (jp: string)
    ensures |jp| == (|key| + 1) / 2
    ensures forall i :: 0 <= i < |jp| ==> jp[i] == key[2 * i]
  {
    if |key| == 0 then ""
    else if |key| <= 2 then key[..1]
    else [key[0]] + Abbrev(key[2..])
  }

  /** How many groups are a single key (`jp_cnt`). */
  function AbbrevCount(gs: seq<string>): (n: nat)
    ensures n <= |gs|
    ensures n == 0 <==> forall i :: 0 <= i < |gs| ==> |gs[i]| != 1
    ensures n == |gs| <==> forall i :: 0 <= i < |gs| ==> |gs[i]| == 1
  {
    if |gs| == 0 then 0
    else
      var rest := AbbrevCount(gs[1..]);
      assert forall i :: 1 <= i < |gs| ==> gs[i] == gs[1..][i - 1];
      (if |gs[0]| == 1 then 1 else 0) + rest
  }

  /** A bound of the range query: every single-key group followed by `c`. */
  function RangeBound(gs: seq<string>, c: char): string
  {
    if |gs| == 0 then ""
    else (if |gs[0]| == 1 then gs[0] + [c] else gs[0]) + RangeBound(gs[1..], c)
  }

  /** The abbreviation query's parameter: the first key of every group. */
  function Initials(gs: seq<string>): string
  {
    if |gs| == 0 then ""
    else (if |gs[0]| == 0 then "" else gs[0][..1]) + Initials(gs[1..])
  }

  /** `build_sql`: the query for the typed keys `s` cut into the groups `gs`,
      and whether its rows must still be filtered by the key pattern. */
  function BuildSql(s: string, gs: seq<string>): (r: (Query, bool))
    // no single-key group (also no group at all): the exact key
    ensures r.0.ByKey? <==> AbbrevCount(gs) == 0
    ensures r.0.ByKey? ==> r.0.key == s
    // only single-key groups: nothing is asked
    ensures r.0.NoQuery? <==> |gs| > 0 && AbbrevCount(gs) == |gs|
    // one single-key group among full syllables: a key range
    ensures r.0.KeyRange? <==> AbbrevCount(gs) == 1 && |gs| > 1
    ensures r.0.KeyRange? ==> r.0.lo == RangeBound(gs, 'a') && r.0.hi == RangeBound(gs, 'z')
    // several single-key groups among full syllables: by abbreviation, then filtered
    ensures r.0.ByAbbrev? <==> 2 <= AbbrevCount(gs) < |gs|
    ensures r.0.ByAbbrev? ==> r.0.jp == Initials(gs)
    ensures r.1 <==> r.0.ByAbbrev?
    // the table depends on the first key and the number of groups only
    ensures !r.0.NoQuery? ==> r.0.table == ChooseTbl(s, |gs|)
  {
    var jpCnt := AbbrevCount(gs);
    var table := ChooseTbl(s, |gs|);
    if jpCnt == 0 then (ByKey(table, s), false)
    else if jpCnt == |gs| then (NoQuery, false)
    else if jpCnt == 1 then (KeyRange(table, RangeBound(gs, 'a'), RangeBound(gs, 'z')), false)
    else (ByAbbrev(table, Initials(gs)), true)
  }

  /** A position of the key pattern: a literal key or `[a-z]`. */
  datatype Token = Lit(c: char) | AnyLower

  predicate TokenMatches(t: Token, c: char)
  {
    match t
    case Lit(d) => c == d
    case AnyLower => IsLower(c)
  }

  function Lits(g: string): (p: seq<Token>)
    ensures |p| == |g|
    ensures forall i :: 0 <= i < |g| ==> p[i] == Lit(g[i])
  {
    seq(|g|, i requires 0 <= i < |g| => Lit(g[i]))
  }

  /** The regular expression of `filter_key_value_list`: a two-key group
      stands for itself, any other group for itself followed by `[a-z]`. */
  function Pattern(gs: seq<string>): seq<Token>
  {
    if |gs| == 0 then []
    else Lits(gs[0]) + (if |gs[0]| == 2 then [] else [AnyLower]) + Pattern(gs[1..])
  }

  /** `regex_match`: the whole key matches the pattern, position by position. */
  predicate Matches(p: seq<Token>, k: string)
  {
    |p| == |k| && forall i :: 0 <= i < |k| ==> TokenMatches(p[i], k[i])
  }

  /** The meaning of the pattern, group by group: a key is the groups in
      order, with one lower-case letter completing each group that is not a
      full two-key syllable. */
  predicate MatchesGroups(gs: seq<string>, k: string)
  {
    if |gs| == 0 then |k| == 0
    else
      var g := gs[0];
      if |g| == 2 then |k| >= 2 && k[..2] == g && MatchesGroups(gs[1..], k[2..])
      else |k| > |g| && k[..|g|] == g && IsLower(k[|g|]) && MatchesGroups(gs[1..], k[|g| + 1..])
  }

  lemma {:induction false} MatchesAppend(a: seq<Token>, b: seq<Token>, k: string)
    ensures Matches(a + b, k) <==> |k| >= |a| && Matches(a, k[..|a|]) && Matches(b, k[|a|..])
  {
    if |k| >= |a| && Matches(a, k[..|a|]) && Matches(b, k[|a|..]) {
      forall i | 0 <= i < |k|
        ensures TokenMatches((a + b)[i], k[i])
      {
        if i < |a| {
          assert k[..|a|][i] == k[i];
        } else {
          assert k[|a|..][i - |a|] == k[i];
        }
      }
    }
    if Matches(a + b, k) {
      forall i | 0 <= i < |a|
        ensures TokenMatches(a[i], k[..|a|][i])
      {
        assert (a + b)[i] == a[i];
      }
      forall i | 0 <= i < |b|
        ensures TokenMatches(b[i], k[|a|..][i])
      {
        assert (a + b)[|a| + i] == b[i];
      }
    }
  }

  lemma {:induction false} MatchesLits(g: string, u: string)
    ensures Matches(Lits(g), u) <==> u == g
  {
  }

  /** The pattern matches exactly the keys `MatchesGroups` describes. */
  lemma {:induction false} PatternMatchesGroups(gs: seq<string>, k: string)
    ensures Matches(Pattern(gs), k) <==> MatchesGroups(gs, k)
  {
    if |gs| > 0 {
      var g := gs[0];
      var tail: seq<Token> := if |g| == 2 then [] else [AnyLower];
      var h := Lits(g) + tail;
      var p := Pattern(gs[1..]);
      assert Pattern(gs) == h + p;
      MatchesAppend(h, p, k);
      if |k| >= |h| {
        var u := k[..|h|];
        MatchesAppend(Lits(g), tail, u);
        MatchesLits(g, u[..|g|]);
        PatternMatchesGroups(gs[1..], k[|h|..]);
        assert u[..|g|] == k[..|g|];
        if |g| != 2 {
          assert u[|g|..] == [k[|g|]];
        }
      }
    }
  }

  lemma {:induction false} PatternMatchesGroupsAll(gs: seq<string>)
    ensures forall k :: Matches(Pattern(gs), k) <==> MatchesGroups(gs, k)
  {
    forall k
      ensures Matches(Pattern(gs), k) <==> MatchesGroups(gs, k)
    {
      PatternMatchesGroups(gs, k);
    }
  }

  /** `filter_key_value_list`: the rows whose key matches the pattern of the
      groups, in their original order. */
  function FilterKeyValueList(gs: seq<string>, rows: seq<WordItem>): (r: seq<WordItem>)
    ensures IsSubseq(r, rows)
    ensures forall x :: x in r <==> x in rows && MatchesGroups(gs, x.key)
    ensures forall x :: Count(r, x) == if MatchesGroups(gs, x.key) then Count(rows, x) else 0
  {
    PatternMatchesGroupsAll(gs);
    FilterCounts(rows, (x: WordItem) => Matches(Pattern(gs), x.key));
    Filter(rows, (x: WordItem) => Matches(Pattern(gs), x.key))
  }

  /** Without single-key groups the bounds are the key itself. */
  lemma {:induction false} RangeBoundOfFull(gs: seq<string>, k: string, c: char)
    requires AbbrevCount(gs) == 0
    requires forall i :: 0 <= i < |gs| ==> |gs[i]| == 2
    requires MatchesGroups(gs, k)
    ensures RangeBound(gs, c) == k
  {
    if |gs| > 0 {
      RangeBoundOfFull(gs[1..], k[2..], c);
      assert k == k[..2] + k[2..];
    }
  }

  /** The range query misses no matching key: with one single-key group,
      every key of the group pattern lies between the two bounds, because the
      completing letter lies between 'a' and 'z'. */
  lemma {:induction false} RangeCoversMatches(gs: seq<string>, k: string)
    requires AbbrevCount(gs) <= 1
    requires forall i :: 0 <= i < |gs| ==> 1 <= |gs[i]| <= 2
    requires MatchesGroups(gs, k)
    ensures LexLe(RangeBound(gs, 'a'), k) && LexLe(k, RangeBound(gs, 'z'))
  {
    if |gs| == 0 {
      LexLeRefl(k);
    } else {
      var g := gs[0];
      if |g| == 2 {
        var k' := k[2..];
        RangeCoversMatches(gs[1..], k');
        assert k == g + k';
        LexLePrefix(g, RangeBound(gs[1..], 'a'), k');
        LexLePrefix(g, k', RangeBound(gs[1..], 'z'));
      } else {
        var x := k[1];
        var k' := k[2..];
        assert AbbrevCount(gs[1..]) == 0;
        RangeBoundOfFull(gs[1..], k', 'a');
        RangeBoundOfFull(gs[1..], k', 'z');
        assert k == g + [x] + k';
        LexLeAt(g, 'a', x, k');
        LexLeAt(g, x, 'z', k');
      }
    }
  }

  /** The range is never empty: for any two completing letters in order
      (the source uses 'a' and 'z') the lower bound sorts before the upper
      one. */
  lemma {:induction false} RangeOrdered(gs: seq<string>, lo: char, hi: char)
    requires lo <= hi
    ensures LexLe(RangeBound(gs, lo), RangeBound(gs, hi))
  {
    if lo == hi {
      LexLeRefl(RangeBound(gs, lo));
    } else if |gs| > 0 {
      var g := gs[0];
      RangeOrdered(gs[1..], lo, hi);
      if |g| == 1 {
        LexLeBelow(g, lo, hi, RangeBound(gs[1..], lo), RangeBound(gs[1..], hi));
      } else {
        LexLePrefix(g, RangeBound(gs[1..], lo), RangeBound(gs[1..], hi));
      }
    }
  }

  /** Strings that first differ at one position compare as that position does,
      whatever follows it. */
  lemma {:induction false} LexLeBelow(p: string, x: char, y: char, s: string, t: string)
    requires x < y
    ensures LexLe(p + [x] + s, p + [y] + t)
  {
    if |p| > 0 {
      LexLeBelow(p[1..], x, y, s, t);
      assert (p + [x] + s)[1..] == p[1..] + [x] + s;
      assert (p + [y] + t)[1..] == p[1..] + [y] + t;
    }
  }

  lemma {:induction false} LexLePrefix(p: string, a: string, b: string)
    requires LexLe(a, b)
    ensures LexLe(p + a, p + b)
  {
    if |p| > 0 {
      LexLePrefix(p[1..], a, b);
      assert (p + a)[1..] == p[1..] + a;
      assert (p + b)[1..] == p[1..] + b;
    } else {
      assert p + a == a && p + b == b;
    }
  }

  /** The abbreviation query misses no matching key: every key of the group
      pattern has as abbreviation the first keys of the groups, which is what
      the query asks for. */
  lemma {:induction false} MatchingKeyAbbrev(gs: seq<string>, k: string)
    requires forall i :: 0 <= i < |gs| ==> 1 <= |gs[i]| <= 2
    requires MatchesGroups(gs, k)
    ensures Abbrev(k) == Initials(gs)
  {
    if |gs| > 0 {
      var g := gs[0];
      var k' := if |g| == 2 then k[2..] else k[|g| + 1..];
      assert k' == k[2..];
      MatchingKeyAbbrev(gs[1..], k');
      assert g[..1] == [k[0]];
      if |gs| == 1 {
        assert |k'| == 0;
      }
    }
  }
}
