/** The forward-greedy segmentation of a typed letter string
    (`pinyin_segmentation` and `is_all_complete_pinyin` in pinyin_utils.cpp),
    stated over an arbitrary test `syl` that says which two-key groups are
    syllables. */
module Segmentation {
  import opened Text

  /** The groups of the forward-greedy scan: two keys when they decode to a
      syllable, otherwise one key; a last lone key is a group of its own. */
  function Groups(syl: string -> bool, s: string): (r: seq<string>)
    ensures forall i :: 0 <= i < |r| ==> 1 <= |r[i]| <= 2
    ensures |r| == 0 <==> |s| == 0
    ensures |r| <= |s|
  {
    if |s| == 0 then []
    else if |s| >= 2 && syl(s[..2]) then [s[..2]] + Groups(syl, s[2..])
    else [s[..1]] + Groups(syl, s[1..])
  }

  /** The groups cut the input into consecutive pieces: concatenated, they
      give the input back. */
  lemma {:induction false} GroupsConcat(syl: string -> bool, s: string)
    ensures Concat(Groups(syl, s)) == s
  {
    if |s| > 0 {
      var n := if |s| >= 2 && syl(s[..2]) then 2 else 1;
      GroupsConcat(syl, s[n..]);
      assert Groups(syl, s)[1..] == Groups(syl, s[n..]);
      assert s == s[..n] + s[n..];
    }
  }

  /** The greedy rule, stated on a list of groups: every two-key group is a
      syllable, and a one-key group followed by another group could not have
      been joined with that group's first key into a syllable. */
  predicate Greedy(syl: string -> bool, gs: seq<string>)
  {
    forall i :: 0 <= i < |gs| ==>
      && 1 <= |gs[i]| <= 2
      && (|gs[i]| == 2 ==> syl(gs[i]))
      && (|gs[i]| == 1 && i + 1 < |gs| ==> |gs[i + 1]| >= 1 && !syl(gs[i] + gs[i + 1][..1]))
  }

  /** The scan obeys the greedy rule. */
  lemma {:induction false} GroupsAreGreedy(syl: string -> bool, s: string)
    ensures Greedy(syl, Groups(syl, s))
  {
    if |s| > 0 {
      var gs := Groups(syl, s);
      if |s| >= 2 && syl(s[..2]) {
        GroupsAreGreedy(syl, s[2..]);
        assert gs[1..] == Groups(syl, s[2..]);
      } else {
        GroupsAreGreedy(syl, s[1..]);
        assert gs[1..] == Groups(syl, s[1..]);
        if |gs| > 1 {
          var m := FirstGroupLength(syl, s[1..]);
          assert gs[1] == s[1..][..m];
          assert gs[0] + gs[1][..1] == s[..2];
        }
      }
    }
  }

  /** The greedy rule has one solution: any grouping of `s` that obeys it is
      the scan's. */
  lemma {:induction false} GreedyIsUnique(syl: string -> bool, s: string, gs: seq<string>)
    requires Concat(gs) == s
    requires Greedy(syl, gs)
    ensures gs == Groups(syl, s)
  {
    if |gs| > 0 {
      var g := gs[0];
      assert Greedy(syl, gs[1..]) by {
        forall i | 0 <= i < |gs[1..]|
          ensures 1 <= |gs[1..][i]| <= 2
        {
          assert gs[1..][i] == gs[i + 1];
        }
      }
      assert s == g + Concat(gs[1..]);
      if |g| == 2 {
        assert s[..2] == g;
        assert s[2..] == Concat(gs[1..]);
        GreedyIsUnique(syl, s[2..], gs[1..]);
      } else {
        assert s[..1] == g;
        assert s[1..] == Concat(gs[1..]);
        if |s| >= 2 {
          assert |gs| > 1;
          assert Concat(gs[1..]) == gs[1] + Concat(gs[2..]);
          assert s[..2] == g + gs[1][..1];
        }
        GreedyIsUnique(syl, s[1..], gs[1..]);
      }
    } else {
      assert s == "";
    }
  }

  /** Greedy segmentation is prefix-closed: the first `k` groups of `s`,
      scanned on their own, give back exactly those groups. */
  lemma {:induction false} GroupsPrefix(syl: string -> bool, s: string, k: nat)
    requires k <= |Groups(syl, s)|
    ensures Groups(syl, Concat(Groups(syl, s)[..k])) == Groups(syl, s)[..k]
  {
    var gs := Groups(syl, s);
    GroupsAreGreedy(syl, s);
    assert Greedy(syl, gs[..k]) by {
      forall i | 0 <= i < k
        ensures gs[..k][i] == gs[i]
      {
      }
    }
    GreedyIsUnique(syl, Concat(gs[..k]), gs[..k]);
  }

  /** The scan's raw output: every group preceded by a separator. */
  function Prefixed(gs: seq<string>): string
  {
    if |gs| == 0 then "" else [Quote] + gs[0] + Prefixed(gs[1..])
  }

  /** Length of the first group of the scan of `t`. */
  function FirstGroupLength(syl: string -> bool, t: string): (n: nat)
    requires |t| > 0
    ensures 1 <= n <= 2 && n <= |t|
    ensures Groups(syl, t)[0] == t[..n] && Groups(syl, t)[1..] == Groups(syl, t[n..])
  {
    if |t| >= 2 && syl(t[..2]) then 2 else 1
  }

  /** One step of the scan: the first group, preceded by a separator. */
  lemma {:induction false} PrefixedStep(syl: string -> bool, t: string)
    requires |t| > 0
    ensures var n := FirstGroupLength(syl, t);
            Prefixed(Groups(syl, t)) == [Quote] + t[..n] + Prefixed(Groups(syl, t[n..]))
  {
  }

  function StripLeadingQuotes(s: string): (r: string)
    ensures |r| == 0 || r[0] != Quote
  {
    if |s| > 0 && s[0] == Quote then StripLeadingQuotes(s[1..]) else s
  }

  /** `pinyin_segmentation`: a one-key input is returned as is; otherwise the
      scan's separated groups with the leading separators removed. (The
      source's loop for trailing separators compares the terminating NUL with
      the separator, so it never removes anything.) */
  function SegmentBy(syl: string -> bool, s: string): (r: string)
    ensures |s| <= 1 ==> r == s
    // on quote-free keys, the pieces between separators are the groups
    ensures |s| >= 1 && Quote !in s ==> Split(r, Quote) == Groups(syl, s)
  {
    if |s| == 1 then
      OneKeyGroups(syl, s);
      s
    else
      StrippedScanIsJoin(syl, s);
      StripLeadingQuotes(Prefixed(Groups(syl, s)))
  }

  /** A single key is a single group. */
  lemma {:induction false} OneKeyGroups(syl: string -> bool, s: string)
    requires |s| == 1
    ensures Groups(syl, s) == [s]
    ensures Quote !in s ==> Split(s, Quote) == [s]
  {
    assert s[..1] == s && s[1..] == [];
    assert Groups(syl, s[1..]) == [];
    if Quote !in s {
      SplitJoin([s], Quote);
    }
  }

  /** On quote-free input of other than one key, removing the scan's leading
      separators leaves the groups joined by the separator. */
  lemma {:induction false} StrippedScanIsJoin(syl: string -> bool, s: string)
    ensures |s| == 0 ==> StripLeadingQuotes(Prefixed(Groups(syl, s))) == s
    ensures Quote !in s && |s| > 1 ==>
              && StripLeadingQuotes(Prefixed(Groups(syl, s))) == Join(Groups(syl, s), Quote)
              && Split(Join(Groups(syl, s), Quote), Quote) == Groups(syl, s)
  {
    if Quote !in s && |s| > 1 {
      var gs := Groups(syl, s);
      var j := Join(gs, Quote);
      GroupsSepFree(syl, s);
      PrefixedIsJoin(gs);
      JoinHead(gs, Quote);
      assert |gs[0]| >= 1 && Quote !in gs[0];
      assert j[0] == gs[0][0];
      assert StripLeadingQuotes(j) == j;
      assert ([Quote] + j)[1..] == j;
      assert StripLeadingQuotes([Quote] + j) == StripLeadingQuotes(j);
      SplitJoin(gs, Quote);
    }
  }

  lemma {:induction false} PrefixedIsJoin(gs: seq<string>)
    requires |gs| > 0
    ensures Prefixed(gs) == [Quote] + Join(gs, Quote)
  {
    if |gs| > 1 {
      PrefixedIsJoin(gs[1..]);
    }
  }

  /** The scanning loop of `pinyin_segmentation`: at each position take two
      keys when `syl` accepts them, otherwise one, and emit the group after a
      separator. */
  method Scan(syl: string -> bool, s: string) returns (res: string)
    ensures res == Prefixed(Groups(syl, s))
  {
    res := "";
    var start := 0;
    assert s[start..] == s;
    while start < |s|
      invariant 0 <= start <= |s|
      invariant ScanInv(syl, s, start, res)
    {
      var g;
      if start + 2 <= |s| {
        var cur := s[start..start + 2];
        g := if syl(cur) then cur else cur[..1];
      } else {
        // the last key is always a group of its own
        g := s[|s| - 1..];
      }
      ScanAdvance(syl, s, start, g, res);
      res := res + ([Quote] + g);
      start := start + |g|;
    }
    assert s[start..] == [];
    assert Groups(syl, s[start..]) == [];
  }

  /** What the scan has emitted before `start`, followed by the groups of
      the rest, is the whole segmentation. */
  ghost predicate ScanInv(syl: string -> bool, s: string, start: nat, res: string)
    requires start <= |s|
  {
    res + Prefixed(Groups(syl, s[start..])) == Prefixed(Groups(syl, s))
  }

  /** One turn of the scan keeps its invariant. */
  lemma {:induction false} ScanAdvance(syl: string -> bool, s: string, start: nat, g: string, res: string)
    requires start < |s|
    requires start + 2 <= |s| ==> g == (if syl(s[start..start + 2]) then s[start..start + 2] else s[start..start + 2][..1])
    requires start + 2 > |s| ==> g == s[|s| - 1..]
    requires ScanInv(syl, s, start, res)
    ensures 1 <= |g| && start + |g| <= |s|
    ensures ScanInv(syl, s, start + |g|, res + ([Quote] + g))
  {
    if start + 2 <= |s| {
      assert s[start..start + 2][..1] == s[start..start + 1];
    }
    ScanStep(syl, s, start, g);
    AppendAssoc(res, [Quote] + g, Prefixed(Groups(syl, s[start + |g|..])));
  }

  /** The group one turn of the scan takes at `start` is the first group of
      the rest, and the scan goes on right after it. */
  lemma {:induction false} ScanStep(syl: string -> bool, s: string, start: nat, g: string)
    requires start < |s|
    requires start + 2 <= |s| ==> g == (if syl(s[start..start + 2]) then s[start..start + 2] else s[start..start + 1])
    requires start + 2 > |s| ==> g == s[|s| - 1..]
    ensures 1 <= |g| && start + |g| <= |s|
    ensures Prefixed(Groups(syl, s[start..])) == [Quote] + g + Prefixed(Groups(syl, s[start + |g|..]))
  {
    var tail := s[start..];
    PrefixedStep(syl, tail);
    var n := FirstGroupLength(syl, tail);
    if start + 2 <= |s| {
      assert tail[..2] == s[start..start + 2];
      assert tail[..1] == s[start..start + 1];
    }
    assert g == tail[..n] && tail[n..] == s[start + |g|..];
  }

  /** The groups of quote-free input hold no separator. */
  lemma {:induction false} GroupsSepFree(syl: string -> bool, s: string)
    requires Quote !in s
    ensures SepFree(Groups(syl, s), Quote)
  {
    var gs := Groups(syl, s);
    GroupsConcat(syl, s);
    forall i | 0 <= i < |gs|
      ensures Quote !in gs[i]
    {
      ConcatAppend(gs[..i], gs[i..]);
      assert gs == gs[..i] + gs[i..];
      assert Concat(gs[i..]) == gs[i] + Concat(gs[i + 1..]);
      assert s == Concat(gs[..i]) + (gs[i] + Concat(gs[i + 1..]));
    }
  }

  /** On quote-free input the segmentation is the groups joined by the separator. */
  lemma {:induction false} SegmentByIsJoin(syl: string -> bool, s: string)
    requires Quote !in s
    ensures SegmentBy(syl, s) == Join(Groups(syl, s), Quote)
    ensures SepFree(Groups(syl, s), Quote)
  {
    GroupsSepFree(syl, s);
    if |s| == 1 {
      OneKeyGroups(syl, s);
    } else {
      StrippedScanIsJoin(syl, s);
    }
  }


  /** What the segmentation of a letter string looks like: deleting the
      separators gives the input back, there is no separator at either end,
      and the separators cut it into exactly the greedy groups, each one or
      two keys long. */
  lemma {:induction false} SegmentShape(syl: string -> bool, s: string)
    requires Quote !in s
    requires |s| > 0
    ensures var r := SegmentBy(syl, s);
            && RemoveAll(r, Quote) == s
            && r[0] != Quote && r[|r| - 1] != Quote
            && Split(r, Quote) == Groups(syl, s)
            && (forall g :: g in Split(r, Quote) ==> 1 <= |g| <= 2)
            && (|s| == 1 ==> r == s)
  {
    var gs := Groups(syl, s);
    SegmentByIsJoin(syl, s);
    GroupsConcat(syl, s);
    JoinShape(gs, Quote);
  }

  /** Joining non-empty separator-free groups: deleting the separators gives
      their concatenation, splitting gives them back, and the join neither
      starts nor ends with a separator. */
  lemma {:induction false} JoinShape(gs: seq<string>, sep: char)
    requires |gs| > 0
    requires forall i :: 0 <= i < |gs| ==> |gs[i]| > 0 && sep !in gs[i]
    ensures var j := Join(gs, sep);
            && RemoveAll(j, sep) == Concat(gs)
            && Split(j, sep) == gs
            && j[0] != sep && j[|j| - 1] != sep
  {
    assert SepFree(gs, sep);
    RemoveAllJoin(gs, sep);
    SplitJoin(gs, sep);
    JoinEnds(gs, sep);
  }

  lemma {:induction false} JoinEnds(gs: seq<string>, sep: char)
    requires |gs| > 0
    requires forall i :: 0 <= i < |gs| ==> |gs[i]| > 0 && sep !in gs[i]
    ensures var j := Join(gs, sep); |j| > 0 && j[0] == gs[0][0] && j[|j| - 1] == gs[|gs| - 1][|gs[|gs| - 1]| - 1]
  {
    if |gs| > 1 {
      JoinEnds(gs[1..], sep);
    }
  }

  /** Quote-free letters segment into letters and separators only. */
  lemma {:induction false} SegmentChars(syl: string -> bool, s: string)
    requires IsLowerWord(s)
    ensures forall i :: 0 <= i < |SegmentBy(syl, s)| ==> IsLower(SegmentBy(syl, s)[i]) || SegmentBy(syl, s)[i] == Quote
  {
    assert Quote !in s;
    var r := SegmentBy(syl, s);
    if |s| > 0 {
      SegmentShape(syl, s);
    } else {
      assert Groups(syl, s) == [];
    }
    forall i | 0 <= i < |r| && r[i] != Quote
      ensures IsLower(r[i])
    {
      KeptByRemoveAll(r, i, Quote);
    }
  }

  lemma {:induction false} KeptByRemoveAll(s: string, i: nat, c: char)
    requires i < |s| && s[i] != c
    ensures s[i] in RemoveAll(s, c)
  {
    if i > 0 {
      KeptByRemoveAll(s[1..], i - 1, c);
    }
  }

  /** The loop of `is_all_complete_pinyin`: from index `i` on, every third
      position starts a two-key group (neither it nor the next character is a
      separator; past the end reads the terminating NUL). */
  function CompleteFrom(seg: string, i: nat): bool
    decreases |seg| - i
  {
    if i >= |seg| then true
    else if CharAt(seg, i) == Quote || CharAt(seg, i + 1) == Quote then false
    else CompleteFrom(seg, i + 3)
  }

  /** `is_all_complete_pinyin`: odd-length pinyin is never complete. */
  function IsAllComplete(pure: string, seg: string): (b: bool)
    ensures |pure| % 2 == 1 ==> !b
  {
    |pure| % 2 == 0 && CompleteFrom(seg, 0)
  }

  lemma {:induction false} CompleteFromShift(p: string, t: string, i: nat)
    ensures CompleteFrom(p + t, |p| + i) == CompleteFrom(t, i)
    decreases |t| - i
  {
    assert CharAt(p + t, |p| + i) == CharAt(t, i);
    assert CharAt(p + t, |p| + i + 1) == CharAt(t, i + 1);
    if i < |t| {
      CompleteFromShift(p, t, i + 3);
    }
  }

  /** On joined groups the scan finds a separator exactly when some group
      other than the last is a single key. */
  lemma {:induction false} CompleteJoin(gs: seq<string>)
    requires |gs| > 0
    requires forall i :: 0 <= i < |gs| ==> 1 <= |gs[i]| <= 2 && Quote !in gs[i]
    ensures CompleteFrom(Join(gs, Quote), 0) <==> forall i :: 0 <= i < |gs| - 1 ==> |gs[i]| == 2
  {
    var j := Join(gs, Quote);
    var g := gs[0];
    if |gs| == 1 {
      assert CharAt(j, 0) == g[0];
      assert CompleteFrom(j, 3);
    } else {
      var rest := Join(gs[1..], Quote);
      assert j == g + [Quote] + rest;
      if |g| == 2 {
        assert CharAt(j, 0) == g[0] && CharAt(j, 1) == g[1];
        CompleteFromShift(g + [Quote], rest, 0);
        assert j == (g + [Quote]) + rest;
        CompleteJoin(gs[1..]);
        assert (forall i :: 0 <= i < |gs| - 1 ==> |gs[i]| == 2) <==>
               (forall i :: 0 <= i < |gs[1..]| - 1 ==> |gs[1..][i]| == 2) by {
          if forall i :: 0 <= i < |gs[1..]| - 1 ==> |gs[1..][i]| == 2 {
            forall i | 0 <= i < |gs| - 1
              ensures |gs[i]| == 2
            {
              if i > 0 {
                assert gs[i] == gs[1..][i - 1];
              }
            }
          }
        }
      } else {
        assert CharAt(j, 1) == Quote;
      }
    }
  }

  /** For an even-length letter string, `is_all_complete_pinyin` of it and its
      segmentation holds exactly when every group is a two-key syllable. */
  lemma {:induction false} AllCompleteIffSyllables(syl: string -> bool, s: string)
    requires Quote !in s
    requires |s| % 2 == 0
    ensures IsAllComplete(s, SegmentBy(syl, s)) <==>
              forall i :: 0 <= i < |Groups(syl, s)| ==> |Groups(syl, s)[i]| == 2 && syl(Groups(syl, s)[i])
  {
    var gs := Groups(syl, s);
    SegmentByIsJoin(syl, s);
    GroupsAreGreedy(syl, s);
    if |gs| > 0 {
      GroupsConcat(syl, s);
      CompleteJoin(gs);
      EvenGroups(gs);
    }
  }

  /** Pieces of one or two characters with an even total: if all but the last
      have two, so has the last. */
  lemma {:induction false} EvenGroups(gs: seq<string>)
    requires |gs| > 0 && |Concat(gs)| % 2 == 0
    requires forall i :: 0 <= i < |gs| ==> 1 <= |gs[i]| <= 2
    ensures (forall i :: 0 <= i < |gs| - 1 ==> |gs[i]| == 2) <==> (forall i :: 0 <= i < |gs| ==> |gs[i]| == 2)
  {
    if forall i :: 0 <= i < |gs| - 1 ==> |gs[i]| == 2 {
      ConcatAllButLast(gs);
    }
  }

  lemma {:induction false} ConcatAllButLast(gs: seq<string>)
    requires |gs| > 0
    requires forall i :: 0 <= i < |gs| - 1 ==> |gs[i]| == 2
    ensures |Concat(gs)| == 2 * (|gs| - 1) + |gs[|gs| - 1]|
  {
    if |gs| > 1 {
      ConcatAllButLast(gs[1..]);
    }
  }
}
