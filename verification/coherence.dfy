/** What the four result caches of `DictionaryUlPb` promise: caching never
    changes a candidate list. Each cache entry is the list an uncached
    computation gives for its key, and every recomputation of `handleVkCode`
    yields the uncached list of the typed sequence, whatever the caches held
    before.

    The one freedom the caches keep is the key of the oracle's predicted
    sentence: the source keys that item by the session's whole typed
    sequence, and a cached series (or a help-code list built from one) keeps
    the sequence it was computed under. The uncached lists below therefore
    take that `owner` as a parameter, and the cache invariants say that some
    owner explains each entry. */
module Coherence {
  import opened Text
  import opened Tables
  import opened Segmentation
  import opened Scheme
  import opened FifoCache
  import opened Query
  import opened Buckets
  import opened HelpFilter
  import opened Engine

  /** The uncached `generate` of the keys `s` under their own segmentation:
      nothing for no keys, the ten characters of one key, the database rows
      otherwise. */
  function Lookup(env: Env, s: string): (r: seq<WordItem>)
    ensures |s| == 1 && IsLower(s[0]) ==> Concat(Buckets.Words(r)) == BucketRow(env.singleHan, s[0])
    ensures |s| >= 2 ==> r == Fetch(env.store, s, Segment(env.cfg, s))
  {
    if |s| == 0 then []
    else if |s| == 1 then (if IsLower(s[0]) then SingleCharCandidates(env.singleHan, s) else [])
    else Fetch(env.store, s, Segment(env.cfg, s))
  }

  /** The lookups of the keys of the first `j - 1`, `j - 2`, ..., 1 groups,
      in that order: the proper prefixes of the first `j` groups, longest
      first. */
  function PrefixLookups(env: Env, gs: seq<string>, j: nat): (r: seq<WordItem>)
    requires j <= |gs|
    decreases j
  {
    if j <= 1 then [] else Lookup(env, Concat(gs[..j - 1])) + PrefixLookups(env, gs, j - 1)
  }

  /** The uncached `generateSeries` of the keys `s`: the lookup of `s` (the
      oracle's sentence, keyed by `owner`, when that is empty) followed by the
      lookups of the keys of every proper prefix of its groups, longest
      first. A single key is its own lookup. */
  function SeriesSpec(env: Env, owner: string, s: string): (r: seq<WordItem>)
    ensures |s| <= 1 ==> r == Lookup(env, s)
  {
    if |s| <= 1 then Lookup(env, s)
    else
      var head := Lookup(env, s);
      var gs := Groups(Syllable(env.cfg), s);
      (if |head| > 0 then head else OracleItem(env, owner, Segment(env.cfg, s))) + PrefixLookups(env, gs, |gs|)
  }

  /** The uncached list for the typed sequence `s` with its last letter as
      the help letter: the tiers of the series of the other letters, with the
      series of the whole sequence between the second and third tier. */
  function SingleSpec(env: Env, o1: string, o2: string, s: string): (r: seq<WordItem>)
    requires |s| >= 1
    ensures |SeriesSpec(env, o1, s[..|s| - 1])| == 0 ==> r == []
  {
    var cands := SeriesSpec(env, o1, s[..|s| - 1]);
    var h := s[|s| - 1];
    if |cands| == 0 then []
    else TierList(env.cfg, cands, h, First) + TierList(env.cfg, cands, h, Last)
         + SeriesSpec(env, o2, s) + TierList(env.cfg, cands, h, Rest)
  }

  /** The uncached list for the typed sequence `s` with its last two letters
      as help letters. */
  function DoubleSpec(env: Env, o: string, s: string): (r: seq<WordItem>)
    requires |s| >= 2
    ensures IsSubseq(r, SeriesSpec(env, o, s[..|s| - 2]))
  {
    FilterDouble(env.cfg, SeriesSpec(env, o, s[..|s| - 2]), s[|s| - 2..])
  }

  /** `cands` is an uncached list for `s` with `n` help letters, for some
      owner of the oracle's item. */
  ghost predicate Explains(env: Env, s: string, n: nat, cands: seq<WordItem>)
  {
    if n == 0 then exists o :: cands == SeriesSpec(env, o, s)
    else if n == 1 then |s| >= 1 && exists o1, o2 :: cands == SingleSpec(env, o1, o2, s)
    else n == 2 && |s| >= 2 && exists o :: cands == DoubleSpec(env, o, s)
  }

  /** Every plain entry is the uncached lookup of its key. */
  ghost predicate PlainCoherent(env: Env, c: Cache)
  {
    forall k :: k in c.entries ==> c.entries[k] == Lookup(env, k)
  }

  /** Every entry of `c` is an uncached list of its key with `n` help
      letters. */
  ghost predicate CacheExplained(env: Env, c: Cache, n: nat)
  {
    forall k :: k in c.entries ==> Explains(env, k, n, c.entries[k])
  }

  /** Every entry of every cache is the uncached list of its key. */
  ghost predicate Coherent(env: Env, c: Caches)
  {
    && PlainCoherent(env, c.plain)
    && CacheExplained(env, c.series, 0)
    && CacheExplained(env, c.single, 1)
    && CacheExplained(env, c.double, 2)
  }

  /** Empty caches hold nothing to contradict. */
  lemma {:induction false} EmptyCoherent(env: Env, c: Caches)
    requires c.plain.entries == map[] && c.series.entries == map[]
    requires c.single.entries == map[] && c.double.entries == map[]
    ensures Coherent(env, c)
  {
  }

  /** The keys of the first `j` groups: lower-case and not empty; the
      groups carry no separator; the keys' segmentation joins exactly those
      groups, has only letters and separators, and gives the keys back once
      its separators are deleted. */
  ghost predicate PrefixOk(cfg: Config, gs: seq<string>, j: nat)
    requires j <= |gs|
  {
    var p := Concat(gs[..j]);
    && IsLowerWord(p) && |p| >= 1
    && SepFree(gs[..j], Quote)
    && Segment(cfg, p) == Join(gs[..j], Quote)
    && SegChars(Join(gs[..j], Quote))
    && RemoveAll(Join(gs[..j], Quote), Quote) == p
  }

  /** Every non-empty prefix of the groups is `PrefixOk`. */
  ghost predicate PrefixesOk(cfg: Config, gs: seq<string>)
  {
    forall j :: 1 <= j <= |gs| ==> PrefixOk(cfg, gs, j)
  }

  /** The groups of a lower-case sequence: each non-empty prefix of them is
      the keys of its own segmentation. */
  lemma {:induction false} GroupsPrefixesOk(cfg: Config, s: string)
    requires IsLowerWord(s)
    ensures PrefixesOk(cfg, Groups(Syllable(cfg), s))
  {
    var gs := Groups(Syllable(cfg), s);
    forall j | 1 <= j <= |gs|
      ensures PrefixOk(cfg, gs, j)
    {
      PrefixFacts(Syllable(cfg), s, j);
      SegmentSegChars(cfg, Concat(gs[..j]));
    }
  }

  /** The facts behind `PrefixOk`, for any syllable test. */
  lemma {:induction false} PrefixFacts(syl: string -> bool, s: string, j: nat)
    requires IsLowerWord(s)
    requires 1 <= j <= |Groups(syl, s)|
    ensures var gs := Groups(syl, s);
            var p := Concat(gs[..j]);
            && IsLowerWord(p) && |p| >= 1
            && SepFree(gs[..j], Quote)
            && SegmentBy(syl, p) == Join(gs[..j], Quote)
            && RemoveAll(Join(gs[..j], Quote), Quote) == p
  {
    var gs := Groups(syl, s);
    var p := Concat(gs[..j]);
    PrefixOfGroups(syl, s, j);
    GroupsPrefix(syl, s, j);
    assert Quote !in p;
    SegmentByIsJoin(syl, p);
    RemoveAllJoin(gs[..j], Quote);
  }

  /** The keys of the first `j` groups start the keys `s`: they are
      lower-case and not empty, and no group holds a separator. */
  lemma {:induction false} PrefixOfGroups(syl: string -> bool, s: string, j: nat)
    requires IsLowerWord(s)
    requires 1 <= j <= |Groups(syl, s)|
    ensures var gs := Groups(syl, s);
            var p := Concat(gs[..j]);
            IsLowerWord(p) && |p| >= 1 && SepFree(gs[..j], Quote)
  {
    var gs := Groups(syl, s);
    var p := Concat(gs[..j]);
    GroupsSepFree(syl, s);
    assert SepFree(gs[..j], Quote) by {
      forall i | 0 <= i < j
        ensures Quote !in gs[..j][i]
      {
        assert gs[..j][i] == gs[i];
      }
    }
    PrefixOfConcat(gs, j);
    GroupsConcat(syl, s);
    assert IsLowerWord(p) by {
      forall i | 0 <= i < |p|
        ensures IsLower(p[i])
      {
        assert p[i] == s[i];
      }
    }
  }

  /** The concatenation of the first `j` groups starts the concatenation of
      all of them, and is not empty when the first group is not. */
  lemma {:induction false} PrefixOfConcat(gs: seq<string>, j: nat)
    requires 1 <= j <= |gs|
    ensures Concat(gs[..j]) <= Concat(gs)
    ensures |Concat(gs[..j])| >= |gs[0]|
  {
    assert gs == gs[..j] + gs[j..];
    ConcatAppend(gs[..j], gs[j..]);
    assert gs[..j] == [gs[0]] + gs[1..j];
    assert Concat(gs[..j]) == gs[0] + Concat(gs[1..j]);
  }

  /** `generate` under the keys' own segmentation returns their uncached
      lookup and keeps the plain cache coherent. */
  lemma {:induction false} GenerateLooksUp(env: Env, c: Caches, s: string, seg: string)
    requires CachesWf(c) && PlainCoherent(env, c.plain)
    requires |s| == 1 ==> IsLower(s[0])
    requires seg == Segment(env.cfg, s)
    ensures var g := Generate(env, c, s, seg);
            g.1 == Lookup(env, s) && PlainCoherent(env, g.0.plain)
  {
    var g := Generate(env, c, s, seg);
    forall k | k in g.0.plain.entries
      ensures g.0.plain.entries[k] == Lookup(env, k)
    {
      if k == s {
        assert Get(g.0.plain, s) == Some(g.1);
      }
    }
  }

  /** What the loop of `generateSeries` collects on a segmentation without
      caches: cut at the last separator, look up the keys before it, go on
      with what is before it. */
  function TailSpec(env: Env, seg: string): seq<WordItem>
    decreases |seg|
  {
    match LastIndexOf(seg, Quote)
    case None => []
    case Some(pos) => Lookup(env, RemoveAll(seg[..pos], Quote)) + TailSpec(env, seg[..pos])
  }

  /** Every cut the loop makes leaves the segmentation of lower-case keys. */
  ghost predicate CutsSegmented(cfg: Config, seg: string)
    decreases |seg|
  {
    match LastIndexOf(seg, Quote)
    case None => true
    case Some(pos) =>
      var seg' := seg[..pos];
      var pure' := RemoveAll(seg', Quote);
      IsLowerWord(pure') && Segment(cfg, pure') == seg' && CutsSegmented(cfg, seg')
  }

  /** With the caches coherent, the loop of `generateSeries` collects what
      it collects without caches, and keeps the plain cache coherent. */
  lemma {:induction false} SeriesTailLooksUp(env: Env, c: Caches, seg: string)
    requires CachesWf(c) && PlainCoherent(env, c.plain)
    requires SegChars(seg) && CutsSegmented(env.cfg, seg)
    ensures var t := SeriesTail(env, c, seg);
            t.1 == TailSpec(env, seg) && PlainCoherent(env, t.0.plain)
    decreases |seg|
  {
    match LastIndexOf(seg, Quote)
    case None =>
    case Some(pos) =>
      var seg' := seg[..pos];
      var pure' := RemoveAll(seg', Quote);
      assert SegChars(seg') by {
        forall i | 0 <= i < |seg'|
          ensures IsLower(seg'[i]) || seg'[i] == Quote
        {
          assert seg'[i] == seg[i];
        }
      }
      GenerateLooksUp(env, c, pure', seg');
      var g := Generate(env, c, pure', seg');
      SeriesTailLooksUp(env, g.0, seg');
  }

  /** On the join of the first `j` groups, the loop's cuts are the joins of
      the shorter prefixes: they are segmented, and the loop collects the
      lookups of the proper prefixes, longest first. */
  lemma {:induction false} TailOfJoin(env: Env, gs: seq<string>, j: nat)
    requires 1 <= j <= |gs|
    requires PrefixesOk(env.cfg, gs)
    ensures CutsSegmented(env.cfg, Join(gs[..j], Quote))
    ensures TailSpec(env, Join(gs[..j], Quote)) == PrefixLookups(env, gs, j)
    decreases j
  {
    assert PrefixOk(env.cfg, gs, j);
    if j == 1 {
      TailOfOneGroup(env, gs);
    } else {
      var k := j - 1;
      assert PrefixOk(env.cfg, gs, k);
      TailStep(gs, j);
      TailOfJoin(env, gs, k);
    }
  }

  /** The join of the first group alone has no separator, so no cut. */
  lemma {:induction false} TailOfOneGroup(env: Env, gs: seq<string>)
    requires 1 <= |gs| && Quote !in gs[0]
    ensures CutsSegmented(env.cfg, Join(gs[..1], Quote))
    ensures TailSpec(env, Join(gs[..1], Quote)) == []
  {
    assert gs[..1] == [gs[0]];
    assert Quote !in Join(gs[..1], Quote);
  }

  /** On the join of the first `j` groups, the last separator ends the join
      of the first `j - 1`. */
  lemma {:induction false} TailStep(gs: seq<string>, j: nat)
    requires 2 <= j <= |gs|
    requires SepFree(gs[..j], Quote)
    ensures var seg := Join(gs[..j], Quote);
            var seg' := Join(gs[..j - 1], Quote);
            && LastIndexOf(seg, Quote) == Some(|seg'|)
            && seg[..|seg'|] == seg'
  {
    assert gs[..j][..j - 1] == gs[..j - 1];
    TruncateJoin(gs[..j], Quote);
  }

  /** `generateSeries` under the keys' own segmentation returns the uncached
      series for some owner, for the caller's owner when the series cache
      had no entry for the keys, and keeps the caches coherent. */
  lemma {:induction false} GenerateSeriesLooksUp(env: Env, c: Caches, owner: string, s: string)
    requires CachesWf(c) && Coherent(env, c)
    requires IsLowerWord(s)
    ensures SegChars(Segment(env.cfg, s))
    ensures var g := GenerateSeries(env, c, owner, s, Segment(env.cfg, s));
            && Explains(env, s, 0, g.1)
            && (s !in c.series.entries ==> g.1 == SeriesSpec(env, owner, s))
            && Coherent(env, g.0)
  {
    SegmentSegChars(env.cfg, s);
    var seg := Segment(env.cfg, s);
    var g := GenerateSeries(env, c, owner, s, seg);
    if |s| <= 1 {
      assert g.1 == SeriesSpec(env, owner, s);
    } else if s in c.series.entries {
    } else {
      var gs := Groups(Syllable(env.cfg), s);
      GroupsPrefixesOk(env.cfg, s);
      assert gs[..|gs|] == gs;
      assert PrefixOk(env.cfg, gs, |gs|);
      GroupsConcat(Syllable(env.cfg), s);
      GenerateLooksUp(env, c, s, seg);
      var h := Generate(env, c, s, seg);
      TailOfJoin(env, gs, |gs|);
      SeriesTailLooksUp(env, h.0, seg);
      assert g.1 == SeriesSpec(env, owner, s);
      forall k | k in g.0.series.entries
        ensures Explains(env, k, 0, g.0.series.entries[k])
      {
        if k == s {
          assert Get(g.0.series, s) == Some(g.1);
        }
      }
    }
  }

  /** No series or help-code list is cached, as after `reset_cache`. */
  predicate Fresh(c: Caches)
  {
    c.series.entries == map[] && c.single.entries == map[] && c.double.entries == map[]
  }

  /** The uncached list for the typed sequence `s` with `n` help letters,
      the oracle's item keyed by `owner`. */
  function Uncached(env: Env, owner: string, s: string, n: nat): (r: seq<WordItem>)
    requires n <= 2 && |s| >= n
    ensures Explains(env, s, n, r)
  {
    if n == 0 then SeriesSpec(env, owner, s)
    else if n == 1 then SingleSpec(env, owner, owner, s)
    else DoubleSpec(env, owner, s)
  }

  /** The series branch of the recomputation yields the uncached series of
      the typed sequence and keeps the caches coherent; with nothing cached
      the oracle's item is keyed by the sequence itself. */
  lemma {:induction false} SeriesCandidatesLookUp(env: Env, c: Caches, s: string)
    requires CachesWf(c) && Coherent(env, c)
    requires IsLowerWord(s)
    ensures var g := SeriesCandidates(env, c, s);
            && Explains(env, s, 0, g.1) && Coherent(env, g.0)
            && (Fresh(c) ==> g.1 == Uncached(env, s, s, 0))
  {
    GenerateSeriesLooksUp(env, c, s, s);
  }

  /** The series of `s` as the engine computes it is the uncached series for
      some owner, which is `owner` itself when `s` was not cached; only the
      entry of `s` is added to the series cache. */
  lemma {:induction false} SeriesOwner(env: Env, c: Caches, owner: string, s: string) returns (o: string, g: (Caches, seq<WordItem>))
    requires CachesWf(c) && Coherent(env, c)
    requires IsLowerWord(s)
    ensures SegChars(Segment(env.cfg, s))
    ensures g == GenerateSeries(env, c, owner, s, Segment(env.cfg, s))
    ensures CachesWf(g.0) && Coherent(env, g.0)
    ensures g.1 == SeriesSpec(env, o, s)
    ensures s !in c.series.entries ==> o == owner
    ensures g.0.single == c.single && g.0.double == c.double
    ensures forall k :: k in g.0.series.entries ==> k == s || k in c.series.entries
  {
    GenerateSeriesLooksUp(env, c, owner, s);
    g := GenerateSeries(env, c, owner, s, Segment(env.cfg, s));
    if s in c.series.entries {
      o :| g.1 == SeriesSpec(env, o, s);
    } else {
      o := owner;
    }
  }

  /** Filtering the series of the pure letters by the help letter yields the
      uncached single-help list, and keeps the caches coherent. */
  lemma {:induction false} SingleFilterLooksUp(env: Env, c: Caches, s: string, cands: seq<WordItem>, o1: string)
    returns (o2: string, f: (Caches, seq<WordItem>))
    requires CachesWf(c) && Coherent(env, c)
    requires IsLowerWord(s) && |s| >= 1
    requires cands == SeriesSpec(env, o1, s[..|s| - 1])
    ensures f == FilterWithSingleHelpcode(env, c, s, cands, s[|s| - 1..])
    ensures CachesWf(f.0) && Coherent(env, f.0) && f.0.single == c.single
    ensures f.1 == SingleSpec(env, o1, o2, s)
    ensures s !in c.series.entries ==> o2 == s
  {
    var g;
    o2, g := SeriesOwner(env, c, s, s);
    f := FilterWithSingleHelpcode(env, c, s, cands, s[|s| - 1..]);
    assert CharAt(s[|s| - 1..], 0) == s[|s| - 1];
  }

  /** The steps of `generate_with_helpcodes` for one help letter missing
      from the single cache. */
  lemma {:induction false} SingleMissUnfold(env: Env, c: Caches, s: string) returns (g: (Caches, seq<WordItem>), f: (Caches, seq<WordItem>))
    requires CachesWf(c)
    requires IsLowerWord(s) && |s| >= 1
    requires s !in c.single.entries
    ensures SegChars(Segment(env.cfg, s[..|s| - 1]))
    ensures g == GenerateSeries(env, c, s, s[..|s| - 1], Segment(env.cfg, s[..|s| - 1]))
    ensures CachesWf(g.0)
    ensures f == FilterWithSingleHelpcode(env, g.0, s, g.1, s[|s| - 1..])
    ensures HelpCandidates(env, c, s, 1) == (f.0.(single := Insert(f.0.single, s, f.1)), f.1)
  {
    var pure := s[..|s| - 1];
    SegmentSegChars(env.cfg, pure);
    g := GenerateSeries(env, c, s, pure, Segment(env.cfg, pure));
    f := FilterWithSingleHelpcode(env, g.0, s, g.1, s[|s| - 1..]);
  }

  /** A sequence missing from the single cache: the engine filters the
      series of the pure letters, caches the result under the whole
      sequence, and the result is the uncached list. */
  lemma {:induction false} SingleMissLooksUp(env: Env, c: Caches, s: string) returns (o1: string, o2: string)
    requires CachesWf(c) && Coherent(env, c)
    requires IsLowerWord(s) && |s| >= 1
    requires s !in c.single.entries
    ensures var r := HelpCandidates(env, c, s, 1);
            r.1 == SingleSpec(env, o1, o2, s) && Coherent(env, r.0)
    ensures Fresh(c) ==> o1 == s && o2 == s
  {
    var g, f := SingleMissUnfold(env, c, s);
    var g1, f1;
    o1, g1 := SeriesOwner(env, c, s, s[..|s| - 1]);
    o2, f1 := SingleFilterLooksUp(env, g.0, s, g.1, o1);
    InsertedSingle(env, f.0, s, o1, o2, f.1);
  }

  /** One help letter: the list is the uncached tiers of the series of the
      other letters around the series of the whole sequence, and the caches
      stay coherent. */
  lemma {:induction false} SingleHelpLooksUp(env: Env, c: Caches, s: string)
    requires CachesWf(c) && Coherent(env, c)
    requires IsLowerWord(s) && |s| >= 1
    ensures var g := HelpCandidates(env, c, s, 1);
            && Explains(env, s, 1, g.1) && Coherent(env, g.0)
            && (Fresh(c) ==> g.1 == Uncached(env, s, s, 1))
  {
    if s !in c.single.entries {
      var o1, o2 := SingleMissLooksUp(env, c, s);
      SingleExplains(env, s, o1, o2, HelpCandidates(env, c, s, 1).1);
    }
  }

  /** A sequence missing from the double cache: the engine filters the
      series of the pure letters by both help letters, caches the result
      under the whole sequence, and the result is the uncached list. */
  lemma {:induction false} DoubleMissLooksUp(env: Env, c: Caches, s: string) returns (o: string)
    requires CachesWf(c) && Coherent(env, c)
    requires IsLowerWord(s) && |s| >= 2
    requires s !in c.double.entries
    ensures var r := HelpCandidates(env, c, s, 2);
            r.1 == DoubleSpec(env, o, s) && Coherent(env, r.0)
    ensures Fresh(c) ==> o == s
  {
    var pure := s[..|s| - 2];
    var hc := s[|s| - 2..];
    var g;
    o, g := SeriesOwner(env, c, s, pure);
    var res := FilterDouble(env.cfg, g.1, hc);
    InsertedDouble(env, g.0, s, o, res);
  }

  /** Two help letters: the list is the uncached double filter of the series
      of the other letters, and the caches stay coherent. */
  lemma {:induction false} DoubleHelpLooksUp(env: Env, c: Caches, s: string)
    requires CachesWf(c) && Coherent(env, c)
    requires IsLowerWord(s) && |s| >= 2
    ensures var g := HelpCandidates(env, c, s, 2);
            && Explains(env, s, 2, g.1) && Coherent(env, g.0)
            && (Fresh(c) ==> g.1 == Uncached(env, s, s, 2))
  {
    if s !in c.double.entries {
      var o := DoubleMissLooksUp(env, c, s);
      DoubleExplains(env, s, o, HelpCandidates(env, c, s, 2).1);
    }
  }

  /** A single-help list for some owners explains its sequence. */
  lemma {:induction false} SingleExplains(env: Env, s: string, o1: string, o2: string, v: seq<WordItem>)
    requires |s| >= 1 && v == SingleSpec(env, o1, o2, s)
    ensures Explains(env, s, 1, v)
  {
  }

  /** A double-help list for some owner explains its sequence. */
  lemma {:induction false} DoubleExplains(env: Env, s: string, o: string, v: seq<WordItem>)
    requires |s| >= 2 && v == DoubleSpec(env, o, s)
    ensures Explains(env, s, 2, v)
  {
  }

  /** Caching a single-help list for some owners keeps the caches coherent. */
  lemma {:induction false} InsertedSingle(env: Env, c: Caches, s: string, o1: string, o2: string, v: seq<WordItem>)
    requires CachesWf(c) && Coherent(env, c)
    requires |s| >= 1 && v == SingleSpec(env, o1, o2, s)
    ensures Coherent(env, c.(single := Insert(c.single, s, v)))
  {
    SingleExplains(env, s, o1, o2, v);
    InsertedExplained(env, c.single, s, 1, v);
  }

  /** Caching a double-help list for some owner keeps the caches coherent. */
  lemma {:induction false} InsertedDouble(env: Env, c: Caches, s: string, o: string, v: seq<WordItem>)
    requires CachesWf(c) && Coherent(env, c)
    requires |s| >= 2 && v == DoubleSpec(env, o, s)
    ensures Coherent(env, c.(double := Insert(c.double, s, v)))
  {
    DoubleExplains(env, s, o, v);
    InsertedExplained(env, c.double, s, 2, v);
  }

  /** Caching an explained list keeps a cache explained. */
  lemma {:induction false} InsertedExplained(env: Env, c: Cache, s: string, n: nat, v: seq<WordItem>)
    requires Valid(c) && CacheExplained(env, c, n)
    requires Explains(env, s, n, v)
    ensures CacheExplained(env, Insert(c, s, v), n)
  {
    var r := Insert(c, s, v);
    InsertOnlyAdds(c, s, v);
    forall k | k in r.entries
      ensures Explains(env, k, n, r.entries[k])
    {
      if k == s {
        assert Get(r, s) == Some(v);
      }
    }
  }

  /** `Recompute` yields the uncached list of the typed sequence with as
      many help letters as it reads, and keeps the caches coherent; with no
      list cached, the oracle's item is keyed by the typed sequence. */
  lemma {:induction false} RecomputeLooksUp(env: Env, e: Engine)
    requires Wf(e) && FullHelpNeedsTwo(env.cfg) && Coherent(env, e.caches)
    ensures var r := Recompute(env, e);
            var n := HelpCount(env.cfg, e.pinyin, r.fullHelp);
            && Coherent(env, r.caches)
            && Explains(env, e.pinyin, n, r.candidates)
            && (Fresh(e.caches) ==> r.candidates == Uncached(env, e.pinyin, e.pinyin, n))
  {
    var v := Settle(env.cfg, e);
    var n := HelpCount(env.cfg, e.pinyin, v.fullHelp);
    if n == 1 {
      SingleHelpLooksUp(env, e.caches, e.pinyin);
    } else if n == 2 {
      DoubleHelpLooksUp(env, e.caches, e.pinyin);
    } else {
      SeriesCandidatesLookUp(env, e.caches, e.pinyin);
    }
  }

  /** Every key keeps the caches coherent, and after a key that recomputes
      the candidates are the uncached list of the typed sequence. */
  lemma {:induction false} HandleVkCodeLooksUp(env: Env, e: Engine, vk: nat, mods: nat)
    requires Wf(e) && FullHelpNeedsTwo(env.cfg) && Coherent(env, e.caches)
    ensures var r := HandleVkCode(env, e, vk, mods).0;
            && Coherent(env, r.caches)
            && (Recomputes(vk) ==> Explains(env, r.pinyin, HelpCount(env.cfg, r.pinyin, r.fullHelp), r.candidates))
            && (Recomputes(vk) && Fresh(e.caches) ==>
                  r.candidates == Uncached(env, r.pinyin, r.pinyin, HelpCount(env.cfg, r.pinyin, r.fullHelp)))
  {
    if Recomputes(vk) {
      RecomputeLooksUp(env, TypeKey(e, vk, mods));
    }
  }

  /** `reset_cache` empties every cache, which is then trivially coherent. */
  lemma {:induction false} ResetCacheFresh(env: Env, e: Engine)
    requires Wf(e)
    ensures Fresh(ResetCache(e).caches) && Coherent(env, ResetCache(e).caches)
    ensures ResetCache(e).caches.plain.entries == map[]
  {
    EmptyCoherent(env, ResetCache(e).caches);
  }

  /** The engine after a session: the keys pressed in order, each with its
      modifier state. */
  function Run(env: Env, keys: seq<(nat, nat)>): (r: Engine)
    requires FullHelpNeedsTwo(env.cfg)
    ensures Wf(r)
    ensures |keys| == 0 ==> r == Init()
  {
    if |keys| == 0 then Init()
    else
      var last := keys[|keys| - 1];
      HandleVkCode(env, Run(env, keys[..|keys| - 1]), last.0, last.1).0
  }

  /** Whatever keys are pressed from start-up, the caches stay coherent,
      and after a key that recomputes the candidates are the uncached list
      of the typed sequence: caching never changes what the user sees, up
      to the owner of the oracle's item. */
  lemma {:induction false} RunLooksUp(env: Env, keys: seq<(nat, nat)>)
    requires FullHelpNeedsTwo(env.cfg)
    ensures Coherent(env, Run(env, keys).caches)
    ensures var r := Run(env, keys);
            |keys| > 0 && Recomputes(keys[|keys| - 1].0) ==>
              Explains(env, r.pinyin, HelpCount(env.cfg, r.pinyin, r.fullHelp), r.candidates)
  {
    if |keys| == 0 {
      EmptyCoherent(env, Init().caches);
    } else {
      var prefix := keys[..|keys| - 1];
      var last := keys[|keys| - 1];
      RunLooksUp(env, prefix);
      HandleVkCodeLooksUp(env, Run(env, prefix), last.0, last.1);
    }
  }
}

