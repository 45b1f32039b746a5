/** The input session of `DictionaryUlPb` (dictionary.cpp): the typed
    letters, the candidate generation they drive and its four result caches.

    The engine state is an immutable record; each operation returns the new
    state with its result. The dictionary, the sentence-prediction engine and
    the existence check of word creation are parameters (`Env`). */
module Engine {
  import opened Text
  import opened Tables
  import opened Segmentation
  import opened Scheme
  import opened FifoCache
  import opened Query
  import opened Buckets
  import opened HelpFilter

  type Cache = Fifo<string, seq<WordItem>>

  /** Capacity of each of the four result caches. */
  const CacheCapacity: nat := 128

  /** What the engine consults but does not own:
      - `singleHan`: the static table `single_han_list` (`SingleHan`);
      - `store`: the rows the database returns for a query;
      - `oracle`: `search_sentence_from_ime_engine`, from segmented full
        pinyin to a predicted sentence ("" for none);
      - `contains`: whether a table already holds a key and word. */
  datatype Env = Env(
    cfg: Config,
    singleHan: seq<seq<string>>,
    store: Query -> seq<WordItem>,
    oracle: string -> string,
    contains: (Table, string, string) -> bool)

  /** The four result caches of `DictionaryUlPb`: `_cached_buffer` (plain
      lookups), `_cached_buffer_sgl` and `_cached_buffer_dbl` (one and two
      help letters) and `_cached_buffer_series`. */
  datatype Caches = Caches(plain: Cache, single: Cache, double: Cache, series: Cache)

  ghost predicate CachesWf(c: Caches)
  {
    Valid(c.plain) && Valid(c.single) && Valid(c.double) && Valid(c.series)
  }

  /** The session fields of `DictionaryUlPb`:
      `_pinyin_sequence`, `_pinyin_sequence_with_cases`,
      `_pure_pinyin_sequence`, `_pinyin_segmentation`, `_pinyin_helpcodes`,
      `_is_full_help_mode`, `_help_mode_raw_pos`, `_cur_candidate_list`, and
      the caches. */
  datatype Engine = Engine(
    pinyin: string,
    withCases: string,
    pure: string,
    segmentation: string,
    helpcodes: string,
    fullHelp: bool,
    helpPos: nat,
    candidates: seq<WordItem>,
    caches: Caches)

  /** `typed` is the letter `lower` as typed, in lower or upper case. */
  predicate CaseOf(lower: char, typed: char)
  {
    typed == lower || typed as int + 32 == lower as int
  }

  /** The typed letters are lower case, the cased copy has one letter per
      letter, and the caches are well formed. */
  ghost predicate Wf(e: Engine)
  {
    && IsLowerWord(e.pinyin)
    && |e.withCases| == |e.pinyin|
    && (forall i :: 0 <= i < |e.pinyin| ==> CaseOf(e.pinyin[i], e.withCases[i]))
    && CachesWf(e.caches)
  }

  /** The constructor: nothing typed, four empty caches of 128 entries. */
  function Init(): (e: Engine)
    ensures Wf(e)
    ensures e.pinyin == "" && e.candidates == []
    ensures forall k :: Get(e.caches.plain, k) == None && Get(e.caches.single, k) == None
                     && Get(e.caches.double, k) == None && Get(e.caches.series, k) == None
  {
    var c := Empty(CacheCapacity);
    Engine("", "", "", "", "", false, 0, [], Caches(c, c, c, c))
  }

  /** Separators and lower-case letters only, as in a segmentation. */
  predicate SegChars(seg: string)
  {
    forall i :: 0 <= i < |seg| ==> IsLower(seg[i]) || seg[i] == Quote
  }

  lemma {:induction false} RemoveAllSegChars(seg: string)
    requires SegChars(seg)
    ensures IsLowerWord(RemoveAll(seg, Quote))
  {
    if |seg| > 0 {
      assert SegChars(seg[1..]) by {
        forall i | 0 <= i < |seg[1..]|
          ensures IsLower(seg[1..][i]) || seg[1..][i] == Quote
        {
          assert seg[1..][i] == seg[i + 1];
        }
      }
      RemoveAllSegChars(seg[1..]);
    }
  }

  /** The uncached database lookup of `generate`: split the segmentation,
      build the query, run it (the empty query yields nothing) and filter
      the rows when the query asks for it. */
  function Fetch(store: Query -> seq<WordItem>, s: string, seg: string): (r: seq<WordItem>)
    ensures var gs := Split(seg, Quote);
            var q := BuildSql(s, gs).0;
            && (q.NoQuery? ==> r == [])
            && (q.ByKey? || q.KeyRange? ==> r == store(q))
            && (q.ByAbbrev? ==> IsSubseq(r, store(q)) && forall x :: x in r <==> x in store(q) && MatchesGroups(gs, x.key))
            && (q.ByAbbrev? ==> forall x :: Count(r, x) == if MatchesGroups(gs, x.key) then Count(store(q), x) else 0)
  {
    var gs := Split(seg, Quote);
    var q := BuildSql(s, gs);
    var rows := if q.0.NoQuery? then [] else store(q.0);
    if q.1 then FilterKeyValueList(gs, rows) else rows
  }

  /** `generate`: nothing for no keys, the ten characters of a single key,
      otherwise the cached list or a fresh lookup, which is then cached under
      the keys. Only the plain cache changes, and only at `s`. */
  function Generate(env: Env, c: Caches, s: string, seg: string): (r: (Caches, seq<WordItem>))
    requires CachesWf(c)
    requires |s| == 1 ==> IsLower(s[0])
    ensures CachesWf(r.0)
    ensures r.0 == c.(plain := r.0.plain)
    ensures |s| == 0 ==> r == (c, [])
    ensures |s| == 1 ==> r == (c, SingleCharCandidates(env.singleHan, s))
    ensures |s| >= 2 ==> Get(r.0.plain, s) == Some(r.1)
    ensures |s| >= 2 && s in c.plain.entries ==> r == (c, c.plain.entries[s])
    ensures |s| >= 2 && s !in c.plain.entries ==> r.1 == Fetch(env.store, s, seg)
    ensures forall k :: k in r.0.plain.entries ==> k == s || (k in c.plain.entries && r.0.plain.entries[k] == c.plain.entries[k])
  {
    if |s| == 0 then (c, [])
    else if |s| == 1 then (c, SingleCharCandidates(env.singleHan, s))
    else if s in c.plain.entries then (c, c.plain.entries[s])
    else
      var cands := Fetch(env.store, s, seg);
      InsertOnlyAdds(c.plain, s, cands);
      (c.(plain := Insert(c.plain, s, cands)), cands)
  }

  /** The oracle fallback of `generateSeries`: at most one item, the
      predicted sentence for the segmentation in full pinyin, keyed by
      `owner` (the session's `_pinyin_sequence`) with weight 1. */
  function OracleItem(env: Env, owner: string, seg: string): (r: seq<WordItem>)
    ensures |r| <= 1
    ensures |r| == 1 <==> env.oracle(ConvertSeg(env.cfg, seg)) != ""
    ensures |r| == 1 ==> r[0] == WordItem(owner, env.oracle(ConvertSeg(env.cfg, seg)), 1)
  {
    var res := env.oracle(ConvertSeg(env.cfg, seg));
    if |res| > 0 then [WordItem(owner, res, 1)] else []
  }

  /** The loop of `generateSeries`: truncate the segmentation at its last
      separator and look up what is left, until no separator remains. */
  function SeriesTail(env: Env, c: Caches, seg: string): (r: (Caches, seq<WordItem>))
    requires CachesWf(c)
    requires SegChars(seg)
    ensures CachesWf(r.0)
    ensures r.0 == c.(plain := r.0.plain)
    ensures Quote !in seg ==> r == (c, [])
    decreases |seg|
  {
    match LastIndexOf(seg, Quote)
    case None => (c, [])
    case Some(pos) =>
      var seg' := seg[..pos];
      var pure' := RemoveAll(seg', Quote);
      RemoveAllSegChars(seg');
      var g := Generate(env, c, pure', seg');
      var t := SeriesTail(env, g.0, seg');
      (t.0, g.1 + t.1)
  }

  /** `generateSeries`: for two keys or more, the cached list or the lookup
      of the keys (the oracle's sentence, keyed by `owner`, when the lookup is
      empty) followed by the lookups of the prefixes `SeriesTail` visits; the
      result is cached under the keys. Only the plain and series caches
      change, the series cache only at `s`. */
  function GenerateSeries(env: Env, c: Caches, owner: string, s: string, seg: string): (r: (Caches, seq<WordItem>))
    requires CachesWf(c)
    requires |s| == 1 ==> IsLower(s[0])
    requires SegChars(seg)
    ensures CachesWf(r.0)
    ensures r.0 == c.(plain := r.0.plain, series := r.0.series)
    ensures |s| == 0 ==> r == (c, [])
    ensures |s| == 1 ==> r == (c, SingleCharCandidates(env.singleHan, s))
    ensures |s| >= 2 ==> Get(r.0.series, s) == Some(r.1)
    ensures |s| >= 2 && s in c.series.entries ==> r == (c, c.series.entries[s])
    ensures forall k :: k in r.0.series.entries ==> k == s || (k in c.series.entries && r.0.series.entries[k] == c.series.entries[k])
  {
    if |s| == 0 then (c, [])
    else if |s| == 1 then (c, SingleCharCandidates(env.singleHan, s))
    else if s in c.series.entries then (c, c.series.entries[s])
    else
      var g := Generate(env, c, s, seg);
      var head := if |g.1| > 0 then g.1 else OracleItem(env, owner, seg);
      var t := SeriesTail(env, g.0, seg);
      var cands := head + t.1;
      InsertOnlyAdds(t.0.series, s, cands);
      (t.0.(series := Insert(t.0.series, s, cands)), cands)
  }

  /** The session's own segmentation has only letters and separators. */
  lemma {:induction false} SegmentSegChars(cfg: Config, s: string)
    requires IsLowerWord(s)
    ensures SegChars(Segment(cfg, s))
  {
    SegmentChars(Syllable(cfg), s);
  }

  /** `filter_with_single_helpcode`: nothing for no candidates; otherwise the
      first tier, the second tier, the series of the whole typed sequence
      `pinyin` (the help letter read as a key) and the rest. The source also
      stores the segmentation of `pinyin` in the session here; `Recompute`
      ends by storing that same value, so the write is not repeated. */
  function FilterWithSingleHelpcode(env: Env, c: Caches, pinyin: string, cands: seq<WordItem>, hc: string): (r: (Caches, seq<WordItem>))
    requires CachesWf(c)
    requires IsLowerWord(pinyin)
    ensures CachesWf(r.0)
    ensures r.0 == c.(plain := r.0.plain, series := r.0.series)
    ensures |cands| == 0 ==> r == (c, [])
    ensures SegChars(Segment(env.cfg, pinyin))
    ensures |cands| > 0 ==>
              var h := CharAt(hc, 0);
              var g := GenerateSeries(env, c, pinyin, pinyin, Segment(env.cfg, pinyin));
              && r.0 == g.0
              && r.1 == TierList(env.cfg, cands, h, First) + TierList(env.cfg, cands, h, Last)
                        + g.1 + TierList(env.cfg, cands, h, Rest)
  {
    SegmentSegChars(env.cfg, pinyin);
    if |cands| == 0 then (c, [])
    else
      var h := CharAt(hc, 0);
      var seg := Segment(env.cfg, pinyin);
      var g := GenerateSeries(env, c, pinyin, pinyin, seg);
      (g.0, TierList(env.cfg, cands, h, First) + TierList(env.cfg, cands, h, Last) + g.1 + TierList(env.cfg, cands, h, Rest))
  }

  /** `generate_with_helpcodes`: one help letter is served from the single
      cache, two from the double cache, each keyed by the whole typed
      sequence `s` (the session's `_pinyin_sequence`, which also keys the
      oracle item); otherwise the series of the pure keys is filtered (three
      tiers for one letter, the strict filter for two) and the result cached.
      Any other number of help letters gives nothing. */
  function GenerateWithHelpcodes(env: Env, c: Caches, pure: string, pureSeg: string, s: string, hc: string): (r: (Caches, seq<WordItem>))
    requires CachesWf(c)
    requires |pure| == 1 ==> IsLower(pure[0])
    requires SegChars(pureSeg)
    requires IsLowerWord(s)
    ensures CachesWf(r.0)
    ensures |hc| == 1 && s in c.single.entries ==> r == (c, c.single.entries[s])
    ensures |hc| == 2 && s in c.double.entries ==> r == (c, c.double.entries[s])
    ensures |hc| == 1 ==> Get(r.0.single, s) == Some(r.1)
    ensures |hc| == 2 ==> Get(r.0.double, s) == Some(r.1)
    ensures |hc| != 1 && |hc| != 2 ==> r.1 == []
    ensures |hc| == 1 && s !in c.single.entries ==>
              var g := GenerateSeries(env, c, s, pure, pureSeg);
              r.1 == FilterWithSingleHelpcode(env, g.0, s, g.1, hc).1
    ensures |hc| == 2 && s !in c.double.entries ==>
              r.1 == FilterDouble(env.cfg, GenerateSeries(env, c, s, pure, pureSeg).1, hc)
  {
    if |hc| == 1 && s in c.single.entries then (c, c.single.entries[s])
    else if |hc| == 2 && s in c.double.entries then (c, c.double.entries[s])
    else
      var g := GenerateSeries(env, c, s, pure, pureSeg);
      if |hc| == 1 then
        var f := FilterWithSingleHelpcode(env, g.0, s, g.1, hc);
        (f.0.(single := Insert(f.0.single, s, f.1)), f.1)
      else if |hc| == 2 then
        var res := FilterDouble(env.cfg, g.1, hc);
        (g.0.(double := Insert(g.0.double, s, res)), res)
      else (g.0, [])
  }

  /** `IsFullHelpMode` only holds for two typed letters or more (the source
      takes the last two letters as help codes). */
  ghost predicate FullHelpNeedsTwo(cfg: Config)
  {
    forall w :: cfg.isFullHelp(w) ==> |w| >= 2
  }

  /** An odd sequence takes its last letter as a help code when the rest
      segments into full syllables only. */
  predicate OddHelp(cfg: Config, s: string)
    requires |s| > 0
  {
    IsAllComplete(s[..|s| - 1], Segment(cfg, s[..|s| - 1]))
  }

  /** How many trailing letters `handleVkCode` reads as help codes: two in
      full help mode, one for an odd sequence longer than one whose prefix
      is all full syllables, none otherwise. */
  function HelpCount(cfg: Config, s: string, full: bool): (n: nat)
    requires full ==> |s| >= 2
    ensures n <= 2 && n <= |s|
    ensures n == 2 <==> full
    ensures n == 1 <==> !full && |s| % 2 == 1 && |s| > 1 && OddHelp(cfg, s)
  {
    if full then 2 else if |s| % 2 == 1 && |s| > 1 && OddHelp(cfg, s) then 1 else 0
  }

  /** `_pure_pinyin_sequence` after the recomputation: the sequence without
      its last two letters in full help mode, without its last letter when it
      is odd and longer than one (whether or not that letter became a help
      code), the whole sequence otherwise. */
  function PureOf(s: string, full: bool): (p: string)
    requires full ==> |s| >= 2
    ensures p <= s
  {
    if full then s[..|s| - 2] else if |s| % 2 == 1 && |s| > 1 then s[..|s| - 1] else s
  }

  /** The help-mode fields the recomputation at the end of `handleVkCode`
      sets, before the candidates are looked up. The source writes
      `_pinyin_segmentation` several times along the way; every path ends by
      storing the segmentation of the whole sequence, which is the value kept
      here. */
  function Settle(cfg: Config, e: Engine): (r: Engine)
    requires Wf(e)
    requires FullHelpNeedsTwo(cfg)
    ensures Wf(r)
    ensures r.pinyin == e.pinyin && r.withCases == e.withCases && r.candidates == e.candidates && r.caches == e.caches
    ensures r.segmentation == Segment(cfg, e.pinyin)
    ensures r.fullHelp == cfg.isFullHelp(e.withCases)
    ensures r.fullHelp ==> |e.pinyin| >= 2 && r.helpPos == |e.pinyin| - 2
    ensures !r.fullHelp ==> r.helpPos == 0
  {
    var s := e.pinyin;
    var full := cfg.isFullHelp(e.withCases);
    var n := HelpCount(cfg, s, full);
    e.(pure := PureOf(s, full), segmentation := Segment(cfg, s),
       helpcodes := if n > 0 then s[|s| - n..] else e.helpcodes,
       fullHelp := full, helpPos := if full then |s| - 2 else 0)
  }

  /** Which letters the recomputation reads as keys and which as help
      codes: in full help mode the last two letters are help codes; an odd
      sequence longer than one drops its last letter from the keys, and that
      letter is the help code exactly when the rest is all full syllables;
      otherwise the whole sequence is the keys and the help codes stay. */
  lemma {:induction false} SettleSplitsHelpCodes(cfg: Config, e: Engine)
    requires Wf(e)
    requires FullHelpNeedsTwo(cfg)
    ensures var r := Settle(cfg, e);
            var s := e.pinyin;
            && (r.fullHelp ==> r.pure == s[..|s| - 2] && r.helpcodes == s[|s| - 2..])
            && (!r.fullHelp && |s| % 2 == 1 && |s| > 1 ==> r.pure == s[..|s| - 1])
            && (!r.fullHelp && |s| % 2 == 1 && |s| > 1 && OddHelp(cfg, s) ==> r.helpcodes == [s[|s| - 1]])
            && (!r.fullHelp && (|s| % 2 == 0 || |s| == 1) ==> r.pure == s)
            && (HelpCount(cfg, s, r.fullHelp) == 0 ==> r.helpcodes == e.helpcodes)
  {
  }

  /** The recomputation at the end of `handleVkCode`: the help-mode fields
      of `Settle`, then the candidates of the help-code branch (the last one
      or two letters are help codes) or of the series branch (the whole
      sequence). */
  function Recompute(env: Env, e: Engine): (r: Engine)
    requires Wf(e)
    requires FullHelpNeedsTwo(env.cfg)
    ensures Wf(r)
    ensures r == Settle(env.cfg, e).(candidates := r.candidates, caches := r.caches)
  {
    var v := Settle(env.cfg, e);
    var s := e.pinyin;
    var n := HelpCount(env.cfg, s, v.fullHelp);
    var g := if n > 0 then HelpCandidates(env, e.caches, s, n) else SeriesCandidates(env, e.caches, s);
    v.(candidates := g.1, caches := g.0)
  }

  /** The help-code branches: the last `n` letters are help codes, the rest
      are the pure keys, looked up under their own segmentation. */
  function HelpCandidates(env: Env, c: Caches, s: string, n: nat): (r: (Caches, seq<WordItem>))
    requires CachesWf(c)
    requires IsLowerWord(s)
    requires 1 <= n <= 2 && |s| >= n
    ensures CachesWf(r.0)
  {
    var pure := s[..|s| - n];
    var seg := Segment(env.cfg, pure);
    SegmentSegChars(env.cfg, pure);
    GenerateWithHelpcodes(env, c, pure, seg, s, s[|s| - n..])
  }

  /** The series branches: the whole sequence is segmented and looked up as
      a series. */
  function SeriesCandidates(env: Env, c: Caches, s: string): (r: (Caches, seq<WordItem>))
    requires CachesWf(c)
    requires IsLowerWord(s)
    ensures CachesWf(r.0)
  {
    var whole := Segment(env.cfg, s);
    SegmentSegChars(env.cfg, s);
    GenerateSeries(env, c, s, s, whole)
  }

  /** Windows virtual-key codes the session reacts to. */
  const VkBack: nat := 0x08
  const VkTab: nat := 0x09
  const VkReturn: nat := 0x0D
  const VkShift: nat := 0x10
  const VkEscape: nat := 0x1B
  const VkSpace: nat := 0x20

  predicate IsLetterKey(vk: nat) { 'A' as nat <= vk <= 'Z' as nat }

  predicate IsDigitKey(vk: nat) { '0' as nat <= vk <= '9' as nat }

  /** The lower-case letter of a letter key. */
  function LetterOf(vk: nat): (c: char)
    requires IsLetterKey(vk)
    ensures IsLower(c) && c as nat == vk + 32
  {
    (vk + 32) as char
  }

  /** `reset_state`: the typed input, the help mode and the candidates are
      cleared; the segmentation, the help codes and the caches stay. */
  function ResetState(e: Engine): (r: Engine)
    requires Wf(e)
    ensures Wf(r)
    ensures r.pinyin == "" && r.withCases == "" && r.pure == "" && r.candidates == []
    ensures !r.fullHelp && r.helpPos == 0
    ensures r.segmentation == e.segmentation && r.helpcodes == e.helpcodes && r.caches == e.caches
  {
    e.(pinyin := "", withCases := "", pure := "", fullHelp := false, helpPos := 0, candidates := [])
  }

  /** `reset_cache`: the four caches are emptied, nothing else changes. */
  function ResetCache(e: Engine): (r: Engine)
    requires Wf(e)
    ensures Wf(r)
    ensures r == e.(caches := r.caches)
    ensures forall k :: Get(r.caches.plain, k) == None && Get(r.caches.single, k) == None
                     && Get(r.caches.double, k) == None && Get(r.caches.series, k) == None
  {
    var c := e.caches;
    e.(caches := Caches(Clear(c.plain), Clear(c.single), Clear(c.double), Clear(c.series)))
  }

  /** `handleVkCode`: a letter is appended (its lower case to the sequence,
      its typed case to the cased copy, upper case when the first modifier bit
      is set); space and digits return at once, return, shift and escape
      reset the session first, tab returns at once; backspace drops the last
      letter of both copies. Everything else, including the dummy code 0 and
      unknown keys, falls through to the recomputation with the letters
      unchanged. The result code is always 0. */
  function HandleVkCode(env: Env, e: Engine, vk: nat, mods: nat): (r: (Engine, int))
    requires Wf(e)
    requires FullHelpNeedsTwo(env.cfg)
    ensures Wf(r.0)
    ensures r.1 == 0
  {
    if vk == VkReturn || vk == VkShift || vk == VkEscape then (ResetState(e), 0)
    else if vk == VkSpace || IsDigitKey(vk) || vk == VkTab then (e, 0)
    else (Recompute(env, TypeKey(e, vk, mods)), 0)
  }

  /** The edit `handleVkCode` makes to the typed letters before it
      recomputes: a letter key appends its lower case to the sequence and its
      typed case to the cased copy (upper case when the first modifier bit is
      set); backspace drops the last letter of both copies when there is one;
      any other key changes nothing. */
  function TypeKey(e: Engine, vk: nat, mods: nat): (r: Engine)
    requires Wf(e)
    ensures Wf(r)
    ensures r == e.(pinyin := r.pinyin, withCases := r.withCases)
    ensures IsLetterKey(vk) ==>
              r.pinyin == e.pinyin + VkCodeToChar(vk)
              && r.withCases == e.withCases + [if mods % 2 == 1 then vk as char else LetterOf(vk)]
    ensures vk == VkBack && |e.pinyin| > 0 ==>
              r.pinyin == e.pinyin[..|e.pinyin| - 1] && r.withCases == e.withCases[..|e.withCases| - 1]
    ensures !IsLetterKey(vk) && (vk != VkBack || |e.pinyin| == 0) ==> r == e
  {
    if vk != 0 && IsLetterKey(vk) then
      var c := LetterOf(vk);
      var typed := if mods % 2 == 1 then vk as char else c;
      e.(pinyin := e.pinyin + [c], withCases := e.withCases + [typed])
    else if vk == VkBack && |e.pinyin| > 0 then
      e.(pinyin := e.pinyin[..|e.pinyin| - 1], withCases := e.withCases[..|e.withCases| - 1])
    else e
  }

  /** After a key that recomputes, the typed letters are those `TypeKey`
      leaves and the segmentation is that of the whole sequence. */
  lemma {:induction false} HandleVkCodeRecomputes(env: Env, e: Engine, vk: nat, mods: nat)
    requires Wf(e)
    requires FullHelpNeedsTwo(env.cfg)
    requires Recomputes(vk)
    ensures var r := HandleVkCode(env, e, vk, mods).0;
            && r.pinyin == TypeKey(e, vk, mods).pinyin
            && r.withCases == TypeKey(e, vk, mods).withCases
            && r.segmentation == Segment(env.cfg, r.pinyin)
  {
  }

  /** Keys that do not recompute: return, shift and escape reset the
      session; space, digits and tab leave it as it is. */
  lemma {:induction false} HandleVkCodeEarlyReturn(env: Env, e: Engine, vk: nat, mods: nat)
    requires Wf(e)
    requires FullHelpNeedsTwo(env.cfg)
    requires !Recomputes(vk)
    ensures vk == VkReturn || vk == VkShift || vk == VkEscape ==> HandleVkCode(env, e, vk, mods).0 == ResetState(e)
    ensures vk == VkSpace || IsDigitKey(vk) || vk == VkTab ==> HandleVkCode(env, e, vk, mods).0 == e
  {
  }

  /** Keys with a branch of their own in `handleVkCode`. */
  predicate IsKnownKey(vk: nat)
  {
    IsLetterKey(vk) || IsDigitKey(vk) || vk in {VkSpace, VkReturn, VkShift, VkEscape, VkTab, VkBack}
  }

  /** Keys after which the candidates are recomputed. */
  predicate Recomputes(vk: nat)
  {
    !(vk == VkSpace || IsDigitKey(vk) || vk == VkTab || vk == VkReturn || vk == VkShift || vk == VkEscape)
  }

  /** `VkCodeToChar`: letters in lower case, digits as themselves, space,
      tab and return as their characters, anything else as "". */
  function VkCodeToChar(vk: nat): (r: string)
    ensures IsLetterKey(vk) ==> r == [LetterOf(vk)]
    ensures IsDigitKey(vk) ==> r == [vk as char]
    ensures vk == VkSpace ==> r == " "
    ensures vk == VkTab ==> r == "\t"
    ensures vk == VkReturn ==> r == "\n"
    ensures r == "" <==> !(IsLetterKey(vk) || IsDigitKey(vk) || vk == VkSpace || vk == VkTab || vk == VkReturn)
  {
    if IsLetterKey(vk) then [LetterOf(vk)]
    else if IsDigitKey(vk) then [vk as char]
    else if vk == VkSpace then " "
    else if vk == VkTab then "\t"
    else if vk == VkReturn then "\n"
    else ""
  }

  /** The loop of `get_pinyin_segmentation_with_cases`: separators are
      copied; each other character is matched against the next typed letter
      and replaced by it when it is that letter's lower case. */
  function WithCasesFrom(seg: string, cases: string, index: nat): (r: string)
    // at most one character out per character in
    ensures |r| <= |seg|
    decreases |seg|
  {
    if |seg| == 0 then ""
    else if seg[0] == Quote then [Quote] + WithCasesFrom(seg[1..], cases, index)
    else
      var c := CharAt(cases, index);
      var out := if seg[0] == c then [seg[0]] else if seg[0] as int == c as int + 32 then [c] else "";
      out + WithCasesFrom(seg[1..], cases, index + 1)
  }

  /** `get_pinyin_segmentation_with_cases`: on a well-formed engine whose
      segmentation is that of its keys under `cfg`, the segmentation with
      each letter in the case it was typed in. */
  function SegmentationWithCases(cfg: Config, e: Engine): (r: string)
    ensures Wf(e) && e.segmentation == Segment(cfg, e.pinyin) ==>
              && |r| == |e.segmentation|
              && (forall i :: 0 <= i < |r| ==> (r[i] == Quote <==> e.segmentation[i] == Quote))
              && RemoveAll(r, Quote) == e.withCases
  {
    CasesShape(cfg, e);
    WithCasesFrom(e.segmentation, e.withCases, 0)
  }

  /** When the letters of `seg` are the lower-case letters from `index` on,
      the loop puts back each letter as it was typed and keeps every
      separator where it was. */
  lemma {:induction false} WithCasesFromShape(seg: string, lower: string, cases: string, index: nat)
    requires index <= |lower| && |cases| == |lower|
    requires IsLowerWord(lower)
    requires forall i :: 0 <= i < |lower| ==> CaseOf(lower[i], cases[i])
    requires RemoveAll(seg, Quote) == lower[index..]
    ensures var r := WithCasesFrom(seg, cases, index);
            && |r| == |seg|
            && (forall i :: 0 <= i < |seg| ==> (r[i] == Quote <==> seg[i] == Quote))
            && RemoveAll(r, Quote) == cases[index..]
    decreases |seg|
  {
    var r := WithCasesFrom(seg, cases, index);
    if |seg| == 0 {
      assert cases[index..] == [];
    } else if seg[0] == Quote {
      WithCasesFromShape(seg[1..], lower, cases, index);
      var r' := WithCasesFrom(seg[1..], cases, index);
      assert r == [Quote] + r';
      assert r[1..] == r';
    } else {
      assert lower[index..] == [seg[0]] + RemoveAll(seg[1..], Quote);
      assert lower[index + 1..] == lower[index..][1..];
      WithCasesFromShape(seg[1..], lower, cases, index + 1);
      var r' := WithCasesFrom(seg[1..], cases, index + 1);
      assert CaseOf(lower[index], cases[index]);
      assert r == [cases[index]] + r';
      assert r[1..] == r';
      assert cases[index..] == [cases[index]] + cases[index + 1..];
    }
  }

  /** With the segmentation of the typed sequence (as after every key that
      recomputes), the cased segmentation has the same separators in the
      same places, and deleting them gives the letters exactly as typed. */
  lemma {:induction false} SegmentationWithCasesShape(cfg: Config, e: Engine)
    requires Wf(e)
    requires e.segmentation == Segment(cfg, e.pinyin)
    ensures var r := SegmentationWithCases(cfg, e);
            && |r| == |e.segmentation|
            && (forall i :: 0 <= i < |r| ==> (r[i] == Quote <==> e.segmentation[i] == Quote))
            && RemoveAll(r, Quote) == e.withCases
  {
    CasesShape(cfg, e);
  }

  /** The loop run over the whole segmentation of the keys puts back every
      typed case and keeps every separator. */
  lemma {:induction false} CasesShape(cfg: Config, e: Engine)
    ensures Wf(e) && e.segmentation == Segment(cfg, e.pinyin) ==>
              var r := WithCasesFrom(e.segmentation, e.withCases, 0);
              && |r| == |e.segmentation|
              && (forall i :: 0 <= i < |r| ==> (r[i] == Quote <==> e.segmentation[i] == Quote))
              && RemoveAll(r, Quote) == e.withCases
  {
    if Wf(e) && e.segmentation == Segment(cfg, e.pinyin) {
      var s := e.pinyin;
      if |s| == 0 {
        assert Groups(Syllable(cfg), s) == [];
        assert e.segmentation == "";
      } else {
        SegmentShape(Syllable(cfg), s);
      }
      assert s[0..] == s && e.withCases[0..] == e.withCases;
      WithCasesFromShape(e.segmentation, s, e.withCases, 0);
    }
  }
}
