/** Decoding Xiaohe two-key codes into full pinyin (`PinyinUtil` in
    pinyin_utils.cpp) and the segmentation it drives. */
module Scheme {
  import opened Text
  import opened Tables
  import opened Segmentation

  /** The initial a first key stands for: u, i and v are sh, ch and zh, every
      other key stands for itself. */
  function Initial(c: char): (r: string)
    ensures c == 'u' ==> r == "sh"
    ensures c == 'i' ==> r == "ch"
    ensures c == 'v' ==> r == "zh"
    ensures c != 'u' && c != 'i' && c != 'v' ==> r == [c]
  {
    if [c] in SmKeymapsReversed then SmKeymapsReversed[[c]] else [c]
  }

  /** The iteration over the candidate finals: every final typed with `key`
      whose `sm + final` is a syllable overwrites the result, so the last such
      final in iteration order wins. */
  function LastValid(quanpin: set<string>, sm: string, key: string, order: seq<(string, string)>): (r: string)
    requires |sm| > 0
    // the chosen final is the last valid one on `key` in iteration order
    ensures r != "" ==> r in quanpin && exists i :: (0 <= i < |order| && order[i].1 == key && r == sm + order[i].0
              && forall j :: i < j < |order| && order[j].1 == key ==> sm + order[j].0 !in quanpin)
    ensures r == "" <==> forall i :: 0 <= i < |order| && order[i].1 == key ==> sm + order[i].0 !in quanpin
  {
    if |order| == 0 then ""
    else
      var last := order[|order| - 1];
      var r := LastValid(quanpin, sm, key, order[..|order| - 1]);
      if last.1 == key && sm + last.0 in quanpin then sm + last.0 else r
  }

  /** `cvt_single_sp_to_pinyin`: a zero-initial code decodes through its own
      table; any other input that is not two keys long decodes to "";
      otherwise initial + final where the final is typed with the second key
      and the syllable is valid, or "" when no such syllable exists. */
  function Cvt(cfg: Config, sp: string): (r: string)
    ensures sp in ZeroSmKeymapsReversed ==> r == ZeroSmKeymapsReversed[sp]
    ensures sp !in ZeroSmKeymapsReversed && |sp| != 2 ==> r == ""
    ensures sp !in ZeroSmKeymapsReversed && |sp| == 2 && r != "" ==>
              && r in cfg.quanpin
              && exists i :: 0 <= i < |cfg.finalsOrder| && cfg.finalsOrder[i].1 == [sp[1]]
                               && r == Initial(sp[0]) + cfg.finalsOrder[i].0
                               && forall j :: i < j < |cfg.finalsOrder| && cfg.finalsOrder[j].1 == [sp[1]] ==>
                                    Initial(sp[0]) + cfg.finalsOrder[j].0 !in cfg.quanpin
    ensures sp !in ZeroSmKeymapsReversed && |sp| == 2 && r == "" ==>
              forall i :: 0 <= i < |cfg.finalsOrder| && cfg.finalsOrder[i].1 == [sp[1]] ==>
                Initial(sp[0]) + cfg.finalsOrder[i].0 !in cfg.quanpin
  {
    if sp in ZeroSmKeymapsReversed then ZeroSmKeymapsReversed[sp]
    else if |sp| != 2 then ""
    else LastValid(cfg.quanpin, Initial(sp[0]), [sp[1]], cfg.finalsOrder)
  }

  /** With the finals iterated from the scheme table, a two-key code that is
      not a zero-initial code decodes to initial + a final of that key, and to
      "" exactly when no such combination is a valid syllable. */
  lemma {:induction false} CvtUsesFinalsTable(cfg: Config, sp: string)
    requires FinalsOrderOk(cfg)
    requires |sp| == 2 && sp !in ZeroSmKeymapsReversed
    ensures var r := Cvt(cfg, sp);
            && (r != "" ==> r in cfg.quanpin && exists f :: f in YmKeymaps && YmKeymaps[f] == [sp[1]] && r == Initial(sp[0]) + f)
            && (r == "" <==> forall f :: f in YmKeymaps && YmKeymaps[f] == [sp[1]] ==> Initial(sp[0]) + f !in cfg.quanpin)
  {
    var r := Cvt(cfg, sp);
    if r != "" {
      var i :| 0 <= i < |cfg.finalsOrder| && cfg.finalsOrder[i].1 == [sp[1]] && r == Initial(sp[0]) + cfg.finalsOrder[i].0;
      var f := cfg.finalsOrder[i].0;
      assert f in YmKeymaps && YmKeymaps[f] == [sp[1]];
    } else {
      forall f | f in YmKeymaps && YmKeymaps[f] == [sp[1]]
        ensures Initial(sp[0]) + f !in cfg.quanpin
      {
        var i :| 0 <= i < |cfg.finalsOrder| && cfg.finalsOrder[i].0 == f;
      }
    }
  }

  /** A two-key group is a full syllable when it decodes into the syllable set. */
  predicate IsSyllable(cfg: Config, g: string)
  {
    Cvt(cfg, g) in cfg.quanpin
  }

  /** The syllable test of the segmentation scan. */
  function Syllable(cfg: Config): string -> bool
  {
    g => IsSyllable(cfg, g)
  }

  /** `pinyin_segmentation` with the scheme's syllable test. */
  function Segment(cfg: Config, s: string): string
  {
    SegmentBy(Syllable(cfg), s)
  }

  /** The loop of `pinyin_segmentation` computes the segmentation: separated
      greedy groups, leading separators removed. */
  method PinyinSegmentation(cfg: Config, s: string) returns (r: string)
    ensures r == Segment(cfg, s)
    ensures Quote !in s ==> r == Join(Groups(Syllable(cfg), s), Quote)
  {
    if Quote !in s {
      SegmentByIsJoin(Syllable(cfg), s);
    }
    if |s| == 1 {
      return s;
    }
    var res := Scan(Syllable(cfg), s);
    while |res| > 0 && res[0] == Quote
      invariant StripLeadingQuotes(res) == StripLeadingQuotes(Prefixed(Groups(Syllable(cfg), s)))
    {
      res := res[1..];
    }
    r := res;
  }

  /** No syllable of the syllable set contains the separator. */
  predicate LetterSyllables(cfg: Config)
  {
    forall q :: q in cfg.quanpin ==> Quote !in q
  }

  /** One group of a segmentation in full pinyin: a single key becomes its
      initial, two keys are decoded. */
  function Expand(cfg: Config, g: string): string
    requires 1 <= |g| <= 2
  {
    if |g| == 1 then Initial(g[0]) else Cvt(cfg, g)
  }

  /** The loop of `convert_seg_shuangpin_to_seg_complete_pinyin`: each group
      of one or two keys contributes its expansion and a separator; groups of
      other lengths are skipped. */
  function ExpandAll(cfg: Config, gs: seq<string>): string
  {
    if |gs| == 0 then ""
    else if 1 <= |gs[0]| <= 2 then Expand(cfg, gs[0]) + [Quote] + ExpandAll(cfg, gs[1..])
    else ExpandAll(cfg, gs[1..])
  }

  /** `convert_seg_shuangpin_to_seg_complete_pinyin`: the expansions with the
      final separator dropped (an empty result stays empty). */
  function ConvertSeg(cfg: Config, seg: string): (r: string)
    ensures |seg| == 0 ==> r == ""
    ensures var gs := Split(seg, Quote);
            (forall i :: 0 <= i < |gs| ==> 1 <= |gs[i]| <= 2) ==> r == Join(ExpandGroups(cfg, gs), Quote)
  {
    var res := ExpandAll(cfg, Split(seg, Quote));
    ExpandAllDropLast(cfg, Split(seg, Quote));
    if |res| == 0 then "" else res[..|res| - 1]
  }

  /** With every group one or two keys long, the expansions carry one
      separator too many: dropping it leaves their join. */
  lemma {:induction false} ExpandAllDropLast(cfg: Config, gs: seq<string>)
    requires |gs| > 0
    ensures (forall i :: 0 <= i < |gs| ==> 1 <= |gs[i]| <= 2) ==>
              var res := ExpandAll(cfg, gs);
              |res| > 0 && res[..|res| - 1] == Join(ExpandGroups(cfg, gs), Quote)
  {
    if forall i :: 0 <= i < |gs| ==> 1 <= |gs[i]| <= 2 {
      ExpandAllJoin(cfg, gs);
      var j := Join(ExpandGroups(cfg, gs), Quote);
      assert (j + [Quote])[..|j + [Quote]| - 1] == j;
    }
  }

  /** The expansions of the groups, in order. */
  function ExpandGroups(cfg: Config, gs: seq<string>): (r: seq<string>)
    requires forall i :: 0 <= i < |gs| ==> 1 <= |gs[i]| <= 2
    ensures |r| == |gs|
    ensures forall i :: 0 <= i < |gs| ==> r[i] == Expand(cfg, gs[i])
  {
    if |gs| == 0 then [] else [Expand(cfg, gs[0])] + ExpandGroups(cfg, gs[1..])
  }

  lemma {:induction false} ExpandAllJoin(cfg: Config, gs: seq<string>)
    requires |gs| > 0
    requires forall i :: 0 <= i < |gs| ==> 1 <= |gs[i]| <= 2
    ensures ExpandAll(cfg, gs) == Join(ExpandGroups(cfg, gs), Quote) + [Quote]
  {
    if |gs| > 1 {
      ExpandAllJoin(cfg, gs[1..]);
    }
  }

  /** Converting joined groups gives back their expansions, one per group,
      when no group and no expansion contains the separator. */
  lemma {:induction false} ConvertJoin(cfg: Config, gs: seq<string>)
    requires |gs| > 0 && SepFree(gs, Quote)
    requires forall i :: 0 <= i < |gs| ==> 1 <= |gs[i]| <= 2
    requires SepFree(ExpandGroups(cfg, gs), Quote)
    ensures Split(ConvertSeg(cfg, Join(gs, Quote)), Quote) == ExpandGroups(cfg, gs)
  {
    SplitJoin(gs, Quote);
    SplitJoin(ExpandGroups(cfg, gs), Quote);
  }

  /** Converting the segmentation of a letter string keeps its groups: the
      result has one group per segmentation group, a single key becomes its
      initial (u, i, v as sh, ch, zh), and every two-key group becomes its
      decoded syllable, which is in the syllable set. */
  lemma {:induction false} ConvertSegmentation(cfg: Config, s: string)
    requires LetterSyllables(cfg)
    requires Quote !in s && |s| > 0
    ensures var gs := Groups(Syllable(cfg), s);
            var r := Split(ConvertSeg(cfg, Segment(cfg, s)), Quote);
            && |r| == |gs|
            && (forall i :: 0 <= i < |gs| && |gs[i]| == 1 ==> r[i] == Initial(gs[i][0]))
            && (forall i :: 0 <= i < |gs| && |gs[i]| == 2 ==> r[i] == Cvt(cfg, gs[i]) && r[i] in cfg.quanpin)
  {
    var syl := Syllable(cfg);
    var gs := Groups(syl, s);
    SegmentByIsJoin(syl, s);
    GroupsAreGreedy(syl, s);
    var pieces := ExpandGroups(cfg, gs);
    assert SepFree(pieces, Quote) by {
      forall i | 0 <= i < |pieces|
        ensures Quote !in pieces[i]
      {
        assert Quote !in gs[i];
        ExpansionQuoteFree(cfg, gs[i]);
      }
    }
    ConvertJoin(cfg, gs);
  }

  lemma {:induction false} ExpansionQuoteFree(cfg: Config, g: string)
    requires LetterSyllables(cfg)
    requires (|g| == 1 && g[0] != Quote) || (|g| == 2 && IsSyllable(cfg, g))
    ensures Quote !in Expand(cfg, g)
  {
  }
}
