/** Narrowing candidates with help codes (`filter_with_single_helpcode` and
    `filter_with_double_helpcodes` in dictionary.cpp). A help code is two
    letters attached to a Han character. A word of one character is judged
    by its own code; a longer word by the codes of its first and last
    characters. Reading past the end of a code reads NUL, which matches no
    letter. */
module HelpFilter {
  import opened Text
  import opened Tables
  import opened Query

  /** The rank a single help letter gives a candidate. */
  datatype Tier = First | Last | Rest

  /** The first letter of a character's code matches `h`. */
  predicate CodeStartsWith(cfg: Config, c: string, h: char)
  {
    c in cfg.helpcodes && CharAt(cfg.helpcodes[c], 0) == h
  }

  /** The tier of one word: a single character matching with the first
      letter of its code ranks first, with the second letter second; a longer
      word ranks first when its first character's code starts with `h`, second
      when its last character's does. */
  function TierOf(cfg: Config, w: string, h: char): Tier
  {
    if cfg.countUtf8(w) == 1 then
      if CodeStartsWith(cfg, w, h) then First
      else if w in cfg.helpcodes && CharAt(cfg.helpcodes[w], 1) == h then Last
      else Rest
    else if CodeStartsWith(cfg, cfg.firstHan(w), h) then First
    else if CodeStartsWith(cfg, cfg.lastHan(w), h) then Last
    else Rest
  }

  /** The candidates of one tier, in input order. */
  function TierList(cfg: Config, cands: seq<WordItem>, h: char, t: Tier): (r: seq<WordItem>)
    ensures IsSubseq(r, cands)
    ensures forall x :: x in r <==> x in cands && TierOf(cfg, x.word, h) == t
  {
    Filter(cands, (x: WordItem) => TierOf(cfg, x.word, h) == t)
  }

  /** What the tiers mean for a word whose codes are two letters each. */
  lemma {:induction false} TierMeaning(cfg: Config, w: string, h: char)
    requires IsLower(h)
    ensures cfg.countUtf8(w) == 1 && w in cfg.helpcodes && |cfg.helpcodes[w]| == 2 ==>
              var code := cfg.helpcodes[w];
              && (TierOf(cfg, w, h) == First <==> code[0] == h)
              && (TierOf(cfg, w, h) == Last <==> code[0] != h && code[1] == h)
    ensures cfg.countUtf8(w) == 1 && w !in cfg.helpcodes ==> TierOf(cfg, w, h) == Rest
    ensures cfg.countUtf8(w) != 1 ==>
              && (TierOf(cfg, w, h) == First <==> CodeStartsWith(cfg, cfg.firstHan(w), h))
              && (TierOf(cfg, w, h) == Last <==>
                    !CodeStartsWith(cfg, cfg.firstHan(w), h) && CodeStartsWith(cfg, cfg.lastHan(w), h))
  {
  }

  /** The three tiers split the candidates: together they hold every
      candidate exactly as often as the input does. */
  lemma {:induction false} TiersPartition(cfg: Config, cands: seq<WordItem>, h: char)
    ensures multiset(TierList(cfg, cands, h, First)) + multiset(TierList(cfg, cands, h, Last))
              + multiset(TierList(cfg, cands, h, Rest)) == multiset(cands)
  {
    if |cands| > 0 {
      var c := cands[0];
      var rest := cands[1..];
      TiersPartition(cfg, rest, h);
      TierMultisetHead(cfg, cands, h, First);
      TierMultisetHead(cfg, cands, h, Last);
      TierMultisetHead(cfg, cands, h, Rest);
      assert cands == [c] + rest;
      assert multiset(cands) == multiset{c} + multiset(rest);
    }
  }

  /** The head of the candidates adds itself to the multiset of its own
      tier only. */
  lemma {:induction false} TierMultisetHead(cfg: Config, cands: seq<WordItem>, h: char, t: Tier)
    requires |cands| > 0
    ensures multiset(TierList(cfg, cands, h, t)) ==
              (if TierOf(cfg, cands[0].word, h) == t then multiset{cands[0]} else multiset{}) + multiset(TierList(cfg, cands[1..], h, t))
  {
    TierListHead(cfg, cands, h, t);
    var rest := TierList(cfg, cands[1..], h, t);
    if TierOf(cfg, cands[0].word, h) == t {
      assert multiset([cands[0]] + rest) == multiset{cands[0]} + multiset(rest);
    } else {
      assert [] + rest == rest;
    }
  }

  lemma {:induction false} TierListHead(cfg: Config, cands: seq<WordItem>, h: char, t: Tier)
    requires |cands| > 0
    ensures TierList(cfg, cands, h, t) ==
              (if TierOf(cfg, cands[0].word, h) == t then [cands[0]] else []) + TierList(cfg, cands[1..], h, t)
  {
  }

  /** The lists kept by the loop are the tiers of the candidates seen so far. */
  ghost predicate TiersOfPrefix(cfg: Config, seen: seq<WordItem>, h: char, t1: seq<WordItem>, t2: seq<WordItem>, t3: seq<WordItem>)
  {
    && t1 == TierList(cfg, seen, h, First)
    && t2 == TierList(cfg, seen, h, Last)
    && t3 == TierList(cfg, seen, h, Rest)
  }

  /** The loop of `filter_with_single_helpcode`: one pass that appends each
      candidate to the list of its tier. */
  method SplitTiers(cfg: Config, cands: seq<WordItem>, h: char) returns (t1: seq<WordItem>, t2: seq<WordItem>, t3: seq<WordItem>)
    ensures t1 == TierList(cfg, cands, h, First)
    ensures t2 == TierList(cfg, cands, h, Last)
    ensures t3 == TierList(cfg, cands, h, Rest)
  {
    t1, t2, t3 := [], [], [];
    var i := 0;
    while i < |cands|
      invariant 0 <= i <= |cands|
      invariant TiersOfPrefix(cfg, cands[..i], h, t1, t2, t3)
    {
      var cand := cands[i];
      var tier := TierOf(cfg, cand.word, h);
      TierStep(cfg, cands, i, h);
      if tier == First {
        t1 := t1 + [cand];
      } else if tier == Last {
        t2 := t2 + [cand];
      } else {
        t3 := t3 + [cand];
      }
      i := i + 1;
    }
    assert cands[..i] == cands;
  }

  lemma {:induction false} TierStep(cfg: Config, cands: seq<WordItem>, i: nat, h: char)
    requires i < |cands|
    ensures forall t :: TierList(cfg, cands[..i + 1], h, t) ==
              TierList(cfg, cands[..i], h, t) + (if TierOf(cfg, cands[i].word, h) == t then [cands[i]] else [])
  {
    assert cands[..i + 1] == cands[..i] + [cands[i]];
    forall t
      ensures TierList(cfg, cands[..i + 1], h, t) ==
                TierList(cfg, cands[..i], h, t) + (if TierOf(cfg, cands[i].word, h) == t then [cands[i]] else [])
    {
      FilterAppend(cands[..i], [cands[i]], (x: WordItem) => TierOf(cfg, x.word, h) == t);
    }
  }

  /** `filter_with_double_helpcodes`: the candidates whose codes match both
      help letters, in input order. A single character needs its code's two
      letters to be the two help letters; a longer word needs its first
      character's code to start with the first help letter and its last
      character's with the second, both characters having a code. */
  function FilterDouble(cfg: Config, cands: seq<WordItem>, hc: string): (r: seq<WordItem>)
    ensures IsSubseq(r, cands)
    ensures forall x :: x in r <==> x in cands && DoubleMatch(cfg, x.word, hc)
    ensures forall x :: Count(r, x) == if DoubleMatch(cfg, x.word, hc) then Count(cands, x) else 0
  {
    FilterCounts(cands, (x: WordItem) => DoubleMatch(cfg, x.word, hc));
    Filter(cands, (x: WordItem) => DoubleMatch(cfg, x.word, hc))
  }

  predicate DoubleMatch(cfg: Config, w: string, hc: string)
  {
    if cfg.countUtf8(w) == 1 then
      w in cfg.helpcodes && CharAt(cfg.helpcodes[w], 0) == CharAt(hc, 0) && CharAt(cfg.helpcodes[w], 1) == CharAt(hc, 1)
    else
      var f := cfg.firstHan(w);
      var l := cfg.lastHan(w);
      f in cfg.helpcodes && l in cfg.helpcodes && CodeStartsWith(cfg, f, CharAt(hc, 0)) && CodeStartsWith(cfg, l, CharAt(hc, 1))
  }

  /** With two help letters and two-letter codes, a single character
      survives exactly when its code is the two help letters. */
  lemma {:induction false} DoubleMatchesWholeCode(cfg: Config, cands: seq<WordItem>, hc: string, x: WordItem)
    requires |hc| == 2
    requires x in cands && cfg.countUtf8(x.word) == 1
    requires x.word in cfg.helpcodes && |cfg.helpcodes[x.word]| == 2
    ensures x in FilterDouble(cfg, cands, hc) <==> cfg.helpcodes[x.word] == hc
  {
    var code := cfg.helpcodes[x.word];
    if code[0] == hc[0] && code[1] == hc[1] {
      assert code == hc;
    }
  }
}
