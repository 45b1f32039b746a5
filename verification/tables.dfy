/** The Xiaohe shuangpin scheme tables and the engine's read-only
    configuration.

    The key tables are constants of the source. The syllable set, the
    help-code table, the iteration order of the finals table (an
    `unordered_map`, whose order the source does not fix) and the four
    helpers whose bodies are not part of this model are configuration:
    they are loaded or defined outside the core and never change. */
module Tables {

  /** Initials that own a key of their own: sh on u, ch on i, zh on v. */
  const SmKeymaps: map<string, string> := map["sh" := "u", "ch" := "i", "zh" := "v"]

  const SmKeymapsReversed: map<string, string> := map["u" := "sh", "i" := "ch", "v" := "zh"]

  /** Syllables without an initial and their two-key codes. */
  const ZeroSmKeymaps: map<string, string> := map[
    "a" := "aa", "ai" := "ai", "ao" := "ao", "ang" := "ah", "e" := "ee", "ei" := "ei",
    "en" := "en", "eng" := "eg", "er" := "er", "o" := "oo", "ou" := "ou"]

  /** Two-key codes of syllables without an initial. It has one entry more
      than `ZeroSmKeymaps`: "an" is decodable but not listed forwards. */
  const ZeroSmKeymapsReversed: map<string, string> := map[
    "aa" := "a", "ai" := "ai", "an" := "an", "ao" := "ao", "ah" := "ang", "ee" := "e",
    "ei" := "ei", "en" := "en", "eg" := "eng", "er" := "er", "oo" := "o", "ou" := "ou"]

  /** Each final and the key it is typed with. Several finals share a key. */
  const YmKeymaps: map<string, string> := map[
    "iu" := "q", "ei" := "w", "e" := "e", "uan" := "r", "ue" := "t", "ve" := "t",
    "un" := "y", "u" := "u", "i" := "i", "uo" := "o", "o" := "o", "ie" := "p",
    "a" := "a", "ong" := "s", "iong" := "s", "ai" := "d", "en" := "f", "eng" := "g",
    "ang" := "h", "an" := "j", "uai" := "k", "ing" := "k", "uang" := "l", "iang" := "l",
    "ou" := "z", "ua" := "x", "ia" := "x", "ao" := "c", "ui" := "v", "v" := "v",
    "in" := "b", "iao" := "n", "ian" := "m"]

  /** One final per key. */
  const YmKeymapsReversed: map<string, string> := map[
    "q" := "iu", "w" := "ei", "e" := "e", "r" := "uan", "t" := "ve", "y" := "un",
    "u" := "u", "i" := "i", "o" := "o", "p" := "ie", "a" := "a", "s" := "iong",
    "d" := "ai", "f" := "en", "g" := "eng", "h" := "ang", "j" := "an", "k" := "ing",
    "l" := "iang", "z" := "ou", "x" := "ia", "c" := "ao", "v" := "v", "b" := "in",
    "n" := "iao", "m" := "ian"]

  /** The read-only inputs of the core.
      - `quanpin`: the valid full-pinyin syllables (one per line of a file);
      - `helpcodes`: Han character to its help code (normally two letters);
      - `finalsOrder`: the entries of `YmKeymaps` in hash-map iteration order;
      - `countUtf8`, `firstHan`, `lastHan`: `count_utf8_chars`,
        `get_first_han_char`, `get_last_han_char`;
      - `isFullHelp`: `IsFullHelpMode`, a predicate over the case pattern of
        the typed letters. */
  datatype Config = Config(
    quanpin: set<string>,
    helpcodes: map<string, string>,
    finalsOrder: seq<(string, string)>,
    countUtf8: string -> int,
    firstHan: string -> string,
    lastHan: string -> string,
    isFullHelp: string -> bool)

  /** `finalsOrder` enumerates `YmKeymaps`, each entry once. */
  predicate FinalsOrderOk(cfg: Config)
  {
    && (forall i :: 0 <= i < |cfg.finalsOrder| ==>
          cfg.finalsOrder[i].0 in YmKeymaps && YmKeymaps[cfg.finalsOrder[i].0] == cfg.finalsOrder[i].1)
    && (forall f :: f in YmKeymaps ==> exists i :: 0 <= i < |cfg.finalsOrder| && cfg.finalsOrder[i].0 == f)
  }

  /** The initial tables are mutually inverse. */
  lemma {:induction false} InitialTablesAgree()
    ensures forall k :: k in SmKeymaps ==> SmKeymaps[k] in SmKeymapsReversed && SmKeymapsReversed[SmKeymaps[k]] == k
    ensures forall k :: k in SmKeymapsReversed ==> SmKeymapsReversed[k] in SmKeymaps && SmKeymaps[SmKeymapsReversed[k]] == k
  {
  }

  /** Every zero-initial code decodes back to its syllable. */
  lemma {:induction false} ZeroTablesAgree()
    ensures forall f :: f in ZeroSmKeymaps ==> ZeroSmKeymaps[f] in ZeroSmKeymapsReversed && ZeroSmKeymapsReversed[ZeroSmKeymaps[f]] == f
  {
  }
}
