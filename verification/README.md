# Xiaohe shuangpin engine: a Dafny model

This project models the candidate engine of a Xiaohe shuangpin ("double
pinyin") input method. In the Xiaohe scheme every syllable takes two keys: one
for the initial and one for the final. The model covers these parts of the
engine:

- **Scheme** (`Tables`, `Scheme`): the Xiaohe key tables, and how one key pair
  converts to a full-pinyin syllable.
- **Segmentation** (`Segmentation`): the greedy forward segmentation of a key
  sequence into groups of one or two keys, joined with `'`. It also covers the
  "all complete" test that decides whether a trailing odd key is a help letter,
  and the conversion of a segmentation into segmented full pinyin.
- **UTF-8 and help codes** (`Utf8`, `Helpcodes`): counting characters by
  their lead byte, help-code strings such as `(ab)`, and stripping help codes
  from a preview.
- **The candidate cache** (`FifoCache`): the first-in-first-out
  `CircularBuffer`, with a capacity of 128 per cache.
- **Queries** (`Query`):
  - the table a key lives in;
  - the four query shapes of `build_sql`, modelled as a `Query` value instead
    of SQL text;
  - the key pattern of `filter_key_value_list`.
- **Help-code filters** (`HelpFilter`): the three-tier reordering of a
  single help letter, and the exact filter of two help letters.
- **Single-key buckets** (`Buckets`): the ten fixed characters of each single
  key.
- **The engine** (`Engine`):
  - `generate`, `generateSeries` and `generate_with_helpcodes` with their four
    caches;
  - `handleVkCode` with its three modes: plain, one help letter on an odd
    sequence, and full help mode;
  - `reset_state`, `reset_cache`, `VkCodeToChar`, and the segmentation with
    the letters' typed case.
- **Cache transparency** (`Coherence`): every cache entry equals what an
  uncached computation gives for its key. Hence every recomputation of
  `handleVkCode`, over any run of keys, shows the uncached list of the typed
  sequence. There is one exception: the key recorded on the engine's predicted
  sentence.
- **Dictionary writes** (`Mutation`): `create_word` with `do_validate`, and
  the weight update. Writes are returned as `StoreOp` values.

The outside world is a parameter of the model (`Engine.Env`):

- The SQLite database is a function from `Query` to rows.
- The existence check is a predicate on (table, key, word).
- The sentence predictor is a function from full pinyin to a sentence.
- The help-code table and the single-key buckets are values.
- The helpers whose bodies are not in the repository are fields of
  `Tables.Config`: `count_utf8_chars`, `get_first_han_char`,
  `get_last_han_char` and `IsFullHelpMode`.
- The iteration order of the `ym_keymaps` hash map is also a `Config` field.

Strings hold byte values, as `std::string` does. `Text.CharAt` reads `'\0'` one
past the end, which is what `operator[]` returns at `size()`.

Behaviour of the code worth noting:

- `choose_tbl` switches to the `others` table at eight groups
  (`Query.OthersFrom`).
- `build_sql` leaves the SQL text empty when every group is a single key, so
  that branch asks nothing (`Query.NoQuery`) and yields no rows.
- `filter_with_single_helpcode` returns nothing for an empty candidate list.
  On empty input even the original series is not appended.
- Weight updates do not clear the caches. Only `create_word` does.
- The trailing-quote loop of `pinyin_segmentation` reads `res[res.size()]`,
  the terminator, so it never removes anything. The model has no such step.
  `Segmentation.SegmentShape` shows that the result never ends with a quote
  anyway when the input has no quote.
- The predicted sentence added by `generateSeries` is keyed by the engine's
  whole typed sequence (`_pinyin_sequence`) rather than by the keys being
  looked up.
  A cached list keeps the key it was computed under. So cache transparency
  holds up to that key: `Coherence.Explains` quantifies over it.

## Model

| member | source | states |
|---|---|---|
| Tables.InitialTablesAgree | shuangpin/pinyin_utils.cpp:36-46 | the initial table (sh, ch, zh on u, i, v) and its reverse table are inverse to each other |
| Tables.ZeroTablesAgree | shuangpin/pinyin_utils.cpp:48-75 | every zero-initial syllable's key pair maps back to that syllable in the reverse table |
| Scheme.Initial | shuangpin/pinyin_utils.cpp:207-214 | the first key u, i or v stands for sh, ch or zh; any other key stands for itself |
| Scheme.LastValid | shuangpin/pinyin_utils.cpp:215-233 | the result is a valid syllable made of the initial and a final on the given key, and no later final on that key in iteration order makes a valid syllable (the last one wins); it is empty exactly when no final on that key makes a valid syllable |
| Scheme.Cvt | shuangpin/pinyin_utils.cpp:194-234 | a zero-initial pair converts through its own table; otherwise anything but two keys converts to ""; two keys convert to a valid full-pinyin syllable of the initial plus the last final, in iteration order, that is typed on the second key and gives a valid syllable, or to "" exactly when no such syllable exists |
| Scheme.CvtUsesFinalsTable | shuangpin/pinyin_utils.cpp:215-233 | the same conversion stated against the finals table itself: the result is a valid syllable of a final mapped to the second key, and it is empty exactly when no final on that key forms one |
| Scheme.PinyinSegmentation | shuangpin/pinyin_utils.cpp:242-282 | the routine's loop computes the segmentation; on input without quotes it is the greedy groups joined by `'` |
| Scheme.ConvertSeg | shuangpin/pinyin_utils.cpp:428-452 | `convert_seg_shuangpin_to_seg_complete_pinyin`: an empty segmentation gives the empty string, and when every `'`-separated group has one or two keys the result is the groups' full-pinyin expansions joined by single `'` separators, with no separator at the end |
| Scheme.ConvertJoin | shuangpin/pinyin_utils.cpp:428-452 | converting a joined segmentation to full pinyin converts each group separately, with one `'` between groups |
| Scheme.ConvertSegmentation | shuangpin/pinyin_utils.cpp:428-452 | for a segmented key sequence, the full-pinyin pieces match the groups one to one: a single key becomes its initial, and a key pair becomes its valid syllable |
| Scheme.ExpansionQuoteFree | shuangpin/pinyin_utils.cpp:434-447 | expanding a group never produces a separator, so the pieces split back apart |
| Segmentation.Groups | shuangpin/pinyin_utils.cpp:249-271 | the greedy cut yields groups of one or two keys, none for empty input, and never more groups than keys |
| Segmentation.GroupsConcat | shuangpin/pinyin_utils.cpp:249-271 | the groups concatenate back to the keys |
| Segmentation.GroupsAreGreedy | shuangpin/pinyin_utils.cpp:253-265 | every two-key group is a syllable, and a one-key group could not have been joined with the next key into a syllable |
| Segmentation.GreedyIsUnique | shuangpin/pinyin_utils.cpp:249-271 | any greedy cut of the keys is this cut |
| Segmentation.GroupsPrefix | shuangpin/dictionary.cpp:186-195 | segmenting the keys of the first k groups gives exactly those groups back (so each prefix `generateSeries` looks up is segmented as it was cut) |
| Segmentation.Scan | shuangpin/pinyin_utils.cpp:248-272 | the scanning loop emits every group with a quote in front |
| Segmentation.SegmentBy | shuangpin/pinyin_utils.cpp:242-282 | the scan `pinyin_segmentation` (which `Scheme.Segment` runs with the scheme's syllable set): input of at most one key comes back unchanged, and on quote-free keys the pieces of the result between `'` separators are exactly the forward-greedy groups |
| Segmentation.SegmentByIsJoin | shuangpin/pinyin_utils.cpp:242-282 | on input without quotes, stripping the leading quotes leaves the groups joined by `'` |
| Segmentation.SegmentShape | shuangpin/pinyin_utils.cpp:242-282 | on non-empty input without quotes: deleting the quotes gives the input back; the result neither starts nor ends with a quote; splitting at quotes gives the groups, each one or two keys; one key is returned unchanged |
| Segmentation.SegmentChars | shuangpin/pinyin_utils.cpp:242-282 | lower-case letters in give only lower-case letters and quotes out |
| Segmentation.IsAllComplete | shuangpin/pinyin_utils.cpp:407-420 | an odd number of keys is never complete |
| Segmentation.CompleteJoin | shuangpin/pinyin_utils.cpp:412-419 | the step-by-three loop accepts a joined segmentation exactly when every group except the last has two keys |
| Segmentation.AllCompleteIffSyllables | shuangpin/pinyin_utils.cpp:407-420 | for an even number of keys, the keys are "all complete" exactly when every greedy group is a two-key syllable |
| Segmentation.EvenGroups | shuangpin/pinyin_utils.cpp:407-420 | with an even total, all groups but the last being pairs forces the last to be a pair too |
| FifoCache.Empty | shuangpin/common_utils.h:10 | a new buffer is well formed, has size zero and answers nothing |
| FifoCache.IsEmpty | shuangpin/common_utils.h:67-70 | empty exactly when the size is zero |
| FifoCache.Insert | shuangpin/common_utils.h:14-33 | the key then maps to the value. An existing key keeps its place and nothing else changes. A new key goes to the back. With room left nothing is evicted. When full, exactly the oldest key is evicted and every other key keeps its value |
| FifoCache.InsertOnlyAdds | shuangpin/common_utils.h:14-33 | after an insert every key held is the inserted one or an old one with its old value |
| FifoCache.Remove | shuangpin/common_utils.h:45-54 | reports whether the key was present; afterwards the key is absent, every other key unchanged, the size one less when it was present, the capacity kept, and the other keys keep their eviction order |
| FifoCache.Clear | shuangpin/common_utils.h:56-60 | afterwards nothing is held and the capacity is kept |
| FifoCache.SizeBounded | shuangpin/common_utils.h:24-33 | a well-formed buffer never holds more keys than its capacity |
| FifoCache.SizeIsListLength | shuangpin/common_utils.h:62-65 | the size of the map equals the length of the insertion-order list |
| FifoCache.GetDoesNotRefresh | shuangpin/common_utils.h:35-43 | reading a key does not protect it (`get` is `const`): when any valid full buffer takes a new key, a key that could be read is evicted exactly when it is the oldest-inserted one |
| Utf8.LeadSize | shuangpin/pinyin_utils.cpp:292-299 | a lead byte announces one to four bytes |
| Utf8.MaskRanges | shuangpin/pinyin_utils.cpp:293-298 | the three bit-mask tests select exactly the byte ranges F0-F7, E0-EF and C0-DF |
| Utf8.FirstCharSize | shuangpin/pinyin_utils.cpp:290-303 | the first character is one to four bytes long and never longer than the string; it is the announced length when that many bytes remain |
| Utf8.Chars | shuangpin/pinyin_utils.cpp:333-338 | the characters of a string are one to four bytes each, there are at most as many as bytes, and there are none only for the empty string |
| Utf8.CharsConcat | shuangpin/pinyin_utils.cpp:330-340 | the characters cut the string into consecutive pieces that concatenate back to it |
| Utf8.CharsOfWholeChars | shuangpin/pinyin_utils.cpp:330-340 | a concatenation of complete characters is cut back into exactly those characters |
| Utf8.CharCountBounds | shuangpin/pinyin_utils.cpp:330-340 | there are at most as many characters as bytes, none only for the empty string, and one per byte for ASCII text |
| Utf8.CntHanChars | shuangpin/pinyin_utils.cpp:330-340 | the counting loop returns the number of characters |
| Utf8.LastCharSize | shuangpin/pinyin_utils.cpp:311-322 | the byte length of the last character of the cut, zero for the empty string |
| Utf8.GetLastCharSize | shuangpin/pinyin_utils.cpp:311-322 | the loop, which remembers the start of the last character it stepped over, returns that length |
| Helpcodes.FirstLetters | shuangpin/pinyin_utils.cpp:361-375 | the first code letters of the characters, or nothing exactly when some character has no code |
| Helpcodes.ComputeHelpcodes | shuangpin/pinyin_utils.cpp:348-381 | the result is empty or a parenthesised code. A single character with a code gets its whole code. A single character without one gets nothing. A word in which some character lacks a code gets nothing. The empty word gets nothing |
| Helpcodes.FirstLettersOfCodes | shuangpin/pinyin_utils.cpp:361-375 | when every character has a code, the result holds each character's first code letter in order |
| Helpcodes.HelpcodesOfWord | shuangpin/pinyin_utils.cpp:359-380 | a word of two or more coded characters gets `(` + one first code letter per character + `)` |
| Helpcodes.ExtractPreview | shuangpin/pinyin_utils.cpp:389-397 | the preview is a prefix of the candidate without `(`, and it stops exactly at the first `(` if there is one |
| Helpcodes.PreviewDropsHelpcodes | shuangpin/pinyin_utils.cpp:348-397 | the preview of a word followed by its help codes is the word again |
| Buckets.SingleHanRow | shuangpin/dictionary.cpp:27-54 | every bucket of the single-key table holds ten complete three-byte characters |
| Buckets.SingleCharCandidates | shuangpin/dictionary.cpp:459-468 | the candidates of one key spell out that key's bucket, each keyed by the code with weight 1 and one to four bytes long |
| Buckets.SingleHanCandidates | shuangpin/dictionary.cpp:459-468 | with the repository's table, one key gives exactly the ten characters of its bucket, in order, each a single character |
| Query.ChooseTbl | shuangpin/dictionary.cpp:904-910 | the table is chosen by the first key and the group count, and it is the `others` table exactly from eight groups on |
| Query.Abbrev | shuangpin/dictionary.cpp:621-623 | the abbreviation holds every other key, starting with the first |
| Query.AbbrevCount | shuangpin/dictionary.cpp:811-822 | counts single-key groups: none exactly when all groups are pairs, all exactly when all are single keys |
| Query.BuildSql | shuangpin/dictionary.cpp:805-869 | with no single-key group the query is by exact key. With only single-key groups nothing is asked. With exactly one single-key group among pairs it is a key range from `a` to `z` at that position. Otherwise it is by abbreviation, and only then does it ask for filtering. The table depends on the first key and the group count |
| Text.FilterCounts | shuangpin/dictionary.cpp:605-610 | filtering keeps each element that passes the test exactly as many times as it occurs in the input, and drops every other element |
| Query.FilterKeyValueList | shuangpin/dictionary.cpp:586-612 | keeps, in order, exactly the rows whose key matches the groups, each matching row as often as it occurs in the input |
| Query.PatternMatchesGroups | shuangpin/dictionary.cpp:592-604 | the built pattern (pairs literally, a single key followed by any lower-case letter) matches a key exactly when the key is the groups with one letter added after each single key |
| Query.RangeCoversMatches | shuangpin/dictionary.cpp:836-858 | with at most one single-key group, every key matching the groups lies inside the key range of that branch |
| Query.RangeOrdered | shuangpin/dictionary.cpp:836-858 | the lower bound of the range query (every single key followed by `a`) never sorts after the upper bound (followed by `z`) |
| Query.RangeBoundOfFull | shuangpin/dictionary.cpp:836-858 | with only full pairs, both range bounds are the matching key itself |
| Query.MatchingKeyAbbrev | shuangpin/dictionary.cpp:859-866 | every key matching the groups has as abbreviation the groups' first letters, the abbreviation the last branch asks for |
| HelpFilter.TierList | shuangpin/dictionary.cpp:224-309 | a tier keeps, in order, exactly the candidates ranked into it |
| HelpFilter.TierMeaning | shuangpin/dictionary.cpp:238-285 | a single character ranks first when its code starts with the help letter. It ranks second when only its second code letter matches. Without a code it ranks last. A longer word ranks first on its first character's code, and second on its last character's code when the first does not match |
| HelpFilter.TiersPartition | shuangpin/dictionary.cpp:286-300 | the three tiers together hold every candidate exactly as often as the input |
| HelpFilter.SplitTiers | shuangpin/dictionary.cpp:234-290 | the single pass over the candidates produces the three tiers |
| HelpFilter.FilterDouble | shuangpin/dictionary.cpp:325-363 | keeps, in order, exactly the candidates whose codes match both help letters, each as often as it occurs in the input |
| HelpFilter.DoubleMatchesWholeCode | shuangpin/dictionary.cpp:337-346 | a single character with a two-letter code survives two help letters exactly when its code is those letters |
| Engine.Init | shuangpin/dictionary.cpp:56-58 | a fresh engine is well formed, has typed nothing and has four empty caches |
| Engine.Fetch | shuangpin/dictionary.cpp:114-126 | the uncached lookup of `generate`: the segmentation is split at `'` and `build_sql` picks the query; the empty query yields no rows, a key or key-range query yields the store's rows unchanged, and an abbreviation query yields, in store order, exactly those of its rows whose key matches the groups, each as often as the store returns it (`filter_key_value_list`) |
| Engine.Generate | shuangpin/dictionary.cpp:89-131 | no keys give nothing and one key gives its bucket, without touching the cache. Two or more keys give the cached list when there is one; otherwise they give the store's answer, and the list is then cached under the keys. Only that entry can change |
| Engine.OracleItem | shuangpin/dictionary.cpp:172-179 | one predicted sentence at most, present exactly when the predictor answers the full pinyin of the segmentation, keyed by the owner with weight 1 |
| Engine.SeriesTail | shuangpin/dictionary.cpp:184-200 | the truncation loop touches only the plain cache and adds nothing for a segmentation of one group |
| Engine.GenerateSeries | shuangpin/dictionary.cpp:140-206 | no keys give nothing and one key gives its bucket. A cached series is returned unchanged. Otherwise the new series is cached under the keys, only the plain and series caches change, and no other series entry changes |
| Engine.FilterWithSingleHelpcode | shuangpin/dictionary.cpp:224-309 | no candidates give nothing. Otherwise the result is the first tier, then the second tier, then the series of the whole typed sequence, then the rest |
| Engine.GenerateWithHelpcodes | shuangpin/dictionary.cpp:376-424 | a cached list for the typed sequence is returned as is. Otherwise the computed list is cached in the cache of its help-code count. One help letter gives the three-tier filter (`filter_with_single_helpcode`) of the series of the pure keys, two give the strict two-letter filter of that series, and only counts other than one or two give nothing |
| Engine.HelpCount | shuangpin/dictionary.cpp:521-566 | two help letters exactly in full help mode; one exactly for an odd sequence longer than one key whose pure part is all complete |
| Engine.Settle | shuangpin/dictionary.cpp:515-581 | the mode flags follow the typed case sequence: help position two before the end in full help mode and zero otherwise. The segmentation is that of the typed keys. The keys, candidates and caches are unchanged |
| Engine.SettleSplitsHelpCodes | shuangpin/dictionary.cpp:518-560 | full help mode splits off the last two keys as help codes; an odd sequence drops its last key from the pure part, and that key is the help code when the rest is complete; an even sequence is all pure |
| Engine.Recompute | shuangpin/dictionary.cpp:515-583 | a recomputation changes only the candidates and caches beyond settling the mode |
| Engine.ResetState | shuangpin/dictionary.cpp:944-955 | clears the typed keys, the candidates and the help mode, and leaves the segmentation, help codes and caches |
| Engine.ResetCache | shuangpin/dictionary.cpp:957-963 | empties all four caches and changes nothing else |
| Engine.HandleVkCode | shuangpin/dictionary.cpp:476-584 | every key keeps the engine well formed and returns 0 |
| Engine.TypeKey | shuangpin/dictionary.cpp:478-508 | a letter key appends its lower-case letter, and also its typed case, which is upper case exactly when bit 0 of the modifier mask is set. Backspace drops the last key of both sequences. Any other key changes nothing |
| Engine.HandleVkCodeRecomputes | shuangpin/dictionary.cpp:476-584 | after a letter, backspace or unknown key, the typed keys are those of the key step and the segmentation is the segmentation of the typed keys |
| Engine.HandleVkCodeEarlyReturn | shuangpin/dictionary.cpp:489-500 | return, shift and escape reset the state; space, digits and tab change nothing |
| Engine.VkCodeToChar | shuangpin/dictionary.cpp:426-447 | letters give their lower case, digits themselves, space, tab and return their characters, and every other key gives "" |
| Engine.WithCasesFrom | shuangpin/dictionary.cpp:987-1006 | the case-restoring loop emits at most one character per character of the segmentation (a letter matching neither case of the typed letter emits nothing) |
| Engine.SegmentationWithCases | shuangpin/dictionary.cpp:979-1009 | on a well-formed engine whose segmentation is that of its keys, the result has the segmentation's length and quote positions, and without quotes it is the typed case sequence |
| Engine.WithCasesFromShape | shuangpin/dictionary.cpp:987-1006 | the case-restoring loop keeps every quote where it was and puts back the typed case of each letter |
| Engine.SegmentationWithCasesShape | shuangpin/dictionary.cpp:979-1009 | the segmentation with cases has the same length and the same quote positions as the segmentation, and without quotes it is the typed case sequence |
| Coherence.Lookup | shuangpin/dictionary.cpp:89-131 | the uncached `generate`: one key spells out its bucket; two or more keys give the store's answer for the keys under their own segmentation |
| Coherence.SeriesSpec | shuangpin/dictionary.cpp:140-206 | the uncached series of up to one key is its lookup |
| Coherence.SingleSpec | shuangpin/dictionary.cpp:224-309 | the uncached one-letter help list is empty when the series of the pure keys is |
| Coherence.DoubleSpec | shuangpin/dictionary.cpp:325-363 | the uncached two-letter help list is a subsequence of the series of the pure keys |
| Coherence.EmptyCoherent | shuangpin/dictionary.cpp:957-963 | empty caches agree with any store |
| Coherence.GenerateLooksUp | shuangpin/dictionary.cpp:89-131 | with coherent caches, `generate` returns the uncached lookup and leaves the caches coherent |
| Coherence.SeriesTailLooksUp | shuangpin/dictionary.cpp:184-200 | with coherent caches, the truncation loop returns the lookups of every proper prefix of the groups, longest first |
| Coherence.GenerateSeriesLooksUp | shuangpin/dictionary.cpp:140-206 | with coherent caches, `generateSeries` returns the uncached series for some owner of the predicted sentence (the given one when nothing was cached) and leaves the caches coherent |
| Coherence.SeriesCandidatesLookUp | shuangpin/dictionary.cpp:568-578 | the plain-mode list is explained by an uncached series; with empty caches it is the uncached series owned by the typed keys |
| Coherence.SingleHelpLooksUp | shuangpin/dictionary.cpp:376-424 | the one-letter help list is explained by the uncached help list and keeps the caches coherent; with empty caches it is the uncached list owned by the typed keys |
| Coherence.DoubleHelpLooksUp | shuangpin/dictionary.cpp:376-424 | the same for the two-letter help list |
| Coherence.RecomputeLooksUp | shuangpin/dictionary.cpp:515-583 | a recomputation shows the uncached list for the typed keys and their help-letter count, and keeps the caches coherent |
| Coherence.HandleVkCodeLooksUp | shuangpin/dictionary.cpp:476-584 | every key keeps the caches coherent; a recomputing key shows the uncached list for the new typed keys, exactly the one owned by them when the caches were empty |
| Coherence.ResetCacheFresh | shuangpin/dictionary.cpp:957-963 | after `reset_cache` the caches are empty and agree with any store |
| Coherence.Run | shuangpin/dictionary.cpp:476-584 | a run of keys from a fresh engine keeps it well formed, and no keys leave it fresh |
| Coherence.RunLooksUp | shuangpin/dictionary.cpp:476-584 | after any run of keys the caches agree with the store, and when the last key recomputes, the candidates shown are the uncached list of the typed keys |
| Mutation.DoValidate | shuangpin/dictionary.cpp:912-917 | validation holds exactly when the key is twice as long as the abbreviation and twice the word's character count; the evenness test is implied by these |
| Mutation.ValidateAbbrev | shuangpin/dictionary.cpp:912-917 | with the abbreviation taken from the key, validation holds exactly when the key has two keys per character of the word |
| Mutation.CreateWord | shuangpin/dictionary.cpp:619-634 | `ErrorCode` exactly when the key is not two keys per character, and then nothing happens. A word already present gives `Ok` and nothing happens. Otherwise the row is inserted into the table of its first key and length with weight 10000 and its abbreviation, and all caches are emptied |
| Mutation.CreatedWordFound | shuangpin/dictionary.cpp:619-634 | a created word is where lookups look: when its key is cut into syllable pairs, `build_sql` asks exactly for the table and key it was inserted under |
| Mutation.CreateWordIdempotent | shuangpin/dictionary.cpp:625-628 | once the store holds the new row, creating the word again is `Ok` and changes and writes nothing |
| Mutation.CreateWordCoherent | shuangpin/dictionary.cpp:630-632 | after an insert the caches agree with whatever the store now answers |
| Mutation.UpdateKey | shuangpin/dictionary.cpp:654-655 | the key of a weight update is the prefix of two keys per character, clamped to the typed keys |
| Mutation.UpdateWeight | shuangpin/dictionary.cpp:652-666 | the status is always `Ok`; a row is promoted exactly when enough keys were typed, and it is the row of the word under the cut key in the table of that key |
| Mutation.UpdateTargetsCreatedRow | shuangpin/dictionary.cpp:636-666 | typing on after a created word's keys does not change the row a weight update promotes: it is the row `create_word` inserted |
| Text.SplitJoin | shuangpin/dictionary.cpp:114-115 | splitting groups joined by a separator they do not contain gives the groups back |
| Text.JoinSplit | shuangpin/dictionary.cpp:114-115 | joining the pieces of a split gives the string back; one piece exactly when the separator is absent |
| Text.TruncateJoin | shuangpin/dictionary.cpp:188-191 | cutting a joined segmentation at its last separator leaves the join of all groups but the last |
| Text.RemoveAllJoin | shuangpin/dictionary.cpp:192 | deleting the separators from a join gives the concatenated groups |

## Left out

- The SQLite database, SQL text, `select_complete_data`, `check_data`, `insert_data` and `update_data` are modelled as parameters or `StoreOp` values. The exact SQL strings and the page limit inside them are not modelled.
- The sentence predictor `search_sentence_from_ime_engine` and its decoder are a function parameter. The UTF-16 conversion is not modelled.
- The loading of the tables from files, `get_local_appdata_path`, the logging and `OutputDebugString` are I/O and are left out.
- The commented-out locking is left out.
- `count_utf8_chars`, `get_first_han_char`, `get_last_han_char` and `IsFullHelpMode` are uninterpreted. They are declared at pinyin_utils.h:29-40, and their definitions are not part of this model.
- Engine.SegmentationWithCases: after `reset_state` (dictionary.cpp:944-955) the typed case sequence is empty but the segmentation is kept, so a later call of the loop at dictionary.cpp:994-1003 indexes past `size()`, which is undefined behaviour. The model reads `'\0'` there (`CharAt`) and its contract promises nothing for that state.
- `_kb_input_sequence`, `_help_codes_sequence`, `_cur_page_candidate_list` and `VkSequenceToString` only record keys for other parts of the program. They are not modelled.
- `generate_for_creating_word` and `build_sql_for_creating_word` are not modelled. They serve the word-creation dialog, which is outside the engine.
- The member wrappers `is_all_complete_pinyin` and `is_all_complete_pure_pinyin` (dictionary.cpp:965-977) only call the modelled `Segmentation.IsAllComplete`.
- FifoCache.Empty: capacity 0 is excluded. Inserting into such a buffer pops an empty `std::list`, which is undefined behaviour.
- Engine.Generate: a single non-letter key is undefined behaviour in the source, because `single_han_list` is indexed out of range. `Coherence.Lookup` gives it no candidates, and the engine never produces such a key.
- Engine.HandleVkCode: it requires that full help mode is only reported for at least two typed keys (`FullHelpNeedsTwo`). Otherwise the source's `substr` throws.
- Query.FilterKeyValueList: the groups are matched as letters. Regular-expression metacharacters in a key are not modelled, because keys are lower-case letters.
- Scheme.Cvt: which final wins when two finals on the same key both make a valid syllable depends on hash-map iteration order. It is a `Config` field (`finalsOrder`), so the contract states that the last valid final in that order is chosen, but the model does not fix the order itself.
- Scheme.ConvertSegmentation: it assumes that no syllable of the syllable set contains `'` (`LetterSyllables`), which holds for the real table; the quote-freeness of the expansion depends on the table contents.
- Mutation.UpdateWeight: "raise above the heaviest row of the key" is a `StoreOp` value. The store's arithmetic on weights is not modelled.
