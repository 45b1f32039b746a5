/** Changing the dictionary (dictionary.cpp): `create_word` with its
    validation `do_validate`, and the weight update of
    `build_sql_for_updating_word`. The writes are returned as values of
    `StoreOp` rather than SQL text; the existence check is `Env.contains`. */
module Mutation {
  import opened Text
  import opened Utf8
  import opened Query
  import opened FifoCache
  import opened Engine
  import opened Coherence

  /** The status codes of dictionary.h. */
  const Ok: int := 0
  const ErrorCode: int := -1

  /** The weight of a new word. */
  const DefaultWeight: int := 10000

  /** A write to the dictionary: a new row, or raising a row's weight above
      the heaviest row of its key. */
  datatype StoreOp =
    | InsertWord(table: Table, key: string, jp: string, word: string, weight: int)
    | PromoteWord(table: Table, key: string, word: string)

  /** `do_validate`: an even key, one abbreviation letter per key pair, and
      two keys per character of the word. The evenness test is implied by
      the other two: the key is exactly twice as long as the abbreviation
      and as the word's character count. */
  predicate DoValidate(key: string, jp: string, word: string)
    ensures DoValidate(key, jp, word) <==> |key| == 2 * |jp| && |key| == 2 * CharCount(word)
  {
    |key| % 2 == 0 && |jp| == |key| / 2 && |key| == 2 * CharCount(word)
  }

  /** The validation as the callers use it, with the abbreviation taken from
      the key: it holds exactly when the key has two letters per character. */
  lemma {:induction false} ValidateAbbrev(key: string, word: string)
    ensures DoValidate(key, Abbrev(key), word) <==> |key| == 2 * CharCount(word)
  {
    assert |Abbrev(key)| == (|key| + 1) / 2;
  }

  /** `create_word`: an invalid key and word give `ErrorCode` and no write; a
      row already present gives `Ok` and no write; otherwise the row is
      inserted with the default weight into the table of its length and lead
      key, and all four caches are emptied. */
  function CreateWord(env: Env, e: Engine, pinyin: string, word: string): (r: (Engine, int, Option<StoreOp>))
    requires Wf(e)
    ensures Wf(r.0)
    ensures r.1 == Ok || r.1 == ErrorCode
    ensures r.1 == ErrorCode <==> |pinyin| != 2 * CharCount(word)
    ensures r.1 == ErrorCode ==> r.0 == e && r.2 == None
    ensures r.2 == None ==> r.0 == e
    ensures r.2.Some? <==> r.1 == Ok && !env.contains(ChooseTbl(pinyin, CharCount(word)), pinyin, word)
    ensures r.2.Some? ==>
              && r.2.value == InsertWord(ChooseTbl(pinyin, CharCount(word)), pinyin, Abbrev(pinyin), word, DefaultWeight)
              && r.0 == e.(caches := r.0.caches)
              && Fresh(r.0.caches) && r.0.caches.plain.entries == map[]
  {
    var jp := Abbrev(pinyin);
    ValidateAbbrev(pinyin, word);
    if !DoValidate(pinyin, jp, word) then (e, ErrorCode, None)
    else
      var table := ChooseTbl(pinyin, |jp|);
      if env.contains(table, pinyin, word) then (e, Ok, None)
      else (ResetCache(e), Ok, Some(InsertWord(table, pinyin, jp, word, DefaultWeight)))
  }

  /** Groups of two keys each make a key of twice their number. */
  lemma {:induction false} PairsLength(gs: seq<string>)
    requires forall i :: 0 <= i < |gs| ==> |gs[i]| == 2
    ensures |Concat(gs)| == 2 * |gs|
  {
    if |gs| > 0 {
      PairsLength(gs[1..]);
    }
  }

  /** A created word is where lookups look: when its key is cut into full
      syllables, `build_sql` queries exactly the table and key the word was
      inserted under. */
  lemma {:induction false} CreatedWordFound(env: Env, e: Engine, pinyin: string, word: string, gs: seq<string>)
    requires Wf(e)
    requires CreateWord(env, e, pinyin, word).2.Some?
    requires Concat(gs) == pinyin && forall i :: 0 <= i < |gs| ==> |gs[i]| == 2
    ensures var op := CreateWord(env, e, pinyin, word).2.value;
            BuildSql(pinyin, gs).0 == ByKey(op.table, op.key)
  {
    PairsLength(gs);
  }

  /** Once the store holds the new row, creating the same word again changes
      nothing and writes nothing. */
  lemma {:induction false} CreateWordIdempotent(env: Env, env2: Env, e: Engine, pinyin: string, word: string)
    requires Wf(e)
    requires CreateWord(env, e, pinyin, word).2.Some?
    requires var op := CreateWord(env, e, pinyin, word).2.value;
             env2.contains(op.table, op.key, op.word)
    ensures var e2 := CreateWord(env, e, pinyin, word).0;
            CreateWord(env2, e2, pinyin, word) == (e2, Ok, None)
  {
  }

  /** After a word is inserted the caches hold nothing, so they agree with
      whatever the store now returns. */
  lemma {:induction false} CreateWordCoherent(env: Env, after: Env, e: Engine, pinyin: string, word: string)
    requires Wf(e)
    requires CreateWord(env, e, pinyin, word).2.Some?
    ensures Coherent(after, CreateWord(env, e, pinyin, word).0.caches)
  {
    EmptyCoherent(after, CreateWord(env, e, pinyin, word).0.caches);
  }

  /** The key a weight update is about: the first two letters per character
      of the word, or all of `pinyin` when it is shorter (`substr` clamps). */
  function UpdateKey(pinyin: string, word: string): (key: string)
    ensures key <= pinyin
    ensures |key| == if |pinyin| < 2 * CharCount(word) then |pinyin| else 2 * CharCount(word)
  {
    pinyin[..if |pinyin| < 2 * CharCount(word) then |pinyin| else 2 * CharCount(word)]
  }

  /** `update_weight_by_pinyin_and_word` and `update_weight_by_word` (the
      latter passes the typed sequence `GlobalIME::pinyin`): the key is cut to
      two letters per character; an invalid key gives the empty SQL text,
      which writes nothing. Either way the status is `Ok`, and the caches are
      left as they are. */
  function UpdateWeight(pinyin: string, word: string): (r: (int, Option<StoreOp>))
    ensures r.0 == Ok
    ensures r.1.Some? <==> |pinyin| >= 2 * CharCount(word)
    ensures r.1.Some? ==>
              var key := pinyin[..2 * CharCount(word)];
              r.1.value == PromoteWord(ChooseTbl(key, CharCount(word)), key, word)
  {
    var key := UpdateKey(pinyin, word);
    var jp := Abbrev(key);
    ValidateAbbrev(key, word);
    if !DoValidate(key, jp, word) then (Ok, None)
    else (Ok, Some(PromoteWord(ChooseTbl(key, |jp|), key, word)))
  }

  /** Typing on after a word's keys does not change the row a weight update
      promotes, and that row is the one `create_word` inserts. */
  lemma {:induction false} UpdateTargetsCreatedRow(env: Env, e: Engine, pinyin: string, more: string, word: string)
    requires Wf(e)
    requires CreateWord(env, e, pinyin, word).2.Some?
    ensures var ins := CreateWord(env, e, pinyin, word).2.value;
            var up := UpdateWeight(pinyin + more, word).1;
            up.Some? && up.value.table == ins.table && up.value.key == ins.key && up.value.word == ins.word
  {
    var n := CharCount(word);
    assert (pinyin + more)[..2 * n] == pinyin;
  }
}
