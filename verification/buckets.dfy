/** The candidates of a single typed key (`single_han_list` and
    `generate_for_single_char` in dictionary.cpp): ten common characters per
    letter, cut from a UTF-8 string, each offered with the typed key and
    weight 1. The dictionary is never consulted and nothing is cached. */
module Buckets {
  import opened Text
  import opened Utf8
  import opened Query

  /** `single_han_list`, one row per letter 'a'..'z', each character as its
      UTF-8 bytes. A row may repeat a character. */
  const SingleHan: seq<seq<string>> := SingleHanAToG + SingleHanHToN + SingleHanOToU + SingleHanVToZ

  const SingleHanAToG: seq<seq<string>> := [
    // a: 啊按爱安暗阿案艾傲奥
    ["\U{e5}\U{95}\U{8a}", "\U{e6}\U{8c}\U{89}", "\U{e7}\U{88}\U{b1}", "\U{e5}\U{ae}\U{89}", "\U{e6}\U{9a}\U{97}", "\U{e9}\U{98}\U{bf}", "\U{e6}\U{a1}\U{88}", "\U{e8}\U{89}\U{be}", "\U{e5}\U{82}\U{b2}", "\U{e5}\U{a5}\U{a5}"],
    // b: 把被不本边吧白别部比
    ["\U{e6}\U{8a}\U{8a}", "\U{e8}\U{a2}\U{ab}", "\U{e4}\U{b8}\U{8d}", "\U{e6}\U{9c}\U{ac}", "\U{e8}\U{be}\U{b9}", "\U{e5}\U{90}\U{a7}", "\U{e7}\U{99}\U{bd}", "\U{e5}\U{88}\U{ab}", "\U{e9}\U{83}\U{a8}", "\U{e6}\U{af}\U{94}"],
    // c: 从才此次错曾存草刺层
    ["\U{e4}\U{bb}\U{8e}", "\U{e6}\U{89}\U{8d}", "\U{e6}\U{ad}\U{a4}", "\U{e6}\U{ac}\U{a1}", "\U{e9}\U{94}\U{99}", "\U{e6}\U{9b}\U{be}", "\U{e5}\U{ad}\U{98}", "\U{e8}\U{8d}\U{89}", "\U{e5}\U{88}\U{ba}", "\U{e5}\U{b1}\U{82}"],
    // d: 的到大地地但得得对多
    ["\U{e7}\U{9a}\U{84}", "\U{e5}\U{88}\U{b0}", "\U{e5}\U{a4}\U{a7}", "\U{e5}\U{9c}\U{b0}", "\U{e5}\U{9c}\U{b0}", "\U{e4}\U{bd}\U{86}", "\U{e5}\U{be}\U{97}", "\U{e5}\U{be}\U{97}", "\U{e5}\U{af}\U{b9}", "\U{e5}\U{a4}\U{9a}"],
    // e: 嗯嗯而儿二尔饿呃恶耳
    ["\U{e5}\U{97}\U{af}", "\U{e5}\U{97}\U{af}", "\U{e8}\U{80}\U{8c}", "\U{e5}\U{84}\U{bf}", "\U{e4}\U{ba}\U{8c}", "\U{e5}\U{b0}\U{94}", "\U{e9}\U{a5}\U{bf}", "\U{e5}\U{91}\U{83}", "\U{e6}\U{81}\U{b6}", "\U{e8}\U{80}\U{b3}"],
    // f: 放发法分风飞反非服房
    ["\U{e6}\U{94}\U{be}", "\U{e5}\U{8f}\U{91}", "\U{e6}\U{b3}\U{95}", "\U{e5}\U{88}\U{86}", "\U{e9}\U{a3}\U{8e}", "\U{e9}\U{a3}\U{9e}", "\U{e5}\U{8f}\U{8d}", "\U{e9}\U{9d}\U{9e}", "\U{e6}\U{9c}\U{8d}", "\U{e6}\U{88}\U{bf}"],
    // g: 个过国给高感光果公更
    ["\U{e4}\U{b8}\U{aa}", "\U{e8}\U{bf}\U{87}", "\U{e5}\U{9b}\U{bd}", "\U{e7}\U{bb}\U{99}", "\U{e9}\U{ab}\U{98}", "\U{e6}\U{84}\U{9f}", "\U{e5}\U{85}\U{89}", "\U{e6}\U{9e}\U{9c}", "\U{e5}\U{85}\U{ac}", "\U{e6}\U{9b}\U{b4}"]
  ]

  const SingleHanHToN: seq<seq<string>> := [
    // h: 或好会还后和很话回行
    ["\U{e6}\U{88}\U{96}", "\U{e5}\U{a5}\U{bd}", "\U{e4}\U{bc}\U{9a}", "\U{e8}\U{bf}\U{98}", "\U{e5}\U{90}\U{8e}", "\U{e5}\U{92}\U{8c}", "\U{e5}\U{be}\U{88}", "\U{e8}\U{af}\U{9d}", "\U{e5}\U{9b}\U{9e}", "\U{e8}\U{a1}\U{8c}"],
    // i: 成长出处常吃场车城传
    ["\U{e6}\U{88}\U{90}", "\U{e9}\U{95}\U{bf}", "\U{e5}\U{87}\U{ba}", "\U{e5}\U{a4}\U{84}", "\U{e5}\U{b8}\U{b8}", "\U{e5}\U{90}\U{83}", "\U{e5}\U{9c}\U{ba}", "\U{e8}\U{bd}\U{a6}", "\U{e5}\U{9f}\U{8e}", "\U{e4}\U{bc}\U{a0}"],
    // j: 就级集家经见间几进将
    ["\U{e5}\U{b0}\U{b1}", "\U{e7}\U{ba}\U{a7}", "\U{e9}\U{9b}\U{86}", "\U{e5}\U{ae}\U{b6}", "\U{e7}\U{bb}\U{8f}", "\U{e8}\U{a7}\U{81}", "\U{e9}\U{97}\U{b4}", "\U{e5}\U{87}\U{a0}", "\U{e8}\U{bf}\U{9b}", "\U{e5}\U{b0}\U{86}"],
    // k: 看开口快空可刻苦克客
    ["\U{e7}\U{9c}\U{8b}", "\U{e5}\U{bc}\U{80}", "\U{e5}\U{8f}\U{a3}", "\U{e5}\U{bf}\U{ab}", "\U{e7}\U{a9}\U{ba}", "\U{e5}\U{8f}\U{af}", "\U{e5}\U{88}\U{bb}", "\U{e8}\U{8b}\U{a6}", "\U{e5}\U{85}\U{8b}", "\U{e5}\U{ae}\U{a2}"],
    // l: 来里老啦了两力连理脸
    ["\U{e6}\U{9d}\U{a5}", "\U{e9}\U{87}\U{8c}", "\U{e8}\U{80}\U{81}", "\U{e5}\U{95}\U{a6}", "\U{e4}\U{ba}\U{86}", "\U{e4}\U{b8}\U{a4}", "\U{e5}\U{8a}\U{9b}", "\U{e8}\U{bf}\U{9e}", "\U{e7}\U{90}\U{86}", "\U{e8}\U{84}\U{b8}"],
    // m: 吗没面明门名马美命目
    ["\U{e5}\U{90}\U{97}", "\U{e6}\U{b2}\U{a1}", "\U{e9}\U{9d}\U{a2}", "\U{e6}\U{98}\U{8e}", "\U{e9}\U{97}\U{a8}", "\U{e5}\U{90}\U{8d}", "\U{e9}\U{a9}\U{ac}", "\U{e7}\U{be}\U{8e}", "\U{e5}\U{91}\U{bd}", "\U{e7}\U{9b}\U{ae}"],
    // n: 那年女难内你男哪拿南
    ["\U{e9}\U{82}\U{a3}", "\U{e5}\U{b9}\U{b4}", "\U{e5}\U{a5}\U{b3}", "\U{e9}\U{9a}\U{be}", "\U{e5}\U{86}\U{85}", "\U{e4}\U{bd}\U{a0}", "\U{e7}\U{94}\U{b7}", "\U{e5}\U{93}\U{aa}", "\U{e6}\U{8b}\U{bf}", "\U{e5}\U{8d}\U{97}"]
  ]

  const SingleHanOToU: seq<seq<string>> := [
    // o: 哦噢欧偶呕殴鸥藕区怄
    ["\U{e5}\U{93}\U{a6}", "\U{e5}\U{99}\U{a2}", "\U{e6}\U{ac}\U{a7}", "\U{e5}\U{81}\U{b6}", "\U{e5}\U{91}\U{95}", "\U{e6}\U{ae}\U{b4}", "\U{e9}\U{b8}\U{a5}", "\U{e8}\U{97}\U{95}", "\U{e5}\U{8c}\U{ba}", "\U{e6}\U{80}\U{84}"],
    // p: 平怕片跑破旁朋品派皮
    ["\U{e5}\U{b9}\U{b3}", "\U{e6}\U{80}\U{95}", "\U{e7}\U{89}\U{87}", "\U{e8}\U{b7}\U{91}", "\U{e7}\U{a0}\U{b4}", "\U{e6}\U{97}\U{81}", "\U{e6}\U{9c}\U{8b}", "\U{e5}\U{93}\U{81}", "\U{e6}\U{b4}\U{be}", "\U{e7}\U{9a}\U{ae}"],
    // q: 请去起前气其却全轻清
    ["\U{e8}\U{af}\U{b7}", "\U{e5}\U{8e}\U{bb}", "\U{e8}\U{b5}\U{b7}", "\U{e5}\U{89}\U{8d}", "\U{e6}\U{b0}\U{94}", "\U{e5}\U{85}\U{b6}", "\U{e5}\U{8d}\U{b4}", "\U{e5}\U{85}\U{a8}", "\U{e8}\U{bd}\U{bb}", "\U{e6}\U{b8}\U{85}"],
    // r: 人然如让日入任认容若
    ["\U{e4}\U{ba}\U{ba}", "\U{e7}\U{84}\U{b6}", "\U{e5}\U{a6}\U{82}", "\U{e8}\U{ae}\U{a9}", "\U{e6}\U{97}\U{a5}", "\U{e5}\U{85}\U{a5}", "\U{e4}\U{bb}\U{bb}", "\U{e8}\U{ae}\U{a4}", "\U{e5}\U{ae}\U{b9}", "\U{e8}\U{8b}\U{a5}"],
    // s: 所三色死四思算虽似斯
    ["\U{e6}\U{89}\U{80}", "\U{e4}\U{b8}\U{89}", "\U{e8}\U{89}\U{b2}", "\U{e6}\U{ad}\U{bb}", "\U{e5}\U{9b}\U{9b}", "\U{e6}\U{80}\U{9d}", "\U{e7}\U{ae}\U{97}", "\U{e8}\U{99}\U{bd}", "\U{e4}\U{bc}\U{bc}", "\U{e6}\U{96}\U{af}"],
    // t: 他她天头同听太特它通
    ["\U{e4}\U{bb}\U{96}", "\U{e5}\U{a5}\U{b9}", "\U{e5}\U{a4}\U{a9}", "\U{e5}\U{a4}\U{b4}", "\U{e5}\U{90}\U{8c}", "\U{e5}\U{90}\U{ac}", "\U{e5}\U{a4}\U{aa}", "\U{e7}\U{89}\U{b9}", "\U{e5}\U{ae}\U{83}", "\U{e9}\U{80}\U{9a}"],
    // u: 是说上时神深手生事声
    ["\U{e6}\U{98}\U{af}", "\U{e8}\U{af}\U{b4}", "\U{e4}\U{b8}\U{8a}", "\U{e6}\U{97}\U{b6}", "\U{e7}\U{a5}\U{9e}", "\U{e6}\U{b7}\U{b1}", "\U{e6}\U{89}\U{8b}", "\U{e7}\U{94}\U{9f}", "\U{e4}\U{ba}\U{8b}", "\U{e5}\U{a3}\U{b0}"]
  ]

  const SingleHanVToZ: seq<seq<string>> := [
    // v: 这中只知真长正种主住
    ["\U{e8}\U{bf}\U{99}", "\U{e4}\U{b8}\U{ad}", "\U{e5}\U{8f}\U{aa}", "\U{e7}\U{9f}\U{a5}", "\U{e7}\U{9c}\U{9f}", "\U{e9}\U{95}\U{bf}", "\U{e6}\U{ad}\U{a3}", "\U{e7}\U{a7}\U{8d}", "\U{e4}\U{b8}\U{bb}", "\U{e4}\U{bd}\U{8f}"],
    // w: 我为无问外王位文望完
    ["\U{e6}\U{88}\U{91}", "\U{e4}\U{b8}\U{ba}", "\U{e6}\U{97}\U{a0}", "\U{e9}\U{97}\U{ae}", "\U{e5}\U{a4}\U{96}", "\U{e7}\U{8e}\U{8b}", "\U{e4}\U{bd}\U{8d}", "\U{e6}\U{96}\U{87}", "\U{e6}\U{9c}\U{9b}", "\U{e5}\U{ae}\U{8c}"],
    // x: 下小想些笑行向学新相
    ["\U{e4}\U{b8}\U{8b}", "\U{e5}\U{b0}\U{8f}", "\U{e6}\U{83}\U{b3}", "\U{e4}\U{ba}\U{9b}", "\U{e7}\U{ac}\U{91}", "\U{e8}\U{a1}\U{8c}", "\U{e5}\U{90}\U{91}", "\U{e5}\U{ad}\U{a6}", "\U{e6}\U{96}\U{b0}", "\U{e7}\U{9b}\U{b8}"],
    // y: 一有也要以样已又意于
    ["\U{e4}\U{b8}\U{80}", "\U{e6}\U{9c}\U{89}", "\U{e4}\U{b9}\U{9f}", "\U{e8}\U{a6}\U{81}", "\U{e4}\U{bb}\U{a5}", "\U{e6}\U{a0}\U{b7}", "\U{e5}\U{b7}\U{b2}", "\U{e5}\U{8f}\U{88}", "\U{e6}\U{84}\U{8f}", "\U{e4}\U{ba}\U{8e}"],
    // z: 在子自做走再最怎作总
    ["\U{e5}\U{9c}\U{a8}", "\U{e5}\U{ad}\U{90}", "\U{e8}\U{87}\U{aa}", "\U{e5}\U{81}\U{9a}", "\U{e8}\U{b5}\U{b0}", "\U{e5}\U{86}\U{8d}", "\U{e6}\U{9c}\U{80}", "\U{e6}\U{80}\U{8e}", "\U{e4}\U{bd}\U{9c}", "\U{e6}\U{80}\U{bb}"]
  ]

  /** Ten characters of three bytes each. */
  predicate ShapedRow(row: seq<string>)
  {
    |row| == 10 && forall j :: 0 <= j < 10 ==> |row[j]| == 3 && WholeChar(row[j])
  }

  /** Every row of `single_han_list` holds ten complete three-byte
      characters. */
  lemma {:induction false} SingleHanRow(i: nat)
    requires i < 26
    ensures ShapedRow(SingleHan[i])
  {
    if i < 7 {
      BlockAToGShaped(i);
    } else if i < 14 {
      BlockHToNShaped(i - 7);
    } else if i < 21 {
      BlockOToUShaped(i - 14);
    } else {
      BlockVToZShaped(i - 21);
    }
  }

  lemma {:induction false} BlockAToGShaped(i: nat)
    requires i < 7
    ensures i < |SingleHanAToG| && ShapedRow(SingleHanAToG[i])
  {
    RowShaped(SingleHanAToG[i]);
  }

  lemma {:induction false} BlockHToNShaped(i: nat)
    requires i < 7
    ensures i < |SingleHanHToN| && ShapedRow(SingleHanHToN[i])
  {
    RowShaped(SingleHanHToN[i]);
  }

  lemma {:induction false} BlockOToUShaped(i: nat)
    requires i < 7
    ensures i < |SingleHanOToU| && ShapedRow(SingleHanOToU[i])
  {
    RowShaped(SingleHanOToU[i]);
  }

  lemma {:induction false} BlockVToZShaped(i: nat)
    requires i < 5
    ensures i < |SingleHanVToZ| && ShapedRow(SingleHanVToZ[i])
  {
    RowShaped(SingleHanVToZ[i]);
  }

  /** A row of ten three-byte characters led by 1110xxxx bytes is shaped. */
  lemma {:induction false} RowShaped(row: seq<string>)
    requires |row| == 10 && forall j :: 0 <= j < 10 ==> |row[j]| == 3 && '\U{e0}' <= row[j][0] <= '\U{ef}'
    ensures ShapedRow(row)
  {
    forall j | 0 <= j < 10
      ensures WholeChar(row[j])
    {
      ThreeByteChar(row[j]);
    }
  }

  /** A string of three bytes led by 1110xxxx is one complete character. */
  lemma {:induction false} ThreeByteChar(c: string)
    requires |c| == 3 && '\U{e0}' <= c[0] <= '\U{ef}'
    ensures WholeChar(c)
  {
  }

  /** The items of the loop: one per character, keyed by `code`, weight 1. */
  function ItemsOf(code: string, cs: seq<string>): (r: seq<WordItem>)
    ensures |r| == |cs|
    ensures forall i :: 0 <= i < |cs| ==> r[i] == WordItem(code, cs[i], 1)
  {
    if |cs| == 0 then [] else [WordItem(code, cs[0], 1)] + ItemsOf(code, cs[1..])
  }

  /** The row of `table` for the key letter `c`, as one UTF-8 string; a
      missing row reads as empty. */
  function BucketRow(table: seq<seq<string>>, c: char): string
  {
    var i := c as int - 'a' as int;
    if 0 <= i < |table| then Concat(table[i]) else ""
  }

  /** `generate_for_single_char`, over a table of rows: the key's row is cut
      into characters with `get_first_char_size` and each character is
      offered with the typed key and weight 1. */
  function SingleCharCandidates(table: seq<seq<string>>, code: string): (r: seq<WordItem>)
    requires |code| > 0 && IsLower(code[0])
    ensures Concat(Words(r)) == BucketRow(table, code[0])
    ensures forall i :: 0 <= i < |r| ==> r[i].key == code && r[i].weight == 1 && 1 <= |r[i].word| <= 4
  {
    var row := BucketRow(table, code[0]);
    CharsConcat(row);
    WordsOfItems(code, Chars(row));
    ItemsOf(code, Chars(row))
  }

  /** The words of a list of items. */
  function Words(items: seq<WordItem>): (ws: seq<string>)
    ensures |ws| == |items|
    ensures forall i :: 0 <= i < |items| ==> ws[i] == items[i].word
  {
    if |items| == 0 then [] else [items[0].word] + Words(items[1..])
  }

  lemma {:induction false} WordsOfItems(code: string, cs: seq<string>)
    ensures Words(ItemsOf(code, cs)) == cs
  {
  }

  /** For the source's table: a single key yields the ten characters of its
      row, in order, each a single character keyed by the typed key with
      weight 1. */
  lemma {:induction false} SingleHanCandidates(code: string)
    requires |code| > 0 && IsLower(code[0])
    ensures var r := SingleCharCandidates(SingleHan, code);
            && |r| == 10
            && forall i :: 0 <= i < 10 ==>
                 r[i] == WordItem(code, SingleHan[code[0] as int - 'a' as int][i], 1) && CharCount(r[i].word) == 1
  {
    var row := SingleHan[code[0] as int - 'a' as int];
    SingleHanRow(code[0] as int - 'a' as int);
    CharsOfWholeChars(row);
    forall i | 0 <= i < 10
      ensures CharCount(row[i]) == 1
    {
      OneWholeChar(row[i]);
    }
  }

  /** A complete character counts as one. */
  lemma {:induction false} OneWholeChar(c: string)
    requires WholeChar(c)
    ensures Chars(c) == [c]
  {
    CharsOfWholeChars([c]);
    assert [c][1..] == [];
    assert Concat([c]) == c;
  }
}
