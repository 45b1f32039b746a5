/** Help codes shown next to candidates (`compute_helpcodes` and
    `extract_preview` in pinyin_utils.cpp). A help code is a short string
    of letters attached to a Han character; a candidate is displayed as the
    word followed by its codes in parentheses. */
module Helpcodes {
  import opened Text
  import opened Utf8

  const Open: char := '('
  const Close: char := ')'

  /** The first letter of each character's code, or None as soon as one
      character has no code. An empty code contributes nothing
      (`substr(0, 1)` of ""). */
  function FirstLetters(table: map<string, string>, cs: seq<string>): (r: Option<string>)
    ensures r.None? <==> exists i :: 0 <= i < |cs| && cs[i] !in table
    ensures r.Some? ==> |r.value| <= |cs|
  {
    if |cs| == 0 then Some("")
    else if cs[0] !in table then None
    else
      var code := table[cs[0]];
      var head := if |code| == 0 then "" else code[..1];
      match FirstLetters(table, cs[1..])
      case None => None
      case Some(rest) => Some(head + rest)
  }

  /** `compute_helpcodes`: a single character shows its whole code; a longer
      word shows the first letter of each character's code, or nothing when
      one of them has none; a non-empty result is put in parentheses. */
  function ComputeHelpcodes(table: map<string, string>, w: string): (r: string)
    ensures r == "" || (|r| >= 3 && r[0] == Open && r[|r| - 1] == Close)
    ensures CharCount(w) == 1 && w in table && table[w] != "" ==> r == [Open] + table[w] + [Close]
    ensures CharCount(w) == 1 && (w !in table || table[w] == "") ==> r == ""
    ensures CharCount(w) != 1 && (exists i :: 0 <= i < |Chars(w)| && Chars(w)[i] !in table) ==> r == ""
    ensures |w| == 0 ==> r == ""
  {
    var codes :=
      if CharCount(w) == 1 then (if w in table then table[w] else "")
      else match FirstLetters(table, Chars(w)) case None => "" case Some(h) => h;
    if |codes| > 0 then [Open] + codes + [Close] else ""
  }

  /** When every character has a non-empty code, the letters are the first
      letters of the codes, one per character, in order. */
  lemma {:induction false} FirstLettersOfCodes(table: map<string, string>, cs: seq<string>)
    requires forall i :: 0 <= i < |cs| ==> cs[i] in table && table[cs[i]] != ""
    ensures FirstLetters(table, cs).Some?
    ensures var x := FirstLetters(table, cs).value;
            |x| == |cs| && forall i :: 0 <= i < |cs| ==> x[i] == table[cs[i]][0]
  {
    if |cs| > 0 {
      FirstLettersOfCodes(table, cs[1..]);
      var x := FirstLetters(table, cs).value;
      var rest := FirstLetters(table, cs[1..]).value;
      assert x == table[cs[0]][..1] + rest;
      forall i | 0 <= i < |cs|
        ensures x[i] == table[cs[i]][0]
      {
        if i > 0 {
          assert x[i] == rest[i - 1];
          assert cs[1..][i - 1] == cs[i];
        }
      }
    }
  }

  /** A word of several characters, each with a non-empty code, shows one
      letter per character: the first letter of its code. */
  lemma {:induction false} HelpcodesOfWord(table: map<string, string>, w: string)
    requires CharCount(w) >= 2
    requires forall i :: 0 <= i < |Chars(w)| ==> Chars(w)[i] in table && table[Chars(w)[i]] != ""
    ensures var r := ComputeHelpcodes(table, w);
            && |r| == CharCount(w) + 2
            && r[0] == Open && r[|r| - 1] == Close
            && forall i :: 0 <= i < CharCount(w) ==> r[i + 1] == table[Chars(w)[i]][0]
  {
    FirstLettersOfCodes(table, Chars(w));
  }

  /** `extract_preview`: the candidate up to its first opening parenthesis. */
  function ExtractPreview(candidate: string): (r: string)
    ensures r <= candidate
    ensures Open !in r
    ensures r == candidate || candidate[|r|] == Open
  {
    match IndexOf(candidate, Open)
    case None => candidate
    case Some(i) => candidate[..i]
  }

  /** Stripping the help codes off a displayed candidate gives the word back,
      for any word without a parenthesis. */
  lemma {:induction false} PreviewDropsHelpcodes(table: map<string, string>, w: string)
    requires Open !in w
    ensures ExtractPreview(w + ComputeHelpcodes(table, w)) == w
  {
    var h := ComputeHelpcodes(table, w);
    var d := w + h;
    if h != "" {
      assert d[|w|] == Open;
      assert d[..|w|] == w;
    } else {
      assert d == w;
    }
  }
}
