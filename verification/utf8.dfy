/** Cutting a UTF-8 byte string into characters (`get_first_char_size`,
    `get_last_char_size` and `cnt_han_chars` in pinyin_utils.cpp).

    Only the lead byte is examined; continuation bytes are never checked, and
    a lead byte that announces more bytes than remain counts as a character
    of one byte. */
module Utf8 {
  import opened Text

  /** The byte a character of a byte string carries. */
  function ByteOf(c: char): (b: nat)
    ensures b < 256
  {
    (c as int) % 256
  }

  /** Bytes announced by a lead byte: the source's mask tests
      `b & 0xf8 == 0xf0` (four), `b & 0xf0 == 0xe0` (three) and
      `b & 0xe0 == 0xc0` (two) select the ranges below (see `MaskRanges`).
      Anything else (ASCII, a continuation byte, 11111xxx) announces one
      byte. */
  function LeadSize(c: char): (n: nat)
    ensures 1 <= n <= 4
  {
    var b := ByteOf(c);
    if 0xf0 <= b <= 0xf7 then 4
    else if 0xe0 <= b <= 0xef then 3
    else if 0xc0 <= b <= 0xdf then 2
    else 1
  }

  /** The mask tests of `get_first_char_size` select exactly the ranges of
      `LeadSize`. */
  lemma {:induction false} MaskRanges(b: bv8)
    ensures b & 0xf8 == 0xf0 <==> 0xf0 <= b <= 0xf7
    ensures b & 0xf0 == 0xe0 <==> 0xe0 <= b <= 0xef
    ensures b & 0xe0 == 0xc0 <==> 0xc0 <= b <= 0xdf
  {
  }

  /** `get_first_char_size`: the lead byte's announcement, or one when fewer
      bytes remain. The empty string reads its terminating NUL: size one. */
  function FirstCharSize(w: string): (n: nat)
    ensures 1 <= n <= 4
    ensures |w| > 0 ==> n <= |w|
    ensures LeadSize(CharAt(w, 0)) <= |w| ==> n == LeadSize(CharAt(w, 0))
  {
    var n := LeadSize(CharAt(w, 0));
    if n > |w| then 1 else n
  }

  /** The characters of `w`, as the loops of the source cut them. */
  function Chars(w: string): (cs: seq<string>)
    ensures forall i :: 0 <= i < |cs| ==> 1 <= |cs[i]| <= 4
    ensures |cs| <= |w|
    ensures |cs| == 0 <==> |w| == 0
    decreases |w|
  {
    if |w| == 0 then []
    else
      var n := FirstCharSize(w);
      [w[..n]] + Chars(w[n..])
  }

  /** The characters cut `w` into consecutive pieces. */
  lemma {:induction false} CharsConcat(w: string)
    ensures Concat(Chars(w)) == w
    decreases |w|
  {
    if |w| > 0 {
      var n := FirstCharSize(w);
      CharsConcat(w[n..]);
      assert Chars(w)[1..] == Chars(w[n..]);
      assert w == w[..n] + w[n..];
    }
  }

  /** The number of characters of `w`. */
  function CharCount(w: string): nat
  {
    |Chars(w)|
  }

  /** A string of one complete character: its lead byte announces its length. */
  predicate WholeChar(c: string)
  {
    |c| > 0 && LeadSize(c[0]) == |c|
  }

  /** Cutting a concatenation of complete characters gives them back. */
  lemma {:induction false} CharsOfWholeChars(cs: seq<string>)
    requires forall i :: 0 <= i < |cs| ==> WholeChar(cs[i])
    ensures Chars(Concat(cs)) == cs
  {
    if |cs| > 0 {
      var w := Concat(cs);
      var c := cs[0];
      assert w == c + Concat(cs[1..]);
      assert CharAt(w, 0) == c[0];
      assert FirstCharSize(w) == |c|;
      assert w[..|c|] == c && w[|c|..] == Concat(cs[1..]);
      CharsOfWholeChars(cs[1..]);
    }
  }

  /** Counting characters: at most one per byte, none only for the empty
      string, and exactly one per byte for ASCII text. */
  lemma {:induction false} CharCountBounds(w: string)
    ensures CharCount(w) <= |w|
    ensures CharCount(w) == 0 <==> |w| == 0
    ensures (forall i :: 0 <= i < |w| ==> (w[i] as int) % 256 < 0x80) ==> CharCount(w) == |w|
    decreases |w|
  {
    if |w| > 0 && forall i :: 0 <= i < |w| ==> (w[i] as int) % 256 < 0x80 {
      assert FirstCharSize(w) == 1;
      assert forall i :: 0 <= i < |w[1..]| ==> (w[1..][i] as int) % 256 < 0x80 by {
        forall i | 0 <= i < |w[1..]|
          ensures (w[1..][i] as int) % 256 < 0x80
        {
          assert w[1..][i] == w[i + 1];
        }
      }
      CharCountBounds(w[1..]);
      assert Chars(w)[1..] == Chars(w[1..]);
    }
  }

  /** One step of the loops: the character at `index` and the rest. */
  lemma {:induction false} CharsStep(w: string, index: nat)
    requires index < |w|
    ensures var n := FirstCharSize(w[index..]);
            index + n <= |w| && Chars(w[index..]) == [w[index..index + n]] + Chars(w[index + n..])
  {
    var rest := w[index..];
    var n := FirstCharSize(rest);
    assert rest[..n] == w[index..index + n] && rest[n..] == w[index + n..];
  }

  /** The loop of `cnt_han_chars`. */
  method CntHanChars(w: string) returns (cnt: nat)
    ensures cnt == CharCount(w)
  {
    var index := 0;
    cnt := 0;
    while index < |w|
      invariant 0 <= index <= |w|
      invariant cnt + CharCount(w[index..]) == CharCount(w)
      decreases |w| - index
    {
      var cplen := FirstCharSize(w[index..]);
      CharsStep(w, index);
      index := index + cplen;
      cnt := cnt + 1;
    }
    assert w[index..] == [];
  }

  /** The byte length of the last character, zero for the empty string. */
  function LastCharSize(w: string): (n: nat)
    ensures |w| == 0 ==> n == 0
    ensures |w| > 0 ==> n == |Chars(w)[|Chars(w)| - 1]|
    decreases |w|
  {
    if |w| == 0 then 0
    else
      var k := FirstCharSize(w);
      assert Chars(w) == [w[..k]] + Chars(w[k..]);
      if k == |w| then k else LastCharSize(w[k..])
  }

  /** What the loop of `get_last_char_size` knows: before the end, the last
      character of the string is that of the rest; at the end, it is the one
      the loop stepped over last. */
  ghost predicate LastSoFar(w: string, prevIndex: nat, index: nat)
    requires index <= |w|
  {
    && (index < |w| ==> LastCharSize(w) == LastCharSize(w[index..]))
    && (index == |w| > 0 ==> LastCharSize(w) == index - prevIndex)
  }

  /** The loop of `get_last_char_size`: it steps from character to character
      and reports the length of the last one it stepped over. */
  method GetLastCharSize(w: string) returns (n: nat)
    ensures n == LastCharSize(w)
  {
    var prevIndex := 0;
    var index := 0;
    assert w[index..] == w;
    while index < |w|
      invariant 0 <= prevIndex <= index <= |w|
      invariant LastSoFar(w, prevIndex, index)
      decreases |w| - index
    {
      var cplen := FirstCharSize(w[index..]);
      LastCharSizeStep(w, index);
      assert w[index..][cplen..] == w[index + cplen..];
      prevIndex := index;
      index := index + cplen;
    }
    n := |w| - prevIndex;
    assert |w| == 0 ==> n == 0;
  }

  /** One step of the loop of `get_last_char_size`: the last character of
      the rest is the last character of what follows the current one, or
      the current one when nothing follows. */
  lemma {:induction false} LastCharSizeStep(w: string, index: nat)
    requires index < |w|
    ensures var k := FirstCharSize(w[index..]);
            && index + k <= |w|
            && (index + k < |w| ==> LastCharSize(w[index..]) == LastCharSize(w[index + k..]))
            && (index + k == |w| ==> LastCharSize(w[index..]) == k)
  {
    var k := FirstCharSize(w[index..]);
    assert w[index..][k..] == w[index + k..];
  }
}
