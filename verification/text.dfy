/** Rendering of the integers and lists that the error messages interpolate. */
module Text {

  function Digit(d: nat): char
    requires d < 10
  {
    "0123456789"[d]
  }

  /** Decimal digits of a natural number, most significant first. */
  function NatToDecimal(n: nat): string
    decreases n
  {
    if n < 10 then [Digit(n)] else NatToDecimal(n / 10) + [Digit(n % 10)]
  }

  /** Python's `str(n)` (and `f"{n}"`) for an `int`. */
  function IntToDecimal(n: int): string
  {
    if n < 0 then "-" + NatToDecimal(-n) else NatToDecimal(n)
  }

  function ThreeDigits(n: nat): string
    requires n < 1000
  {
    [Digit(n / 100), Digit(n / 10 % 10), Digit(n % 10)]
  }

  function GroupedNat(n: nat): string
    decreases n
  {
    if n < 1000 then NatToDecimal(n) else GroupedNat(n / 1000) + "," + ThreeDigits(n % 1000)
  }

  /** Python's `f"{n:,}"`: decimal digits with a comma between groups of three. */
  function WithThousands(n: int): string
  {
    if n < 0 then "-" + GroupedNat(-n) else GroupedNat(n)
  }

  /** Python's `sep.join(parts)`. */
  function Join(parts: seq<string>, sep: string): string
    decreases |parts|
  {
    if |parts| == 0 then ""
    else if |parts| == 1 then parts[0]
    else parts[0] + sep + Join(parts[1..], sep)
  }

  /** Python's `word in s` for strings: `word` occurs at some position of `s`. */
  ghost predicate Mentions(s: string, word: string)
  {
    exists i :: 0 <= i <= |s| - |word| && OccursAt(s, word, i)
  }

  ghost predicate OccursAt(s: string, word: string, i: int)
    requires 0 <= i <= |s| - |word|
  {
    s[i..i + |word|] == word
  }

  lemma MentionsMiddle(before: string, word: string, after: string)
    ensures Mentions(before + word + after, word)
  {
    var s := before + word + after;
    assert s[|before|..|before| + |word|] == word;
    assert OccursAt(s, word, |before|);
  }

  /** A word mentioned in `s` is still mentioned once text is put in front of `s`. */
  lemma MentionsAfterPrefix(prefix: string, s: string, word: string)
    requires Mentions(s, word)
    ensures Mentions(prefix + s, word)
  {
    var i :| 0 <= i <= |s| - |word| && OccursAt(s, word, i);
    assert (prefix + s)[|prefix| + i..|prefix| + i + |word|] == s[i..i + |word|];
    assert OccursAt(prefix + s, word, |prefix| + i);
  }
}
