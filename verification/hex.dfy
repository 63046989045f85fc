/**
 * The hexadecimal colour generator: six digit draws in [0, 16) become
 * "#" followed by six characters of the alphabet 0123456789ABCDEF.
 */
module HexColor {
  import opened Wrappers

  /** The `letters` alphabet of the generator (upper case only). */
  const Letters: string := "0123456789ABCDEF"

  /** Number of random digit draws one hex colour consumes. */
  const HexDigitCount: nat := 6

  predicate IsDigitDraws(digits: seq<nat>) {
    |digits| == HexDigitCount && forall i :: 0 <= i < |digits| ==> digits[i] < |Letters|
  }

  /** The shape every generated hex colour has: `#` and six characters of `Letters`. */
  predicate IsHexColor(t: string) {
    |t| == 1 + HexDigitCount && t[0] == '#' && forall i :: 1 <= i < |t| ==> t[i] in Letters
  }

  /** The colour text produced from the six digit draws, in draw order. */
  function HexText(digits: seq<nat>): string
    requires IsDigitDraws(digits)
  {
    "#" + seq(HexDigitCount, i requires 0 <= i < HexDigitCount => Letters[digits[i]])
  }

  /** generateRandomHEX: appends one letter per draw to "#". */
  method GenerateRandomHex(digits: seq<nat>) returns (color: string)
    requires IsDigitDraws(digits)
    ensures color == HexText(digits)
    ensures IsHexColor(color)
  {
    color := "#";
    for i := 0 to HexDigitCount
      invariant |color| == 1 + i && color[0] == '#'
      invariant forall j :: 0 <= j < i ==> color[1 + j] == Letters[digits[j]]
    {
      color := color + [Letters[digits[i]]];
    }
    HexTextShape(digits);
  }

  /** Position of a letter in `Letters`: the inverse of indexing the alphabet. */
  function LetterValue(c: char): (d: nat)
    requires c in Letters
    ensures d < |Letters| && Letters[d] == c
  {
    if '0' <= c <= '9' then c as int - '0' as int else c as int - 'A' as int + 10
  }

  /** Recovers the six digit draws from a colour text, or None if it has the wrong shape. */
  function DecodeHex(t: string): Option<seq<nat>> {
    if IsHexColor(t) then Some(seq(HexDigitCount, i requires 0 <= i < HexDigitCount => LetterValue(t[1 + i])))
    else None
  }

  /** Every generated colour has the hex shape, and character i+1 is the letter of draw i. */
  lemma HexTextShape(digits: seq<nat>)
    requires IsDigitDraws(digits)
    ensures IsHexColor(HexText(digits))
    ensures forall i :: 0 <= i < HexDigitCount ==> HexText(digits)[1 + i] == Letters[digits[i]]
  {
  }

  /** Each letter of the alphabet occurs once, so a letter determines its draw. */
  lemma LettersDistinct(d: nat)
    requires d < |Letters|
    ensures LetterValue(Letters[d]) == d
  {
  }

  /** Decoding a generated colour gives back its draws. */
  lemma DecodeHexText(digits: seq<nat>)
    requires IsDigitDraws(digits)
    ensures DecodeHex(HexText(digits)) == Some(digits)
  {
    HexTextShape(digits);
    forall i | 0 <= i < HexDigitCount
      ensures LetterValue(HexText(digits)[1 + i]) == digits[i]
    {
      LettersDistinct(digits[i]);
    }
    assert DecodeHex(HexText(digits)).value == digits;
  }

  /** Every text of the hex shape is the colour of the draws it decodes to. */
  lemma HexTextDecode(t: string)
    requires IsHexColor(t)
    ensures DecodeHex(t).Some? && IsDigitDraws(DecodeHex(t).value)
    ensures HexText(DecodeHex(t).value) == t
  {
  }

  /** Distinct draws give distinct colours. */
  lemma HexTextInjective(d1: seq<nat>, d2: seq<nat>)
    requires IsDigitDraws(d1) && IsDigitDraws(d2)
    requires HexText(d1) == HexText(d2)
    ensures d1 == d2
  {
    DecodeHexText(d1);
    DecodeHexText(d2);
  }
}
