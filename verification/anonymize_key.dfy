/**
 * `anonymizeKey` of src/util/anonymize-key.ts, used when logging cache keys:
 * an ellipsis followed by the tail of the key.
 */
module AnonymizeKey {
  import opened JsStrings

  const AnonymizedKeyLength := 10
  const Ellipsis := "..."

  /**
   * The function as written: `key.substr(key.length - 10, 10)` after the
   * ellipsis. For keys shorter than 10 the start is negative, and `substr`
   * counts a negative start back from the end of the string.
   */
  function AnonymizeKeyAsWritten(key: string): (out: string)
    ensures |out| == |Ellipsis| + ShownAsWritten(|key|)
    ensures out[..|Ellipsis|] == Ellipsis
    ensures out[|Ellipsis|..] == key[|key| - ShownAsWritten(|key|)..]
  {
    Ellipsis + Substr(key, |key| - AnonymizedKeyLength, AnonymizedKeyLength)
  }

  /**
   * How many trailing characters of a key of length `n` the written code
   * shows: the last 10 of a long key, all of a key of at most 5 characters,
   * and only the last `10 - n` of a key of 6 to 9 characters.
   */
  function ShownAsWritten(n: nat): nat {
    if n >= AnonymizedKeyLength then AnonymizedKeyLength
    else if 2 * n <= AnonymizedKeyLength then n
    else AnonymizedKeyLength - n
  }

  /** An eight-character key shows two characters where all eight are meant. */
  lemma AsWrittenHidesShortKey()
    ensures AnonymizeKeyAsWritten("abcdefgh") == "...gh"
    ensures AnonymizeKey("abcdefgh") == "...abcdefgh"
  {
  }

  /** The intended behaviour: the ellipsis followed by the last `min(10, |key|)` characters. */
  function AnonymizeKey(key: string): (out: string)
    ensures |out| == |Ellipsis| + Min(AnonymizedKeyLength, |key|) <= 13
    ensures out[..|Ellipsis|] == Ellipsis
  {
    Ellipsis + key[|key| - Min(AnonymizedKeyLength, |key|)..]
  }

  /** After the ellipsis comes the tail of the key; a key of at most 10 characters is shown whole, the empty key as `...`. */
  lemma AnonymizeKeyShowsTail(key: string)
    ensures var out := AnonymizeKey(key);
      && key[|key| - (|out| - |Ellipsis|)..] == out[|Ellipsis|..]
      && (|key| <= AnonymizedKeyLength ==> out == Ellipsis + key)
      && (key == "" ==> out == "...")
  {
  }

  /** The written code agrees with the intended behaviour except on keys of 6 to 9 characters. */
  lemma AsWrittenAgreesOutsideSixToNine(key: string)
    ensures AnonymizeKeyAsWritten(key) == AnonymizeKey(key) <==> !(5 < |key| < AnonymizedKeyLength)
  {
  }
}
