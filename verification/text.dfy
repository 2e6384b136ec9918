/** The card renderer's text shortening. */
module Text {

  /**
   * `truncateText`: a text no longer than `maxLength` is shown as it is; a
   * longer one is cut after `maxLength` characters and marked with "...".
   */
  function TruncateText(text: string, maxLength: nat): (r: string)
    ensures |text| <= maxLength ==> r == text
    ensures |text| > maxLength ==> |r| == maxLength + 3
    ensures |text| > maxLength ==> r[..maxLength] == text[..maxLength] && r[maxLength..] == "..."
    ensures |r| <= maxLength + 3
  {
    if |text| <= maxLength then text else text[..maxLength] + "..."
  }

  /** Shortening a shortened text changes nothing more. */
  lemma TruncateTextIdempotent(text: string, maxLength: nat)
    ensures TruncateText(TruncateText(text, maxLength), maxLength) == TruncateText(text, maxLength)
  {
    var r := TruncateText(text, maxLength);
    if |text| > maxLength {
      assert r == r[..maxLength] + r[maxLength..];
    }
  }

  /** A shortened text starts with a prefix of the original of its own length less the marker. */
  lemma TruncateTextIsPrefixExtension(text: string, maxLength: nat)
    ensures var r := TruncateText(text, maxLength);
      (r == text) || (r[..maxLength] <= text && r == r[..maxLength] + "...")
  {
  }
}
