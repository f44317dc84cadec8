/** The payload excerpt `receive` puts in its "Handling event" debug line:
    long payloads are cut with Ruby's inclusive range `0..160` and marked
    with a trailing " ...".
 */
module Preview {

  /** Payloads longer than this are cut in the debug line. */
  const PreviewLimit: nat := 160

  /** The marker appended to a cut payload. */
  const Ellipsis: string := " ..."

  /** Ruby's `s[0..last]`: the characters at indices 0 through `last`
      inclusive, stopping early at the end of the string. */
  function SliceThrough(s: string, last: nat): (r: string)
    ensures |r| == if last < |s| then last + 1 else |s|
    ensures r <= s
  {
    if last < |s| then s[..last + 1] else s
  }

  /** The debug-line excerpt of `payload`. */
  function PayloadPreview(payload: string): (r: string)
    ensures |payload| <= PreviewLimit ==> r == payload
    ensures |payload| > PreviewLimit ==> r == payload[..PreviewLimit + 1] + Ellipsis
    ensures |r| <= PreviewLimit + 1 + |Ellipsis|
  {
    if |payload| > PreviewLimit then SliceThrough(payload, PreviewLimit) + Ellipsis
    else payload
  }

  /** The excerpt always begins with the payload itself, up to 161 characters:
      nothing the preview shows is invented. */
  lemma PreviewKeepsPrefix(payload: string)
    ensures var k := if |payload| <= PreviewLimit + 1 then |payload| else PreviewLimit + 1;
            PayloadPreview(payload)[..k] == payload[..k]
  {
  }

  /** The inclusive range keeps one character more than the guard allows: a
      payload of exactly 161 characters is printed in full, followed by " ...",
      so the preview is longer than the payload it abbreviates. */
  lemma PreviewOfJustOverLimit(payload: string)
    requires |payload| == PreviewLimit + 1
    ensures PayloadPreview(payload) == payload + Ellipsis
    ensures |PayloadPreview(payload)| > |payload|
  {
  }

  /** A cut preview always has the full bound's length: 161 kept plus 4. */
  lemma PreviewLengthWhenCut(payload: string)
    requires |payload| > PreviewLimit
    ensures |PayloadPreview(payload)| == PreviewLimit + 1 + |Ellipsis|
  {
  }
}
