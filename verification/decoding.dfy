/** The hub's `decode`: it hands the payload to the JSON library and turns a
    StandardError from it into `nil`. The library itself is not modelled: its
    behaviour on one payload is an input, either a value or an exception.
 */
module Decoding {
  import opened Common

  /** What `MultiJson.decode(payload)` does with one payload. */
  datatype JsonResult = Parsed(value: Value) | ParseRaised(exn: Exn)

  /** What `decode(payload)` does: return a value, or let an exception escape. */
  datatype Decoded = Returned(value: Value) | Escaped(exn: Exn)

  function Decode(json: JsonResult): (r: Decoded)
    // decode never raises a StandardError
    ensures r.Escaped? ==> !r.exn.standard
    // a parsed payload is returned as is
    ensures json.Parsed? ==> r == Returned(json.value)
    // any StandardError of the library becomes nil
    ensures json.ParseRaised? && json.exn.standard ==> r == Returned(Null)
    // other exceptions (outside StandardError) are not rescued
    ensures json.ParseRaised? && !json.exn.standard ==> r == Escaped(json.exn)
  {
    match json
    case Parsed(v) => Returned(v)
    case ParseRaised(e) => if e.standard then Returned(Null) else Escaped(e)
  }

  /** A failed decode is indistinguishable, to the caller, from a payload
      whose JSON is `null`: both are falsy. */
  lemma DecodeFailureIsFalsy(e: Exn)
    requires e.standard
    ensures !Truthy(Decode(ParseRaised(e)).value)
    ensures Decode(ParseRaised(e)) == Decode(Parsed(Null))
  {
  }
}
