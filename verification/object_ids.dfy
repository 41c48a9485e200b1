/**
 * MongoDB ObjectId strings: `ObjectId.isValid(s)` for a string accepts
 * exactly 24 hexadecimal digits in either case, and
 * `new ObjectId(s).toString()` spells the same id in lower case. Documents
 * carry their `_id` in that canonical spelling, so a lookup
 * `findOne({ _id: new ObjectId(s) })` matches the document whose id equals
 * `Parse(s)`.
 */
module ObjectIds {
  import opened Types

  predicate IsHexDigit(c: char) {
    ('0' <= c <= '9') || ('a' <= c <= 'f') || ('A' <= c <= 'F')
  }

  predicate IsLowerHexDigit(c: char) {
    ('0' <= c <= '9') || ('a' <= c <= 'f')
  }

  /** `ObjectId.isValid(s)` for a string argument. */
  predicate IsValid(s: string) {
    |s| == 24 && forall i :: 0 <= i < |s| ==> IsHexDigit(s[i])
  }

  /** The spelling `ObjectId.prototype.toString` produces. */
  predicate IsCanonical(s: string) {
    |s| == 24 && forall i :: 0 <= i < |s| ==> IsLowerHexDigit(s[i])
  }

  function LowerHex(c: char): (d: char)
    requires IsHexDigit(c)
    ensures IsLowerHexDigit(d)
  {
    if 'A' <= c <= 'F' then (c as int - 'A' as int + 'a' as int) as char else c
  }

  /**
   * `new ObjectId(s).toString()`, or None where the constructor throws.
   */
  function Parse(s: string): (r: Option<string>)
    ensures r.Some? <==> IsValid(s)
    ensures r.Some? ==> IsCanonical(r.value)
  {
    if IsValid(s) then Some(seq(|s|, i requires 0 <= i < |s| => LowerHex(s[i]))) else None
  }

  /** A canonical id string denotes itself: `new ObjectId(id).toString() == id`. */
  lemma ParseCanonical(id: string)
    requires IsCanonical(id)
    ensures Parse(id) == Some(id)
  {
    assert IsValid(id);
    assert Parse(id).value == id;
  }

  /** Parsing is idempotent: the canonical spelling parses to itself. */
  lemma ParseIdempotent(s: string)
    requires IsValid(s)
    ensures Parse(Parse(s).value) == Parse(s)
  {
    ParseCanonical(Parse(s).value);
  }
}
