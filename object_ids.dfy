/**
 * Document identifiers. A request carries an identifier as text; the store
 * casts it to an ObjectId, which succeeds for 24 hexadecimal digits, and
 * keys documents by the canonical (lower-case) hexadecimal form.
 */
module ObjectIds {
  import opened Options
  import JsString

  predicate IsHexDigit(c: char) {
    ('0' <= c <= '9') || ('a' <= c <= 'f') || ('A' <= c <= 'F')
  }

  /** The form an ObjectId takes when printed: 24 lower-case hex digits. */
  predicate IsCanonical(k: string) {
    |k| == 24 && forall i :: 0 <= i < |k| ==> ('0' <= k[i] <= '9') || ('a' <= k[i] <= 'f')
  }

  /** Casting request text to an ObjectId: defined exactly for 24 hex digits
      of either case, and then the canonical spelling of the same digits. */
  function Cast(s: string): (r: Option<string>)
    ensures r.Some? <==> |s| == 24 && forall i :: 0 <= i < |s| ==> IsHexDigit(s[i])
    ensures r.Some? ==> IsCanonical(r.value) && r.value == JsString.ToLower(s)
  {
    if |s| == 24 && forall i :: 0 <= i < |s| ==> IsHexDigit(s[i]) then Some(JsString.ToLower(s))
    else None
  }

  /** A canonical identifier casts to itself, so printing and casting
      back round-trips. */
  lemma CastCanonical(k: string)
    requires IsCanonical(k)
    ensures Cast(k) == Some(k)
  {
    assert JsString.ToLower(k) == k;
  }
}
