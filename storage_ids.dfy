/**
 * The sanitization of test ids that the browser's S3 service and the upload server both apply
 * before a test id becomes part of an object key or a folder name.
 */
module StorageIds {

  /** The characters `/[^a-zA-Z0-9-]/g` leaves alone. */
  predicate IsKeyChar(c: char) {
    ('a' <= c <= 'z') || ('A' <= c <= 'Z') || ('0' <= c <= '9') || c == '-'
  }

  /** `testId.replace(/[^a-zA-Z0-9-]/g, "_")`. */
  function Sanitize(s: string): (r: string)
    ensures |r| == |s|
    ensures forall i :: 0 <= i < |s| && IsKeyChar(s[i]) ==> r[i] == s[i]
    ensures forall i :: 0 <= i < |s| && !IsKeyChar(s[i]) ==> r[i] == '_'
    ensures forall i :: 0 <= i < |r| ==> r[i] != '/' && r[i] != '.'
  {
    seq(|s|, i requires 0 <= i < |s| => if IsKeyChar(s[i]) then s[i] else '_')
  }

  /** Sanitizing a sanitized id changes nothing. */
  lemma SanitizeIdempotent(s: string)
    ensures Sanitize(Sanitize(s)) == Sanitize(s)
  {
    var r := Sanitize(s);
    assert forall i :: 0 <= i < |r| ==> IsKeyChar(r[i]) || r[i] == '_';
  }
}
