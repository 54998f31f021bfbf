/**
 * The request-payload check of the blog API: `validate_post_data` in
 * backend/backend_app.py, together with the part of Python's `str.strip()`
 * it relies on.
 */
module Validation {

  /** A JSON value as it can occur in a post payload or a stored post. */
  datatype Value = Str(s: string) | Int(i: int)

  /** A decoded JSON object: the request body of a create, or a stored post. */
  type Payload = map<string, Value>

  const TITLE := "title"
  const CONTENT := "content"

  /**
   * The characters Python's `str.strip()` removes when called without
   * arguments: exactly those for which `str.isspace()` holds.
   */
  predicate IsSpace(c: char) {
    ('\t' <= c <= '\r') || ('\U{1C}' <= c <= '\U{1F}') || c == ' ' ||
    c == '\U{85}' || c == '\U{A0}' || c == '\U{1680}' ||
    ('\U{2000}' <= c <= '\U{200A}') || c == '\U{2028}' || c == '\U{2029}' ||
    c == '\U{202F}' || c == '\U{205F}' || c == '\U{3000}'
  }

  /** Every character of `s` is whitespace (vacuously so for ""). */
  ghost predicate AllSpace(s: string) {
    forall i :: 0 <= i < |s| ==> IsSpace(s[i])
  }

  /** `s.lstrip()`: the longest suffix of `s` that does not start with whitespace. */
  function TrimLeft(s: string): (r: string)
    ensures |r| <= |s| && r == s[|s| - |r|..]
    ensures forall i :: 0 <= i < |s| - |r| ==> IsSpace(s[i])
    ensures r != [] ==> !IsSpace(r[0])
  {
    if s != [] && IsSpace(s[0]) then TrimLeft(s[1..]) else s
  }

  /** `s.rstrip()`: the longest prefix of `s` that does not end with whitespace. */
  function TrimRight(s: string): (r: string)
    ensures |r| <= |s| && r == s[..|r|]
    ensures forall i :: |r| <= i < |s| ==> IsSpace(s[i])
    ensures r != [] ==> !IsSpace(r[|r| - 1])
  {
    if s != [] && IsSpace(s[|s| - 1]) then TrimRight(s[..|s| - 1]) else s
  }

  /**
   * `s.strip()`. The result is empty exactly when `s` is made of whitespace
   * only, and otherwise begins and ends with a non-whitespace character;
   * `StripKeepsInfix` says which part of `s` it is.
   */
  function Strip(s: string): (r: string)
    ensures |r| <= |s|
    ensures r == [] <==> AllSpace(s)
    ensures r != [] ==> !IsSpace(r[0]) && !IsSpace(r[|r| - 1])
  {
    var left := TrimLeft(s);
    var r := TrimRight(left);
    assert r == [] ==> left == [];
    assert r != [] ==> !IsSpace(s[|s| - |left|]) by {
      if r != [] {
        assert r[0] == left[0] == s[|s| - |left|];
      }
    }
    r
  }

  /**
   * `strip()` returns the infix of `s` that starts where `lstrip()` stops:
   * what it drops before that point and after its end is whitespace only.
   */
  lemma {:induction false} StripKeepsInfix(s: string)
    ensures Strip(s) == s[|s| - |TrimLeft(s)|..][..|Strip(s)|]
    ensures forall i :: 0 <= i < |s| - |TrimLeft(s)| ==> IsSpace(s[i])
    ensures forall i :: |Strip(s)| <= i < |TrimLeft(s)| ==> IsSpace(TrimLeft(s)[i])
  {
    assert Strip(s) == TrimRight(TrimLeft(s));
  }

  /** `strip()` leaves a string alone once it has been stripped. */
  lemma {:induction false} StripIdempotent(s: string)
    ensures Strip(Strip(s)) == Strip(s)
  {
    var r := Strip(s);
    if r != [] {
      assert TrimLeft(r) == r;
      assert TrimRight(r) == r;
    }
  }

  /**
   * The payloads on which `validate_post_data` does not raise. It reads the
   * two values only when both keys are present; it strips the title first and
   * strips the content only when the title is not blank, so each value it
   * strips must be a string.
   */
  ghost predicate Strippable(p: Payload) {
    TITLE in p && CONTENT in p ==>
      p[TITLE].Str? && (!AllSpace(p[TITLE].s) ==> p[CONTENT].Str?)
  }

  /**
   * `validate_post_data`: a payload is accepted exactly when it has both a
   * `title` and a `content` key and neither value is blank, that is, made of
   * whitespace only. A missing key or a blank value rejects it.
   */
  function ValidPostData(p: Payload): (ok: bool)
    requires Strippable(p)
    ensures !(TITLE in p && CONTENT in p) ==> !ok
    ensures TITLE in p && p[TITLE].Str? && AllSpace(p[TITLE].s) ==> !ok
    ensures CONTENT in p && p[CONTENT].Str? && AllSpace(p[CONTENT].s) ==> !ok
    ensures ok <==>
      TITLE in p && CONTENT in p && p[TITLE].Str? && p[CONTENT].Str? &&
      !AllSpace(p[TITLE].s) && !AllSpace(p[CONTENT].s)
  {
    if TITLE !in p || CONTENT !in p then false
    else if Strip(p[TITLE].s) == [] then false
    else if Strip(p[CONTENT].s) == [] then false
    else true
  }

  /**
   * Two payloads with a non-string value that `validate_post_data` rejects
   * without raising: a title with no content never reaches `.strip()`, and a
   * blank title stops the `or` before the content is stripped.
   */
  lemma NonStringValuesRejectedEarly()
    ensures var p := map[TITLE := Int(5)]; Strippable(p) && !ValidPostData(p)
    ensures var p := map[TITLE := Str("  "), CONTENT := Int(5)]; Strippable(p) && !ValidPostData(p)
  {
    var p := map[TITLE := Str("  "), CONTENT := Int(5)];
    assert AllSpace(p[TITLE].s);
  }

  /**
   * Keys other than `title` and `content` (a client-supplied `id`, say) have
   * no bearing on validation.
   */
  lemma OtherFieldsIgnored(p: Payload, k: string, v: Value)
    requires Strippable(p)
    requires k != TITLE && k != CONTENT
    ensures Strippable(p[k := v])
    ensures ValidPostData(p[k := v]) == ValidPostData(p)
  {
  }
}
