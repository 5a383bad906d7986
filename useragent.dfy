/** The user-agent component sanitiser: a character-for-character replacement over an allow-list. */
module UserAgent {

  /** The punctuation `"!$%&'*+-.^_`|~"` that joins ASCII letters and digits on the allow-list. */
  const Punctuation: string := "!$%&'*+-.^_`|~"

  /** Membership in `ascii_letters + digits + Punctuation`. */
  predicate InAllowList(c: char)
  {
    'a' <= c <= 'z' || 'A' <= c <= 'Z' || '0' <= c <= '9' || c in Punctuation
  }

  /** Whether `c` is kept as it is. */
  predicate Allowed(c: char, allowHash: bool)
  {
    InAllowList(c) || (allowHash && c == '#')
  }

  /** The replacement of one character. */
  function SanitizeChar(c: char, allowHash: bool): char
  {
    if Allowed(c, allowHash) then c else '-'
  }

  /** `sanitize_user_agent_string_component(raw, allow_hash)`. */
  function Sanitize(raw: string, allowHash: bool): (r: string)
    ensures |r| == |raw|
    ensures forall i :: 0 <= i < |raw| && Allowed(raw[i], allowHash) ==> r[i] == raw[i]
    ensures forall i :: 0 <= i < |raw| && !Allowed(raw[i], allowHash) ==> r[i] == '-'
  {
    seq(|raw|, i requires 0 <= i < |raw| => SanitizeChar(raw[i], allowHash))
  }

  /** '#' is not on the allow-list: it survives only when `allowHash` holds. */
  lemma HashKeptIffAllowed(raw: string, allowHash: bool, i: nat)
    requires i < |raw| && raw[i] == '#'
    ensures Sanitize(raw, allowHash)[i] == (if allowHash then '#' else '-')
  {
  }

  /** Every output character is itself allowed: '-' is on the allow-list. */
  lemma SanitizedAllowed(raw: string, allowHash: bool)
    ensures forall i :: 0 <= i < |raw| ==> Allowed(Sanitize(raw, allowHash)[i], allowHash)
  {
  }

  /** Sanitising twice is sanitising once. */
  lemma SanitizeIdempotent(raw: string, allowHash: bool)
    ensures Sanitize(Sanitize(raw, allowHash), allowHash) == Sanitize(raw, allowHash)
  {
    SanitizedAllowed(raw, allowHash);
  }

  /** Sanitising works character by character, so it distributes over concatenation. */
  lemma SanitizeConcat(a: string, b: string, allowHash: bool)
    ensures Sanitize(a + b, allowHash) == Sanitize(a, allowHash) + Sanitize(b, allowHash)
  {
  }

  /** A string already made of allowed characters is left as it is. */
  lemma SanitizeFixedPoint(raw: string, allowHash: bool)
    requires forall i :: 0 <= i < |raw| ==> Allowed(raw[i], allowHash)
    ensures Sanitize(raw, allowHash) == raw
  {
  }

  /** Two of the documented cases: a space and parentheses all become '-'. */
  lemma SanitizeExample()
    ensures Sanitize("ExampleFramework (1.2.3)", false) == "ExampleFramework--1.2.3-"
  {
    var raw := "ExampleFramework (1.2.3)";
    assert forall i :: 0 <= i < |raw| ==> Sanitize(raw, false)[i] == "ExampleFramework--1.2.3-"[i];
  }
}
