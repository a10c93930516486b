/**
 * Identifier sanitisation of the request fields: a field survives only if
 * no character of it matches `[^a-zA-Z0-9_-]`; otherwise it becomes "".
 */
module Sanitize {

  /** The character class `[a-zA-Z0-9_-]`. */
  predicate Allowed(c: char) {
    'a' <= c <= 'z' || 'A' <= c <= 'Z' || '0' <= c <= '9' || c == '_' || c == '-'
  }

  predicate Clean(s: string) {
    forall i :: 0 <= i < |s| ==> Allowed(s[i])
  }

  predicate IsLowerCase(s: string) {
    forall i :: 0 <= i < |s| ==> !('A' <= s[i] <= 'Z')
  }

  /**
   * `re.findall(r"[^a-zA-Z0-9_-]", s)`: the single-character matches of the
   * negated class, in order, one per disallowed character of `s`.
   */
  function FindAll(s: string): (r: string)
    ensures |r| <= |s|
    ensures forall i :: 0 <= i < |r| ==> !Allowed(r[i])
    ensures forall i :: 0 <= i < |s| && !Allowed(s[i]) ==> s[i] in r
  {
    if s == [] then []
    else (if Allowed(s[0]) then [] else [s[0]]) + FindAll(s[1..])
  }

  /** No match at all exactly when every character is allowed. */
  lemma {:induction false} NoMatchIffClean(s: string)
    ensures |FindAll(s)| == 0 <==> Clean(s)
  {
    if s != [] {
      NoMatchIffClean(s[1..]);
      if Allowed(s[0]) && Clean(s[1..]) {
        forall i | 0 <= i < |s| ensures Allowed(s[i]) {
          if i > 0 { assert s[i] == s[1..][i - 1]; }
        }
      }
    }
  }

  /** Python's `str.lower()` on the ASCII range. */
  function LowerChar(c: char): char {
    if 'A' <= c <= 'Z' then (c as int - 'A' as int + 'a' as int) as char else c
  }

  function Lower(s: string): string {
    seq(|s|, i requires 0 <= i < |s| => LowerChar(s[i]))
  }

  /** On allowed characters, ASCII lowering keeps them allowed and is idempotent. */
  lemma LowerOfClean(s: string)
    requires Clean(s)
    ensures Clean(Lower(s)) && IsLowerCase(Lower(s)) && |Lower(s)| == |s|
    ensures Lower(Lower(s)) == Lower(s)
  {
  }

  /** A raw field that sanitises to "": empty, or holding a character outside `[A-Za-z0-9_-]`. */
  predicate Invalid(raw: string) {
    raw == "" || !Clean(raw)
  }

  /** `"" if len(re.findall(regex_folder, raw)) != 0 else raw.lower()` (lob, project, model). */
  function SanitizedLower(raw: string): (r: string)
    ensures r == "" <==> Invalid(raw)
    ensures r != "" ==> Clean(r) && IsLowerCase(r) && r == Lower(raw)
  {
    NoMatchIffClean(raw);
    if |FindAll(raw)| != 0 then "" else Lower(raw)
  }

  /** `"" if len(re.findall(regex_folder, raw)) != 0 else raw` (customer): not lowercased. */
  function Sanitized(raw: string): (r: string)
    ensures r == "" <==> Invalid(raw)
    ensures r != "" ==> r == raw && Clean(r)
  {
    NoMatchIffClean(raw);
    if |FindAll(raw)| != 0 then "" else raw
  }

  /** `s.replace("-", "_")` */
  function Underscored(s: string): (r: string)
    ensures |r| == |s| && '-' !in r
    ensures forall i :: 0 <= i < |s| ==> r[i] == (if s[i] == '-' then '_' else s[i])
    ensures Clean(s) ==> Clean(r)
  {
    seq(|s|, i requires 0 <= i < |s| => if s[i] == '-' then '_' else s[i])
  }

  const CONNECTION_PREFIX := "ocr_connection_string_"

  /** The environment variable that holds a customer's database connection string. */
  function ConnectionKey(customer: string): (k: string)
    ensures |k| == |CONNECTION_PREFIX| + |customer|
    ensures k[..|CONNECTION_PREFIX|] == CONNECTION_PREFIX && '-' !in k[|CONNECTION_PREFIX|..]
    ensures forall i :: 0 <= i < |customer| ==>
      k[|CONNECTION_PREFIX| + i] == (if customer[i] == '-' then '_' else customer[i])
  {
    CONNECTION_PREFIX + Underscored(customer)
  }

  /** The characters `format_customer` treats alike. */
  predicate Joiner(ch: char) {
    ch == '-' || ch == '_'
  }

  /** Customers that differ only in '-' versus '_' share a connection string. */
  lemma AlikeShareKey(c: string, d: string)
    requires |c| == |d|
    requires forall i :: 0 <= i < |c| ==> c[i] == d[i] || (Joiner(c[i]) && Joiner(d[i]))
    ensures ConnectionKey(c) == ConnectionKey(d)
  {
    var u, v := Underscored(c), Underscored(d);
    forall i | 0 <= i < |c| ensures u[i] == v[i] {
    }
    assert u == v;
  }

  /** Customers that share a connection string differ only in '-' versus '_'. */
  lemma SharedKeyAlike(c: string, d: string)
    requires ConnectionKey(c) == ConnectionKey(d)
    ensures |c| == |d|
    ensures forall i :: 0 <= i < |c| ==> c[i] == d[i] || (Joiner(c[i]) && Joiner(d[i]))
  {
    var k := ConnectionKey(c);
    forall i | 0 <= i < |c| ensures c[i] == d[i] || (Joiner(c[i]) && Joiner(d[i])) {
      assert k[|CONNECTION_PREFIX| + i] == ConnectionKey(d)[|CONNECTION_PREFIX| + i];
    }
  }

  /** For instance, customers "a-b" and "a_b" read the same variable. */
  lemma HyphenAndUnderscoreShareKey()
    ensures ConnectionKey("a-b") == ConnectionKey("a_b")
  {
    AlikeShareKey("a-b", "a_b");
  }
}
