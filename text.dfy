/** Character classes and literal string search, as used by Ruby's String#sub
    with a String pattern and by the character classes of the report's regexes. */
module Text {

  datatype Option<+T> = None | Some(value: T)

  /** The regex class [a-zA-Z] (ASCII letters only). */
  predicate IsLetter(c: char) {
    'a' <= c <= 'z' || 'A' <= c <= 'Z'
  }

  /** The regex class \d as used on version strings (ASCII digits). */
  predicate IsDigit(c: char) {
    '0' <= c <= '9'
  }

  /** The regex class [a-zA-Z0-9\-_]: the characters an HTML id keeps. */
  predicate IsIdChar(c: char) {
    IsLetter(c) || IsDigit(c) || c == '-' || c == '_'
  }

  /** `pat` occurs in `s` starting at index `i`. */
  predicate OccursAt(s: string, pat: string, i: nat) {
    i + |pat| <= |s| && s[i..i + |pat|] == pat
  }

  /** Index of the first occurrence of `pat` in `s` (String#index with a String). */
  function IndexOf(s: string, pat: string): (r: Option<nat>)
    ensures r.Some? ==> OccursAt(s, pat, r.value)
    ensures r.Some? ==> forall j: nat :: j < r.value ==> !OccursAt(s, pat, j)
    ensures r.None? ==> forall j: nat :: !OccursAt(s, pat, j)
    decreases |s|
  {
    if pat <= s then Some(0)
    else if s == [] then None
    else
      var tail := IndexOf(s[1..], pat);
      assert !OccursAt(s, pat, 0);
      ShiftOccurs(s, pat);
      match tail
      case None => None
      case Some(i) => Some(i + 1)
  }

  /** An occurrence at j + 1 in `s` is an occurrence at j in its tail. */
  lemma ShiftOccurs(s: string, pat: string)
    requires s != []
    ensures forall j: nat :: j > 0 ==> (OccursAt(s, pat, j) <==> OccursAt(s[1..], pat, j - 1))
  {
    forall j: nat | j > 0 ensures OccursAt(s, pat, j) <==> OccursAt(s[1..], pat, j - 1) {
      if j + |pat| <= |s| {
        assert s[1..][j - 1..j - 1 + |pat|] == s[j..j + |pat|];
      }
    }
  }

  /** `s.sub(pat, rep)` for a String pattern: the first literal occurrence of `pat`
      is replaced by `rep`; with no occurrence `s` is returned unchanged. */
  function Sub(s: string, pat: string, rep: string): string {
    match IndexOf(s, pat)
    case None => s
    case Some(i) => s[..i] + rep + s[i + |pat|..]
  }

  /** Sub replaces exactly the first occurrence, wherever it is, and nothing else. */
  lemma SubReplacesFirst(s: string, pat: string, rep: string, i: nat)
    requires OccursAt(s, pat, i)
    requires forall j: nat :: j < i ==> !OccursAt(s, pat, j)
    ensures Sub(s, pat, rep) == s[..i] + rep + s[i + |pat|..]
  {
  }

  /** Sub leaves a string in which `pat` never occurs unchanged. */
  lemma SubAbsent(s: string, pat: string, rep: string)
    requires forall j: nat :: !OccursAt(s, pat, j)
    ensures Sub(s, pat, rep) == s
  {
  }
}
