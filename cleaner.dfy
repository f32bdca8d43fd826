/** The text normaliser applied to every extracted document before it is
    chunked (`TextCleaner.clean`): five whole-string rewriting passes and a
    final strip, each modelled as its own recursive function on strings. */
module Cleaner {

  /** The characters Python counts as whitespace in a `str`: the set that `\s`
      matches and that `str.strip()` removes. */
  predicate IsWs(c: char) {
    var n := c as int;
    (9 <= n <= 13) || (28 <= n <= 32) || n == 0x85 || n == 0xA0 || n == 0x1680
    || (0x2000 <= n <= 0x200A) || n == 0x2028 || n == 0x2029 || n == 0x202F
    || n == 0x205F || n == 0x3000
  }

  predicate IsDigit(c: char) { '0' <= c <= '9' }

  /** The characters that the last regular-expression pass keeps besides
      whitespace: ASCII letters and digits and `. , ? ! ; : ( ) -`. */
  predicate IsAllowed(c: char) {
    ('a' <= c <= 'z') || ('A' <= c <= 'Z') || IsDigit(c)
    || c == '.' || c == ',' || c == '?' || c == '!' || c == ';' || c == ':'
    || c == '(' || c == ')' || c == '-'
  }

  /** `b` is obtained from `a` by deleting zero or more characters. */
  ghost predicate IsSubsequence(a: string, b: string)
    decreases |b|
  {
    if b == [] then a == []
    else (a != [] && a[0] == b[0] && IsSubsequence(a[1..], b[1..])) || IsSubsequence(a, b[1..])
  }

  // ---------------------------------------------------------------------
  // Maximal runs at the head of a string
  // ---------------------------------------------------------------------

  /** Length of the maximal whitespace run that starts the string. */
  function LeadingWs(s: string): (n: nat)
    ensures n <= |s|
    ensures forall i :: 0 <= i < n ==> IsWs(s[i])
    ensures n == |s| || !IsWs(s[n])
  {
    if s != [] && IsWs(s[0]) then 1 + LeadingWs(s[1..]) else 0
  }

  /** Length of the maximal non-whitespace run that starts the string: what
      a greedy `\S+` consumes. */
  function LeadingNonWs(s: string): (n: nat)
    ensures n <= |s|
    ensures forall i :: 0 <= i < n ==> !IsWs(s[i])
    ensures n == |s| || IsWs(s[n])
  {
    if s != [] && !IsWs(s[0]) then 1 + LeadingNonWs(s[1..]) else 0
  }

  /** Length of the maximal run of ASCII digits that starts the string: what
      a greedy `[0-9]+` consumes. */
  function LeadingDigits(s: string): (n: nat)
    ensures n <= |s|
    ensures forall i :: 0 <= i < n ==> IsDigit(s[i])
    ensures n == |s| || !IsDigit(s[n])
  {
    if s != [] && IsDigit(s[0]) then 1 + LeadingDigits(s[1..]) else 0
  }

  /** Length of the maximal whitespace run that ends the string. */
  function TrailingWs(s: string): (n: nat)
    ensures n <= |s|
    ensures forall i :: |s| - n <= i < |s| ==> IsWs(s[i])
    ensures n == |s| || !IsWs(s[|s| - n - 1])
  {
    if s != [] && IsWs(s[|s| - 1]) then 1 + TrailingWs(s[..|s| - 1]) else 0
  }

  // ---------------------------------------------------------------------
  // The six passes, in source order
  // ---------------------------------------------------------------------

  /** Pass 1, `text.replace("\t", " ")`. */
  function ReplaceTabs(s: string): (r: string)
    ensures |r| == |s|
    ensures forall i :: 0 <= i < |s| ==> r[i] == (if s[i] == '\t' then ' ' else s[i])
  {
    if s == [] then [] else [if s[0] == '\t' then ' ' else s[0]] + ReplaceTabs(s[1..])
  }

  /** Pass 2, `re.sub(r'\s+', ' ', text)`: every maximal whitespace run becomes
      one space. */
  function CollapseWs(s: string): (r: string)
    ensures |r| <= |s|
    ensures r == [] <==> s == []
    ensures r != [] ==> (IsWs(r[0]) <==> IsWs(s[0]))
    decreases |s|
  {
    if s == [] then []
    else if IsWs(s[0]) then [' '] + CollapseWs(s[LeadingWs(s)..])
    else [s[0]] + CollapseWs(s[1..])
  }

  /** A match of `http\S+` starts here: `http` and at least one more
      non-whitespace character. */
  predicate UrlAt(s: string) {
    |s| >= 5 && s[0] == 'h' && s[1] == 't' && s[2] == 't' && s[3] == 'p' && !IsWs(s[4])
  }

  /** Pass 3, `re.sub(r'http\S+', '', text)`: scanning left to right, each
      match runs greedily up to the next whitespace (or the end) and is
      deleted; scanning resumes after it. */
  function RemoveUrls(s: string): (r: string)
    ensures |r| <= |s|
    decreases |s|
  {
    if s == [] then []
    else if UrlAt(s) then RemoveUrls(s[LeadingNonWs(s)..])
    else [s[0]] + RemoveUrls(s[1..])
  }

  /** A match of `\[[0-9]+\]` starts here. */
  predicate CitationAt(s: string) {
    |s| >= 3 && s[0] == '[' && LeadingDigits(s[1..]) > 0
    && 1 + LeadingDigits(s[1..]) < |s| && s[1 + LeadingDigits(s[1..])] == ']'
  }

  /** Pass 4, `re.sub(r'\[[0-9]+\]', '', text)`: leftmost, non-overlapping
      bracketed numbers are deleted; scanning resumes after each one. */
  function RemoveCitations(s: string): (r: string)
    ensures |r| <= |s|
    decreases |s|
  {
    if s == [] then []
    else if CitationAt(s) then RemoveCitations(s[2 + LeadingDigits(s[1..])..])
    else [s[0]] + RemoveCitations(s[1..])
  }

  /** Pass 5, `re.sub(r'[^a-zA-Z0-9.,?!;:()\-\s]', '', text)`. */
  function KeepAllowed(s: string): (r: string)
    ensures |r| <= |s|
    ensures forall i :: 0 <= i < |r| ==> IsAllowed(r[i]) || IsWs(r[i])
  {
    if s == [] then []
    else if IsAllowed(s[0]) || IsWs(s[0]) then [s[0]] + KeepAllowed(s[1..])
    else KeepAllowed(s[1..])
  }

  /** Pass 6, `text.strip()`: the slice that starts after the leading
      whitespace run, has a non-whitespace character at each end, and is
      followed by whitespace only. */
  function Strip(s: string): (r: string)
    ensures LeadingWs(s) + |r| <= |s| && r == s[LeadingWs(s)..LeadingWs(s) + |r|]
    ensures forall k :: LeadingWs(s) + |r| <= k < |s| ==> IsWs(s[k])
    ensures r == [] || (!IsWs(r[0]) && !IsWs(r[|r| - 1]))
  {
    var i := LeadingWs(s);
    var n := TrailingWs(s);
    var j := if |s| - n < i then i else |s| - n;
    s[i..j]
  }

  /** Passes 1 to 5 composed in source order. */
  function Normalise(s: string): string {
    KeepAllowed(RemoveCitations(RemoveUrls(CollapseWs(ReplaceTabs(s)))))
  }

  /** `TextCleaner.clean`: all six passes in source order. */
  function Clean(s: string): string {
    Strip(Normalise(s))
  }
}
