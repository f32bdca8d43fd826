/** What `TextCleaner.clean` guarantees about its output, and what it does
    not: the output alphabet, the absence of surrounding spaces, that the
    later passes only delete, exactly which inputs it leaves unchanged, and
    concrete inputs on which a second application changes the result. */
module CleanerProperties {
  import opened Cleaner

  /** The strings that `Clean` maps to themselves (see `CleanFixedPoint`):
      only allowed characters and single spaces, no space at either end, no
      URL match and no bracketed number anywhere. */
  ghost predicate IsCleanForm(s: string) {
    (forall i :: 0 <= i < |s| ==> IsAllowed(s[i]) || s[i] == ' ')
    && (forall i :: 0 <= i < |s| - 1 ==> !(s[i] == ' ' && s[i + 1] == ' '))
    && (s == [] || (s[0] != ' ' && s[|s| - 1] != ' '))
    && (forall i :: 0 <= i < |s| ==> !UrlAt(s[i..]))
    && (forall i :: 0 <= i < |s| ==> !CitationAt(s[i..]))
  }

  // ---------------------------------------------------------------------
  // Sequence identities, stated once so that proofs can cite them
  // ---------------------------------------------------------------------

  lemma HeadTail(s: string)
    requires s != []
    ensures [s[0]] + s[1..] == s
  {
  }

  lemma DropDrop(s: string, i: nat)
    requires 1 <= i <= |s|
    ensures s[1..][i - 1..] == s[i..]
  {
  }

  lemma ConcatAssoc(x: string, y: string, z: string)
    ensures x + (y + z) == (x + y) + z
  {
  }

  /** Dropping a prefix of `a` from `a + b`. */
  lemma DropConcat(a: string, b: string, n: nat)
    requires n <= |a|
    ensures (a + b)[n..] == a[n..] + b
  {
  }

  // ---------------------------------------------------------------------
  // Subsequences
  // ---------------------------------------------------------------------

  lemma {:induction false} EmptyIsSubsequence(b: string)
    ensures IsSubsequence([], b)
    decreases |b|
  {
    if b != [] { EmptyIsSubsequence(b[1..]); }
  }

  lemma {:induction false} SubsequenceRefl(a: string)
    ensures IsSubsequence(a, a)
    decreases |a|
  {
    if a != [] { SubsequenceRefl(a[1..]); }
  }

  lemma {:induction false} SubsequenceTrans(a: string, b: string, c: string)
    requires IsSubsequence(a, b) && IsSubsequence(b, c)
    ensures IsSubsequence(a, c)
    decreases |c|
  {
    if c == [] {
    } else if IsSubsequence(b, c[1..]) {
      SubsequenceTrans(a, b, c[1..]);
    } else {
      assert b != [] && b[0] == c[0] && IsSubsequence(b[1..], c[1..]);
      if a == [] {
        EmptyIsSubsequence(c);
      } else if a[0] == b[0] && IsSubsequence(a[1..], b[1..]) {
        SubsequenceTrans(a[1..], b[1..], c[1..]);
      } else {
        SubsequenceTrans(a, b[1..], c[1..]);
      }
    }
  }

  lemma {:induction false} SubsequenceLength(a: string, b: string)
    requires IsSubsequence(a, b)
    ensures |a| <= |b|
    decreases |b|
  {
    if b != [] {
      if a != [] && a[0] == b[0] && IsSubsequence(a[1..], b[1..]) {
        SubsequenceLength(a[1..], b[1..]);
      } else {
        SubsequenceLength(a, b[1..]);
      }
    }
  }

  /** Every character of a subsequence occurs in the original string. */
  lemma {:induction false} SubsequenceMembers(a: string, b: string)
    requires IsSubsequence(a, b)
    ensures forall i :: 0 <= i < |a| ==> a[i] in b
    decreases |b|
  {
    if b != [] {
      if a != [] && a[0] == b[0] && IsSubsequence(a[1..], b[1..]) {
        SubsequenceMembers(a[1..], b[1..]);
        assert forall i :: 1 <= i < |a| ==> a[i] == a[1..][i - 1];
      } else {
        SubsequenceMembers(a, b[1..]);
      }
    }
  }

  lemma {:induction false} SuffixIsSubsequence(s: string, k: nat)
    requires k <= |s|
    ensures IsSubsequence(s[k..], s)
    decreases k
  {
    if k == 0 {
      SubsequenceRefl(s);
    } else {
      SuffixIsSubsequence(s[1..], k - 1);
      assert s[1..][k - 1..] == s[k..];
    }
  }

  lemma SliceIsSubsequence(s: string, i: nat, j: nat)
    requires i <= j <= |s|
    ensures IsSubsequence(s[i..j], s)
  {
    SliceHead(s[i..], j - i);
    assert s[i..][..j - i] == s[i..j];
    SuffixIsSubsequence(s, i);
    SubsequenceTrans(s[i..j], s[i..], s);
  }

  /** A prefix of a string is one of its subsequences. */
  lemma {:induction false} SliceHead(s: string, n: nat)
    requires n <= |s|
    ensures IsSubsequence(s[..n], s)
    decreases |s|
  {
    if s == [] {
    } else if n == 0 {
      EmptyIsSubsequence(s);
    } else {
      SliceHead(s[1..], n - 1);
      assert s[..n][1..] == s[1..][..n - 1];
    }
  }

  // ---------------------------------------------------------------------
  // Passes 3 to 6 only delete characters
  // ---------------------------------------------------------------------

  lemma {:induction false} RemoveUrlsDeletes(s: string)
    ensures IsSubsequence(RemoveUrls(s), s)
    decreases |s|
  {
    if s == [] {
    } else if UrlAt(s) {
      var n := LeadingNonWs(s);
      RemoveUrlsDeletes(s[n..]);
      SuffixIsSubsequence(s, n);
      SubsequenceTrans(RemoveUrls(s[n..]), s[n..], s);
    } else {
      RemoveUrlsDeletes(s[1..]);
      assert RemoveUrls(s)[1..] == RemoveUrls(s[1..]);
    }
  }

  lemma {:induction false} RemoveCitationsDeletes(s: string)
    ensures IsSubsequence(RemoveCitations(s), s)
    decreases |s|
  {
    if s == [] {
    } else if CitationAt(s) {
      var n := 2 + LeadingDigits(s[1..]);
      RemoveCitationsDeletes(s[n..]);
      SuffixIsSubsequence(s, n);
      SubsequenceTrans(RemoveCitations(s[n..]), s[n..], s);
    } else {
      RemoveCitationsDeletes(s[1..]);
      assert RemoveCitations(s)[1..] == RemoveCitations(s[1..]);
    }
  }

  lemma {:induction false} KeepAllowedDeletes(s: string)
    ensures IsSubsequence(KeepAllowed(s), s)
    decreases |s|
  {
    if s != [] {
      KeepAllowedDeletes(s[1..]);
      if IsAllowed(s[0]) || IsWs(s[0]) {
        assert KeepAllowed(s)[1..] == KeepAllowed(s[1..]);
      }
    }
  }

  lemma StripDeletes(s: string)
    ensures IsSubsequence(Strip(s), s)
  {
    var i := LeadingWs(s);
    var j := i + |Strip(s)|;
    SliceIsSubsequence(s, i, j);
  }

  /** After the whitespace passes, the cleaner only deletes characters: its
      output is a subsequence of the collapsed text, and never longer than
      the input. */
  lemma CleanDeletes(x: string)
    ensures IsSubsequence(Clean(x), CollapseWs(ReplaceTabs(x)))
    ensures |Clean(x)| <= |x|
  {
    var c := CollapseWs(ReplaceTabs(x));
    var u := RemoveUrls(c);
    var ci := RemoveCitations(u);
    var k := KeepAllowed(ci);
    RemoveUrlsDeletes(c);
    RemoveCitationsDeletes(u);
    KeepAllowedDeletes(ci);
    StripDeletes(k);
    SubsequenceTrans(ci, u, c);
    SubsequenceTrans(k, ci, c);
    SubsequenceTrans(Clean(x), k, c);
    SubsequenceLength(Clean(x), c);
  }

  /** Every output character is an allowed character or a plain space (so in
      particular no tab and no other whitespace survives), and the output
      neither starts nor ends with a space. */
  lemma CleanOutputShape(x: string)
    ensures forall i :: 0 <= i < |Clean(x)| ==> IsAllowed(Clean(x)[i]) || Clean(x)[i] == ' '
    ensures Clean(x) == [] || (Clean(x)[0] != ' ' && Clean(x)[|Clean(x)| - 1] != ' ')
  {
    var c := CollapseWs(ReplaceTabs(x));
    var k := KeepAllowed(RemoveCitations(RemoveUrls(c)));
    CleanMembers(x);
    assert forall ch :: ch in c && IsWs(ch) ==> ch == ' ' by {
      CollapseWsSpacing(ReplaceTabs(x));
    }
    assert forall ch :: ch in k ==> IsAllowed(ch) || IsWs(ch);
  }

  /** Every output character occurs both after pass 2 and after pass 5. */
  lemma CleanMembers(x: string)
    ensures forall i :: 0 <= i < |Clean(x)| ==> Clean(x)[i] in CollapseWs(ReplaceTabs(x))
    ensures forall i :: 0 <= i < |Clean(x)| ==>
              Clean(x)[i] in KeepAllowed(RemoveCitations(RemoveUrls(CollapseWs(ReplaceTabs(x)))))
  {
    var c := CollapseWs(ReplaceTabs(x));
    var k := KeepAllowed(RemoveCitations(RemoveUrls(c)));
    CleanDeletes(x);
    StripDeletes(k);
    SubsequenceMembers(Clean(x), c);
    SubsequenceMembers(Clean(x), k);
  }

  /** After pass 2 every whitespace character is a plain space and no two
      of them are adjacent. */
  lemma {:induction false} CollapseWsSpacing(s: string)
    ensures forall i :: 0 <= i < |CollapseWs(s)| && IsWs(CollapseWs(s)[i]) ==> CollapseWs(s)[i] == ' '
    ensures forall i :: 0 <= i < |CollapseWs(s)| - 1 ==> !(IsWs(CollapseWs(s)[i]) && IsWs(CollapseWs(s)[i + 1]))
    decreases |s|
  {
    if s != [] {
      var rest := if IsWs(s[0]) then s[LeadingWs(s)..] else s[1..];
      CollapseWsSpacing(rest);
      var r := CollapseWs(s);
      assert r == [if IsWs(s[0]) then ' ' else s[0]] + CollapseWs(rest);
      assert forall i :: 1 <= i < |r| ==> r[i] == CollapseWs(rest)[i - 1];
    }
  }

  /** The non-whitespace characters of a string, in order. */
  function NonWsChars(s: string): string
    decreases |s|
  {
    if s == [] then [] else (if IsWs(s[0]) then [] else [s[0]]) + NonWsChars(s[1..])
  }

  lemma NonWsCharsCons(c: char, x: string)
    ensures NonWsChars([c] + x) == (if IsWs(c) then [] else [c]) + NonWsChars(x)
  {
    assert ([c] + x)[1..] == x;
  }

  /** Dropping a whitespace prefix keeps the non-whitespace characters. */
  lemma {:induction false} NonWsCharsSkip(s: string, k: nat)
    requires k <= |s| && forall i :: 0 <= i < k ==> IsWs(s[i])
    ensures NonWsChars(s[k..]) == NonWsChars(s)
    decreases k
  {
    if k > 0 {
      NonWsCharsSkip(s[1..], k - 1);
      DropDrop(s, k);
    }
  }

  /** Pass 2 keeps every non-whitespace character, in order: only
      whitespace runs are rewritten. */
  lemma {:induction false} CollapseWsKeepsNonWs(s: string)
    ensures NonWsChars(CollapseWs(s)) == NonWsChars(s)
    decreases |s|
  {
    if s != [] {
      if IsWs(s[0]) {
        var t := s[LeadingWs(s)..];
        CollapseWsKeepsNonWs(t);
        NonWsCharsCons(' ', CollapseWs(t));
        NonWsCharsSkip(s, LeadingWs(s));
      } else {
        CollapseWsKeepsNonWs(s[1..]);
        NonWsCharsCons(s[0], CollapseWs(s[1..]));
      }
    }
  }

  /** Empty and whitespace-only inputs clean to the empty string. */
  lemma CleanBlank(x: string)
    requires forall i :: 0 <= i < |x| ==> IsWs(x[i])
    ensures Clean(x) == ""
  {
    var t := ReplaceTabs(x);
    assert forall i :: 0 <= i < |t| ==> IsWs(t[i]);
    if x != [] {
      assert LeadingWs(t) == |t|;
      assert CollapseWs(t) == [' '] + CollapseWs([]);
      assert RemoveUrls(" ") == [' '] + RemoveUrls([]);
      assert RemoveCitations(" ") == [' '] + RemoveCitations([]);
      assert KeepAllowed(" ") == [' '] + KeepAllowed([]);
      var r := Strip(" ");
      assert r == [] || r == " ";
    }
  }

  // ---------------------------------------------------------------------
  // When a pass changes nothing
  // ---------------------------------------------------------------------

  lemma NoTabsUnchanged(s: string)
    requires '\t' !in s
    ensures ReplaceTabs(s) == s
  {
    assert forall i :: 0 <= i < |s| ==> s[i] != '\t';
  }

  /** Pass 2 is the identity exactly on text whose whitespace is single
      spaces. */
  lemma {:induction false} CollapseWsUnchanged(s: string)
    requires forall i :: 0 <= i < |s| && IsWs(s[i]) ==> s[i] == ' '
    requires forall i :: 0 <= i < |s| - 1 ==> !(IsWs(s[i]) && IsWs(s[i + 1]))
    ensures CollapseWs(s) == s
    decreases |s|
  {
    if s != [] {
      assert forall i :: 0 <= i < |s| - 1 ==> s[1..][i] == s[i + 1];
      CollapseWsUnchanged(s[1..]);
      if IsWs(s[0]) {
        assert LeadingWs(s) == 1;
      }
      assert CollapseWs(s) == [s[0]] + s[1..];
      HeadTail(s);
    }
  }

  /** Pass 2 keeps the length only if no two whitespace characters are
      adjacent. */
  lemma {:induction false} CollapseWsSameLength(s: string)
    requires |CollapseWs(s)| == |s|
    ensures forall i :: 0 <= i < |s| - 1 ==> !(IsWs(s[i]) && IsWs(s[i + 1]))
    decreases |s|
  {
    if s != [] {
      if IsWs(s[0]) {
        var n := LeadingWs(s);
        assert n == 1;
      }
      CollapseWsSameLength(s[1..]);
      assert forall i :: 1 <= i < |s| - 1 ==> s[1..][i - 1] == s[i] && s[1..][i] == s[i + 1];
    }
  }

  /** Pass 3 keeps the length exactly when the text holds no URL match, and
      then it changes nothing. */
  lemma {:induction false} RemoveUrlsSameLength(s: string)
    ensures |RemoveUrls(s)| == |s| <==> (forall i :: 0 <= i < |s| ==> !UrlAt(s[i..]))
    ensures |RemoveUrls(s)| == |s| ==> RemoveUrls(s) == s
    decreases |s|
  {
    if s == [] {
    } else if UrlAt(s) {
      assert UrlAt(s[0..]);
    } else {
      RemoveUrlsSameLength(s[1..]);
      forall i | 1 <= i < |s| ensures s[1..][i - 1..] == s[i..] { DropDrop(s, i); }
      assert !UrlAt(s[0..]);
      HeadTail(s);
    }
  }

  /** Pass 4 keeps the length exactly when the text holds no bracketed
      number, and then it changes nothing. */
  lemma {:induction false} RemoveCitationsSameLength(s: string)
    ensures |RemoveCitations(s)| == |s| <==> (forall i :: 0 <= i < |s| ==> !CitationAt(s[i..]))
    ensures |RemoveCitations(s)| == |s| ==> RemoveCitations(s) == s
    decreases |s|
  {
    if s == [] {
    } else if CitationAt(s) {
      assert CitationAt(s[0..]);
    } else {
      RemoveCitationsSameLength(s[1..]);
      forall i | 1 <= i < |s| ensures s[1..][i - 1..] == s[i..] { DropDrop(s, i); }
      assert !CitationAt(s[0..]);
      HeadTail(s);
    }
  }

  /** Pass 5 keeps the length exactly when every character is allowed or
      whitespace, and then it changes nothing. */
  lemma {:induction false} KeepAllowedSameLength(s: string)
    ensures |KeepAllowed(s)| == |s| <==> (forall i :: 0 <= i < |s| ==> IsAllowed(s[i]) || IsWs(s[i]))
    ensures |KeepAllowed(s)| == |s| ==> KeepAllowed(s) == s
    decreases |s|
  {
    if s != [] {
      KeepAllowedSameLength(s[1..]);
      assert forall i :: 1 <= i < |s| ==> s[1..][i - 1] == s[i];
      if IsAllowed(s[0]) || IsWs(s[0]) {
        assert KeepAllowed(s) == [s[0]] + KeepAllowed(s[1..]);
        HeadTail(s);
      }
    }
  }

  lemma StripUnchanged(s: string)
    requires s == [] || (!IsWs(s[0]) && !IsWs(s[|s| - 1]))
    ensures Strip(s) == s
  {
    if s != [] {
      assert LeadingWs(s) == 0;
      assert |Strip(s)| == |s|;
    }
  }

  /** Text already in clean form passes through every pass unchanged. */
  lemma CleanKeepsCleanForm(x: string)
    requires IsCleanForm(x)
    ensures Clean(x) == x
  {
    SpacingCleanForm(x);
    NoUrlUnchanged(x);
    NoCitationUnchanged(x);
    KeepAllowedCleanForm(x);
    EndsCleanForm(x);
    StripUnchanged(x);
  }

  lemma EndsCleanForm(x: string)
    requires forall i :: 0 <= i < |x| ==> IsAllowed(x[i]) || x[i] == ' '
    requires x == [] || (x[0] != ' ' && x[|x| - 1] != ' ')
    ensures x == [] || (!IsWs(x[0]) && !IsWs(x[|x| - 1]))
  {
    AllowedOrSpace(x);
  }

  /** Pass 3 leaves text with no URL match alone. */
  lemma NoUrlUnchanged(s: string)
    requires forall i :: 0 <= i < |s| ==> !UrlAt(s[i..])
    ensures RemoveUrls(s) == s
  {
    RemoveUrlsSameLength(s);
  }

  /** Pass 4 leaves text with no bracketed number alone. */
  lemma NoCitationUnchanged(s: string)
    requires forall i :: 0 <= i < |s| ==> !CitationAt(s[i..])
    ensures RemoveCitations(s) == s
  {
    RemoveCitationsSameLength(s);
  }

  lemma SpacingCleanForm(x: string)
    requires forall i :: 0 <= i < |x| ==> IsAllowed(x[i]) || x[i] == ' '
    requires forall i :: 0 <= i < |x| - 1 ==> !(x[i] == ' ' && x[i + 1] == ' ')
    ensures CollapseWs(ReplaceTabs(x)) == x
  {
    AllowedOrSpace(x);
    NoTabsUnchanged(x);
    CollapseWsUnchanged(x);
  }

  lemma KeepAllowedCleanForm(x: string)
    requires forall i :: 0 <= i < |x| ==> IsAllowed(x[i]) || x[i] == ' '
    ensures KeepAllowed(x) == x
  {
    KeepAllowedSameLength(x);
  }

  /** If the cleaner returns its input, pass 2 to pass 4 keep the length. */
  lemma CleanFixedKeepsLengths(x: string)
    requires Clean(x) == x
    ensures |CollapseWs(ReplaceTabs(x))| == |x|
    ensures |RemoveUrls(CollapseWs(ReplaceTabs(x)))| == |x|
    ensures |RemoveCitations(RemoveUrls(CollapseWs(ReplaceTabs(x))))| == |x|
  {
    var k := KeepAllowed(RemoveCitations(RemoveUrls(CollapseWs(ReplaceTabs(x)))));
    StripDeletes(k);
    SubsequenceLength(Clean(x), k);
  }

  /** Allowed characters are not whitespace. */
  lemma AllowedOrSpace(x: string)
    requires forall i :: 0 <= i < |x| ==> IsAllowed(x[i]) || x[i] == ' '
    ensures '\t' !in x
    ensures forall i :: 0 <= i < |x| && IsWs(x[i]) ==> x[i] == ' '
  {
  }

  /** If the cleaner returns its input, and that input's only whitespace is
      plain spaces, then passes 2 to 4 found nothing to do. */
  lemma CleanFixedPasses(x: string)
    requires Clean(x) == x
    requires '\t' !in x
    requires forall i :: 0 <= i < |x| && IsWs(x[i]) ==> x[i] == ' '
    ensures forall i :: 0 <= i < |x| - 1 ==> !(x[i] == ' ' && x[i + 1] == ' ')
    ensures forall i :: 0 <= i < |x| ==> !UrlAt(x[i..])
    ensures forall i :: 0 <= i < |x| ==> !CitationAt(x[i..])
  {
    CleanFixedKeepsLengths(x);
    NoTabsUnchanged(x);
    assert |CollapseWs(x)| == |x|;
    CollapseWsSameLength(x);
    CollapseWsUnchanged(x);
    assert |RemoveUrls(x)| == |x|;
    RemoveUrlsSameLength(x);
    assert |RemoveCitations(x)| == |x|;
    RemoveCitationsSameLength(x);
  }

  /** Text that the cleaner leaves unchanged is in clean form: a pass that
      changed anything would have shortened it, and no later pass lengthens. */
  lemma CleanFixedIsCleanForm(x: string)
    requires Clean(x) == x
    ensures IsCleanForm(x)
  {
    CleanOutputShape(x);
    AllowedOrSpace(x);
    CleanFixedPasses(x);
  }

  /** The fixed points of the cleaner are exactly the strings in clean form. */
  lemma CleanFixedPoint(x: string)
    ensures Clean(x) == x <==> IsCleanForm(x)
  {
    if IsCleanForm(x) { CleanKeepsCleanForm(x); }
    if Clean(x) == x { CleanFixedIsCleanForm(x); }
  }

  // ---------------------------------------------------------------------
  // The URL pass leaves no URL match behind
  // ---------------------------------------------------------------------

  /** What pass 3 produces after a deletion starts with whitespace. */
  lemma RemoveUrlsAfterMatch(t: string)
    requires UrlAt(t)
    ensures RemoveUrls(t) == [] || IsWs(RemoveUrls(t)[0])
  {
    var w := t[LeadingNonWs(t)..];
    if w != [] {
      assert IsWs(w[0]);
      assert !UrlAt(w);
    }
  }

  /** As long as the output of pass 3 has no whitespace, it agrees with its
      input. */
  lemma {:induction false} RemoveUrlsHead(t: string, k: nat)
    ensures k <= |RemoveUrls(t)| && (forall i :: 0 <= i < k ==> !IsWs(RemoveUrls(t)[i]))
            ==> k <= |t| && RemoveUrls(t)[..k] == t[..k]
    decreases |t|
  {
    if t == [] || k == 0 {
    } else if UrlAt(t) {
      RemoveUrlsAfterMatch(t);
    } else {
      var r := RemoveUrls(t);
      var rest := RemoveUrls(t[1..]);
      assert r == [t[0]] + rest;
      RemoveUrlsHead(t[1..], k - 1);
      if k <= |r| && (forall i :: 0 <= i < k ==> !IsWs(r[i])) {
        assert forall i :: 0 <= i < k - 1 ==> rest[i] == r[i + 1];
        assert r[..k] == [t[0]] + rest[..k - 1];
        assert t[..k] == [t[0]] + t[1..][..k - 1];
      }
    }
  }

  /** Pass 3 cannot create a URL match at the front of text that had none. */
  lemma NoUrlAtFront(s: string)
    requires s != [] && !UrlAt(s)
    ensures !UrlAt(RemoveUrls(s))
  {
    assert RemoveUrls(s) == [s[0]] + RemoveUrls(s[1..]);
    UrlAtFrontFrom(s);
  }

  /** A URL match at the front of the output after a kept first character
      was already a match in the input. */
  lemma UrlAtFrontFrom(s: string)
    requires s != []
    ensures UrlAt([s[0]] + RemoveUrls(s[1..])) ==> UrlAt(s)
  {
    var rest := RemoveUrls(s[1..]);
    var r := [s[0]] + rest;
    if UrlAt(r) {
      assert forall i :: 0 <= i < 4 ==> rest[i] == r[i + 1];
      RemoveUrlsHead(s[1..], 4);
      assert s[1..][..4] == rest[..4];
      assert s[1] == r[1] && s[2] == r[2] && s[3] == r[3] && s[4] == r[4];
    }
  }

  /** No `http` followed by a non-whitespace character survives pass 3. */
  lemma {:induction false} RemoveUrlsComplete(s: string)
    ensures forall i :: 0 <= i < |RemoveUrls(s)| ==> !UrlAt(RemoveUrls(s)[i..])
    decreases |s|
  {
    if s == [] {
    } else if UrlAt(s) {
      RemoveUrlsComplete(s[LeadingNonWs(s)..]);
    } else {
      var r := RemoveUrls(s);
      var rest := RemoveUrls(s[1..]);
      assert r == [s[0]] + rest;
      RemoveUrlsComplete(s[1..]);
      NoUrlAtFront(s);
      forall i | 0 <= i < |r| ensures !UrlAt(r[i..]) {
        if i == 0 {
          assert r[0..] == r;
        } else {
          assert r[i..] == rest[i - 1..];
        }
      }
    }
  }

  // ---------------------------------------------------------------------
  // The passes work piece by piece between whitespace boundaries
  // ---------------------------------------------------------------------

  lemma ReplaceTabsConcat(a: string, b: string)
    ensures ReplaceTabs(a + b) == ReplaceTabs(a) + ReplaceTabs(b)
  {
    assert forall i :: |a| <= i < |a + b| ==> (a + b)[i] == b[i - |a|];
  }

  lemma {:induction false} LeadingWsConcat(a: string, b: string)
    requires b == [] || !IsWs(b[0])
    ensures LeadingWs(a + b) == (if LeadingWs(a) == |a| then |a| else LeadingWs(a))
    decreases |a|
  {
    if a == [] {
      assert a + b == b;
    } else {
      assert (a + b)[1..] == a[1..] + b;
      if IsWs(a[0]) { LeadingWsConcat(a[1..], b); }
    }
  }

  /** A whitespace run at the front of `a` stays the same run in `a + b`. */
  lemma CollapseWsRunConcat(a: string, b: string)
    requires a != [] && IsWs(a[0])
    requires b == [] || !IsWs(b[0])
    ensures CollapseWs(a + b) == [' '] + CollapseWs(a[LeadingWs(a)..] + b)
  {
    var n := LeadingWs(a);
    var s := a + b;
    assert CollapseWs(s) == [' '] + CollapseWs(s[LeadingWs(s)..]) by {
      assert s[0] == a[0];
    }
    assert LeadingWs(s) == n by {
      LeadingWsConcat(a, b);
    }
    DropConcat(a, b, n);
  }

  /** Pass 2 can be applied separately on either side of a boundary that is
      followed by a non-whitespace character. */
  lemma {:induction false} CollapseWsConcat(a: string, b: string)
    requires b == [] || !IsWs(b[0])
    ensures CollapseWs(a + b) == CollapseWs(a) + CollapseWs(b)
    decreases |a|
  {
    if a == [] {
      assert a + b == b;
    } else if IsWs(a[0]) {
      var n := LeadingWs(a);
      CollapseWsRunConcat(a, b);
      assert CollapseWs(a) == [' '] + CollapseWs(a[n..]);
      CollapseWsConcat(a[n..], b);
      ConcatAssoc([' '], CollapseWs(a[n..]), CollapseWs(b));
    } else {
      assert CollapseWs(a + b) == [a[0]] + CollapseWs(a[1..] + b) by {
        DropConcat(a, b, 1);
      }
      assert CollapseWs(a) == [a[0]] + CollapseWs(a[1..]);
      CollapseWsConcat(a[1..], b);
      ConcatAssoc([a[0]], CollapseWs(a[1..]), CollapseWs(b));
    }
  }

  lemma {:induction false} LeadingNonWsConcat(a: string, b: string)
    requires a != [] && IsWs(a[|a| - 1])
    ensures LeadingNonWs(a + b) == LeadingNonWs(a) < |a|
    decreases |a|
  {
    assert (a + b)[1..] == a[1..] + b;
    if |a| > 1 && !IsWs(a[0]) { LeadingNonWsConcat(a[1..], b); }
  }

  lemma {:induction false} LeadingDigitsConcat(a: string, b: string)
    requires a != [] && IsWs(a[|a| - 1])
    ensures LeadingDigits(a + b) == LeadingDigits(a) < |a|
    decreases |a|
  {
    assert (a + b)[1..] == a[1..] + b;
    if |a| > 1 && IsDigit(a[0]) { LeadingDigitsConcat(a[1..], b); }
  }

  /** Pass 3 can be applied separately on either side of a boundary that is
      preceded by whitespace: no match spans whitespace. */
  lemma {:induction false} RemoveUrlsConcat(a: string, b: string)
    requires a == [] || IsWs(a[|a| - 1])
    ensures RemoveUrls(a + b) == RemoveUrls(a) + RemoveUrls(b)
    decreases |a|
  {
    if a == [] {
      assert a + b == b;
    } else {
      assert UrlAt(a + b) <==> UrlAt(a) by {
        if UrlAt(a + b) { assert |a| >= 5; }
      }
      if UrlAt(a) {
        var n := LeadingNonWs(a);
        assert RemoveUrls(a + b) == RemoveUrls(a[n..] + b) by {
          LeadingNonWsConcat(a, b);
          DropConcat(a, b, n);
        }
        RemoveUrlsConcat(a[n..], b);
      } else {
        assert RemoveUrls(a + b) == [a[0]] + RemoveUrls(a[1..] + b) by {
          DropConcat(a, b, 1);
        }
        RemoveUrlsConcat(a[1..], b);
        ConcatAssoc([a[0]], RemoveUrls(a[1..]), RemoveUrls(b));
      }
    }
  }

  lemma CitationAtConcat(a: string, b: string)
    requires a != [] && IsWs(a[|a| - 1])
    ensures CitationAt(a + b) <==> CitationAt(a)
  {
    if |a| > 1 {
      assert (a + b)[1..] == a[1..] + b;
      LeadingDigitsConcat(a[1..], b);
    }
  }

  /** Pass 4 can be applied separately on either side of a boundary that is
      preceded by whitespace. */
  lemma {:induction false} RemoveCitationsConcat(a: string, b: string)
    requires a == [] || IsWs(a[|a| - 1])
    ensures RemoveCitations(a + b) == RemoveCitations(a) + RemoveCitations(b)
    decreases |a|
  {
    if a == [] {
      assert a + b == b;
    } else if CitationAt(a) {
      var n := 2 + LeadingDigits(a[1..]);
      RemoveCitationsSkipConcat(a, b);
      RemoveCitationsConcat(a[n..], b);
    } else {
      RemoveCitationsKeepConcat(a, b);
      RemoveCitationsConcat(a[1..], b);
      ConcatAssoc([a[0]], RemoveCitations(a[1..]), RemoveCitations(b));
    }
  }

  lemma RemoveCitationsSkipConcat(a: string, b: string)
    requires a != [] && IsWs(a[|a| - 1]) && CitationAt(a)
    ensures RemoveCitations(a + b) == RemoveCitations(a[2 + LeadingDigits(a[1..])..] + b)
    ensures RemoveCitations(a) == RemoveCitations(a[2 + LeadingDigits(a[1..])..])
  {
    var n := 2 + LeadingDigits(a[1..]);
    CitationAtConcat(a, b);
    DropConcat(a, b, 1);
    LeadingDigitsConcat(a[1..], b);
    DropConcat(a, b, n);
  }

  lemma RemoveCitationsKeepConcat(a: string, b: string)
    requires a != [] && IsWs(a[|a| - 1]) && !CitationAt(a)
    ensures RemoveCitations(a + b) == [a[0]] + RemoveCitations(a[1..] + b)
    ensures RemoveCitations(a) == [a[0]] + RemoveCitations(a[1..])
  {
    CitationAtConcat(a, b);
    DropConcat(a, b, 1);
  }

  lemma {:induction false} KeepAllowedConcat(a: string, b: string)
    ensures KeepAllowed(a + b) == KeepAllowed(a) + KeepAllowed(b)
    decreases |a|
  {
    if a == [] {
      assert a + b == b;
    } else {
      assert (a + b)[1..] == a[1..] + b;
      KeepAllowedConcat(a[1..], b);
    }
  }

  lemma {:induction false} CollapseWsEndsWs(s: string)
    requires s != [] && IsWs(s[|s| - 1])
    ensures CollapseWs(s) != [] && IsWs(CollapseWs(s)[|CollapseWs(s)| - 1])
    decreases |s|
  {
    var k := if IsWs(s[0]) then LeadingWs(s) else 1;
    var c := if IsWs(s[0]) then ' ' else s[0];
    CollapseWsStep(s);
    if k < |s| {
      assert s[k..][|s[k..]| - 1] == s[|s| - 1];
      CollapseWsEndsWs(s[k..]);
      LastOfConcat([c], CollapseWs(s[k..]));
    }
  }

  /** One step of pass 2. */
  lemma CollapseWsStep(s: string)
    requires s != []
    ensures CollapseWs(s) == [if IsWs(s[0]) then ' ' else s[0]]
                             + CollapseWs(s[if IsWs(s[0]) then LeadingWs(s) else 1..])
  {
  }

  lemma LastOfConcat(x: string, y: string)
    requires y != []
    ensures (x + y)[|x + y| - 1] == y[|y| - 1]
  {
  }

  lemma {:induction false} RemoveUrlsEndsWs(s: string)
    requires s != [] && IsWs(s[|s| - 1])
    ensures RemoveUrls(s) != [] && IsWs(RemoveUrls(s)[|RemoveUrls(s)| - 1])
    decreases |s|
  {
    if UrlAt(s) {
      var n := LeadingNonWs(s);
      assert n < |s|;
      RemoveUrlsEndsWs(s[n..]);
    } else if |s| > 1 {
      RemoveUrlsEndsWs(s[1..]);
    }
  }

  /** Passes 1 to 5 work piece by piece: text may be split after whitespace
      that is followed by a non-whitespace character (or the end). */
  lemma NormaliseConcat(a: string, b: string)
    requires a != [] && IsWs(a[|a| - 1])
    requires b == [] || !IsWs(b[0])
    ensures Normalise(a + b) == Normalise(a) + Normalise(b)
  {
    ReplaceTabsConcat(a, b);
    var ta, tb := ReplaceTabs(a), ReplaceTabs(b);
    CollapseWsConcat(ta, tb);
    var ca, cb := CollapseWs(ta), CollapseWs(tb);
    CollapseWsEndsWs(ta);
    RemoveUrlsConcat(ca, cb);
    var ua, ub := RemoveUrls(ca), RemoveUrls(cb);
    RemoveUrlsEndsWs(ca);
    RemoveCitationsConcat(ua, ub);
    KeepAllowedConcat(RemoveCitations(ua), RemoveCitations(ub));
  }
}
