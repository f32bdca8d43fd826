/** The cleaner on text made of words separated by single spaces: plain
    words survive, URLs and bracketed numbers vanish but the spaces around
    them stay. From this follow the cleaned form of a sample document
    and inputs on which cleaning twice differs from cleaning once. */
module CleanerExamples {
  import opened Cleaner
  import opened CleanerProperties

  // ---------------------------------------------------------------------
  // Words
  // ---------------------------------------------------------------------

  predicate AllAllowed(w: string) {
    forall i :: 0 <= i < |w| ==> IsAllowed(w[i])
  }

  predicate NoWs(w: string) {
    forall i :: 0 <= i < |w| ==> !IsWs(w[i])
  }

  predicate AllDigits(w: string) {
    forall i :: 0 <= i < |w| ==> IsDigit(w[i])
  }

  /** A word the cleaner keeps: allowed characters only, and it cannot spell
      `http` because it lacks an `h` or a `p`. */
  predicate PlainWord(w: string) {
    w != [] && AllAllowed(w) && ('h' !in w || 'p' !in w)
  }

  /** A word that pass 3 deletes whole. */
  predicate UrlWord(w: string) {
    UrlAt(w) && NoWs(w)
  }

  /** A word that pass 4 deletes whole: `[`, digits, `]`. */
  predicate CitationWord(w: string) {
    |w| >= 3 && w[0] == '[' && w[|w| - 1] == ']' && AllDigits(w[1..|w| - 1])
  }

  predicate Word(w: string) {
    PlainWord(w) || UrlWord(w) || CitationWord(w)
  }

  predicate AllWords(ws: seq<string>) {
    forall i :: 0 <= i < |ws| ==> Word(ws[i])
  }

  /** The words separated by single spaces. */
  function Unwords(ws: seq<string>): string
    decreases |ws|
  {
    if ws == [] then []
    else if |ws| == 1 then ws[0]
    else Unwords(ws[..|ws| - 1]) + " " + ws[|ws| - 1]
  }

  /** What the cleaner leaves of one word. */
  function CleanWord(w: string): string {
    if PlainWord(w) then w else []
  }

  function CleanWords(ws: seq<string>): (r: seq<string>)
    ensures |r| == |ws|
  {
    seq(|ws|, i requires 0 <= i < |ws| => CleanWord(ws[i]))
  }

  // ---------------------------------------------------------------------
  // Facts about single words
  // ---------------------------------------------------------------------

  /** No word contains whitespace. */
  lemma WordNoWs(w: string)
    requires Word(w)
    ensures w != [] && forall i :: 0 <= i < |w| ==> !IsWs(w[i])
  {
    if CitationWord(w) {
      assert forall i :: 1 <= i < |w| - 1 ==> w[i] == w[1..|w| - 1][i - 1];
    }
  }

  lemma {:induction false} LeadingNonWsExact(s: string, k: nat)
    requires k <= |s| && (forall i :: 0 <= i < k ==> !IsWs(s[i])) && (k == |s| || IsWs(s[k]))
    ensures LeadingNonWs(s) == k
    decreases k
  {
    if k > 0 {
      assert forall i :: 0 <= i < k - 1 ==> s[1..][i] == s[i + 1];
      LeadingNonWsExact(s[1..], k - 1);
    }
  }

  lemma {:induction false} LeadingDigitsExact(s: string, k: nat)
    requires k < |s| && (forall i :: 0 <= i < k ==> IsDigit(s[i])) && !IsDigit(s[k])
    ensures LeadingDigits(s) == k
    decreases k
  {
    if k > 0 {
      assert forall i :: 0 <= i < k - 1 ==> s[1..][i] == s[i + 1];
      LeadingDigitsExact(s[1..], k - 1);
    }
  }

  /** Passes 1 and 2 leave a word without whitespace, optionally followed by
      a space, alone. */
  lemma SpacingUnchanged(w: string, tail: string)
    requires tail == "" || tail == " "
    requires forall i :: 0 <= i < |w| ==> !IsWs(w[i])
    ensures CollapseWs(ReplaceTabs(w + tail)) == w + tail
  {
    var s := w + tail;
    assert forall i :: 0 <= i < |w| ==> s[i] == w[i];
    assert forall i :: |w| <= i < |s| ==> s[i] == ' ';
    assert '\t' !in s;
    NoTabsUnchanged(s);
    CollapseWsUnchanged(s);
  }

  /** A plain word, optionally followed by a space, holds no URL match. */
  lemma PlainWordNoUrl(w: string, tail: string)
    requires tail == "" || tail == " "
    requires PlainWord(w)
    ensures forall i :: 0 <= i < |w + tail| ==> !UrlAt((w + tail)[i..])
  {
    var s := w + tail;
    forall i | 0 <= i < |s| ensures !UrlAt(s[i..]) {
      if 'h' !in w {
        assert s[i..][0] == s[i];
        if i < |w| { assert s[i] == w[i]; assert w[i] in w; }
      } else if i + 3 < |s| {
        assert s[i..][3] == s[i + 3];
        if i + 3 < |w| { assert s[i + 3] == w[i + 3]; assert w[i + 3] in w; }
      }
    }
  }

  /** A word without `[`, optionally followed by a space, holds no
      bracketed number. */
  lemma PlainWordNoCitation(w: string, tail: string)
    requires tail == "" || tail == " "
    requires PlainWord(w)
    ensures forall i :: 0 <= i < |w + tail| ==> !CitationAt((w + tail)[i..])
  {
    var s := w + tail;
    forall i | 0 <= i < |s| ensures !CitationAt(s[i..]) {
      assert s[i..][0] == s[i];
      if i < |w| { assert s[i] == w[i]; }
    }
  }

  lemma PlainWordKept(w: string, tail: string)
    requires tail == "" || tail == " "
    requires PlainWord(w)
    ensures Normalise(w + tail) == w + tail
  {
    var s := w + tail;
    SpacingUnchanged(w, tail);
    PlainWordNoUrl(w, tail);
    RemoveUrlsSameLength(s);
    PlainWordNoCitation(w, tail);
    RemoveCitationsSameLength(s);
    assert forall i :: 0 <= i < |s| ==> IsAllowed(s[i]) || IsWs(s[i]) by {
      forall i | 0 <= i < |s| ensures IsAllowed(s[i]) || IsWs(s[i]) {
        if i < |w| { assert s[i] == w[i]; }
      }
    }
    KeepAllowedSameLength(s);
  }

  lemma UrlWordDeleted(w: string, tail: string)
    requires tail == "" || tail == " "
    requires UrlWord(w)
    ensures Normalise(w + tail) == tail
  {
    var s := w + tail;
    SpacingUnchanged(w, tail);
    assert RemoveUrls(s) == RemoveUrls(tail) by {
      assert forall i :: 0 <= i < |w| ==> s[i] == w[i];
      assert UrlAt(s);
      LeadingNonWsExact(s, |w|);
      DropConcat(w, tail, |w|);
      assert w[|w|..] == [];
    }
    TailUnchanged(tail);
  }

  /** A bracketed number, optionally followed by a space, holds no URL
      match. */
  lemma CitationWordNoUrl(w: string, tail: string)
    requires tail == "" || tail == " "
    requires CitationWord(w)
    ensures forall i :: 0 <= i < |w + tail| ==> !UrlAt((w + tail)[i..])
  {
    var s := w + tail;
    var d := w[1..|w| - 1];
    forall i | 0 <= i < |s| ensures !UrlAt(s[i..]) {
      assert s[i..][0] == s[i];
      if 0 < i < |w| - 1 { assert s[i] == d[i - 1]; }
    }
  }

  lemma CitationWordDeleted(w: string, tail: string)
    requires tail == "" || tail == " "
    requires CitationWord(w)
    ensures Normalise(w + tail) == tail
  {
    var s := w + tail;
    assert CollapseWs(ReplaceTabs(s)) == s by {
      WordNoWs(w);
      SpacingUnchanged(w, tail);
    }
    assert RemoveUrls(s) == s by {
      CitationWordNoUrl(w, tail);
      RemoveUrlsSameLength(s);
    }
    assert RemoveCitations(s) == RemoveCitations(tail) by {
      CitationWordMatch(w, tail);
      DropConcat(w, tail, |w|);
      assert w[|w|..] == [];
    }
    TailUnchanged(tail);
  }

  /** The later passes leave an empty or one-space tail alone. */
  lemma TailUnchanged(tail: string)
    requires tail == "" || tail == " "
    ensures RemoveUrls(tail) == tail && RemoveCitations(tail) == tail && KeepAllowed(tail) == tail
  {
    if tail == " " {
      assert tail[1..] == [];
    }
  }

  /** A bracketed number is one whole match of pass 4. */
  lemma CitationWordMatch(w: string, tail: string)
    requires CitationWord(w)
    ensures CitationAt(w + tail) && 2 + LeadingDigits((w + tail)[1..]) == |w|
  {
    var s := w + tail;
    var d := w[1..|w| - 1];
    var t := s[1..];
    assert forall i :: 0 <= i < |d| ==> t[i] == d[i];
    assert t[|d|] == ']';
    LeadingDigitsExact(t, |d|);
  }

  /** Passes 1 to 5 on one word, optionally followed by a space. */
  lemma WordNormalised(w: string, tail: string)
    requires tail == "" || tail == " "
    requires Word(w)
    ensures Normalise(w + tail) == CleanWord(w) + tail
  {
    if PlainWord(w) {
      PlainWordKept(w, tail);
    } else if UrlWord(w) {
      UrlWordDeleted(w, tail);
    } else {
      CitationWordDeleted(w, tail);
    }
  }

  // ---------------------------------------------------------------------
  // Words separated by single spaces
  // ---------------------------------------------------------------------

  /** One more word after a space: the passes treat it by itself. */
  lemma NormaliseStep(x: string, w: string)
    requires Word(w)
    ensures Normalise(x + " " + w + " ") == Normalise(x + " ") + CleanWord(w) + " "
  {
    WordNoWs(w);
    assert x + " " + w + " " == (x + " ") + (w + " ");
    NormaliseConcat(x + " ", w + " ");
    WordNormalised(w, " ");
  }

  /** The last word after a space. */
  lemma NormaliseLast(x: string, w: string)
    requires Word(w)
    ensures Normalise(x + " " + w) == Normalise(x + " ") + CleanWord(w)
  {
    WordNoWs(w);
    NormaliseConcat(x + " ", w);
    WordNormalised(w, "");
    assert w + "" == w;
  }

  lemma {:induction false} UnwordsFirst(ws: seq<string>)
    requires ws != [] && ws[0] != []
    ensures Unwords(ws) != [] && Unwords(ws)[0] == ws[0][0]
    decreases |ws|
  {
    if |ws| > 1 {
      UnwordsFirst(ws[..|ws| - 1]);
    }
  }

  /** Passes 1 to 5 act on each word by itself: text made of words separated
      by single spaces loses its URL and bracketed-number words, and the
      spaces on both sides of each deleted word remain. */
  lemma {:induction false} NormaliseUnwords(ws: seq<string>)
    requires ws != [] && AllWords(ws)
    ensures Normalise(Unwords(ws)) == Unwords(CleanWords(ws))
    ensures Normalise(Unwords(ws) + " ") == Unwords(CleanWords(ws)) + " "
    decreases |ws|
  {
    var cs := CleanWords(ws);
    if |ws| == 1 {
      WordNormalised(ws[0], "");
      WordNormalised(ws[0], " ");
      assert ws[0] + "" == ws[0];
      assert cs[0] + "" == cs[0];
    } else {
      var init, last := ws[..|ws| - 1], ws[|ws| - 1];
      assert AllWords(init) by {
        forall i | 0 <= i < |init| ensures Word(init[i]) { assert init[i] == ws[i]; }
      }
      NormaliseUnwords(init);
      NormaliseStep(Unwords(init), last);
      NormaliseLast(Unwords(init), last);
      assert Unwords(cs) == Unwords(CleanWords(init)) + " " + CleanWord(last) by {
        assert cs[..|cs| - 1] == CleanWords(init);
      }
    }
  }

  /** When the first and the last word are kept, `Clean` deletes the URL and
      bracketed-number words and nothing else. */
  lemma CleanUnwords(ws: seq<string>)
    requires ws != [] && AllWords(ws) && PlainWord(ws[0]) && PlainWord(ws[|ws| - 1])
    ensures Clean(Unwords(ws)) == Unwords(CleanWords(ws))
  {
    NormaliseUnwords(ws);
    var cs := CleanWords(ws);
    assert cs[0] == ws[0];
    assert cs[|cs| - 1] == ws[|ws| - 1];
    WordNoWs(ws[0]);
    WordNoWs(ws[|ws| - 1]);
    UnwordsFirst(cs);
    StripUnchanged(Unwords(cs));
  }

  /** URLs and bracketed numbers are not plain words. */
  lemma DeletedWord(w: string)
    requires UrlWord(w) || CitationWord(w)
    ensures CleanWord(w) == []
  {
    if UrlWord(w) {
      assert w[0] == 'h' && w[3] == 'p';
    } else {
      assert !IsAllowed(w[0]);
    }
  }

  // ---------------------------------------------------------------------
  // A sample document
  // ---------------------------------------------------------------------

  /** The sample document, word by word: a sentence, a bracketed number, a
      word, a URL, two words. */
  lemma ExampleShape(w1: string, w2: string, w3: string, w4: string, w5: string, w6: string,
                     w7: string, w8: string, w9: string, w10: string, w11: string)
    requires PlainWord(w1) && PlainWord(w2) && PlainWord(w3) && PlainWord(w4)
    requires PlainWord(w5) && PlainWord(w6) && CitationWord(w7) && PlainWord(w8)
    requires UrlWord(w9) && PlainWord(w10) && PlainWord(w11)
    ensures Clean(w1 + " " + w2 + " " + w3 + " " + w4 + " " + w5 + " " + w6 + " " + w7 + " " + w8
                  + " " + w9 + " " + w10 + " " + w11)
         == w1 + " " + w2 + " " + w3 + " " + w4 + " " + w5 + " " + w6 + " " + "" + " " + w8
            + " " + "" + " " + w10 + " " + w11
  {
    var x2 := w1 + " " + w2;
    var x3 := x2 + " " + w3;
    var x4 := x3 + " " + w4;
    var x5 := x4 + " " + w5;
    var x6 := x5 + " " + w6;
    var x7 := x6 + " " + w7;
    var x8 := x7 + " " + w8;
    var x9 := x8 + " " + w9;
    var x10 := x9 + " " + w10;
    WordNormalised(w1, " ");
    NormaliseStep(w1, w2);
    NormaliseStep(x2, w3);
    NormaliseStep(x3, w4);
    NormaliseStep(x4, w5);
    NormaliseStep(x5, w6);
    NormaliseStep(x6, w7);
    NormaliseStep(x7, w8);
    NormaliseStep(x8, w9);
    NormaliseStep(x9, w10);
    NormaliseLast(x10, w11);
    DeletedWord(w7);
    DeletedWord(w9);
    var r := w1 + " " + w2 + " " + w3 + " " + w4 + " " + w5 + " " + w6 + " " + "" + " " + w8
             + " " + "" + " " + w10 + " " + w11;
    WordNoWs(w1);
    WordNoWs(w11);
    assert r[0] == w1[0];
    StripUnchanged(r);
  }

  lemma ExampleWordsFront()
    ensures PlainWord("Paris") && PlainWord("is") && PlainWord("the") && PlainWord("capital")
  {
  }

  lemma ExampleWordsBack()
    ensures PlainWord("of") && PlainWord("France.") && PlainWord("Visit")
    ensures PlainWord("for") && PlainWord("more.")
  {
  }

  lemma ExampleWordsDeleted()
    ensures CitationWord("[1]") && UrlWord("https://example.com")
  {
  }

  /** The sample document, split at its spaces. */
  lemma ExampleInputFront()
    ensures "Paris" + " " + "is" + " " + "the" + " " + "capital" + " " + "of" + " " + "France."
            == "Paris is the capital of France."
  {
    assert "Paris" + " " + "is" + " " + "the" == "Paris is the";
  }

  lemma ExampleInput()
    ensures "Paris" + " " + "is" + " " + "the" + " " + "capital" + " " + "of" + " " + "France."
            + " " + "[1]" + " " + "Visit" + " " + "https://example.com" + " " + "for" + " " + "more."
            == "Paris is the capital of France. [1] Visit https://example.com for more."
  {
    ExampleInputFront();
    assert "Paris is the capital of France." + " " + "[1]" + " " + "Visit"
        == "Paris is the capital of France. [1] Visit";
    assert "Paris is the capital of France. [1] Visit" + " " + "https://example.com"
        == "Paris is the capital of France. [1] Visit https://example.com";
  }

  lemma ExampleOutput()
    ensures "Paris" + " " + "is" + " " + "the" + " " + "capital" + " " + "of" + " " + "France."
            + " " + "" + " " + "Visit" + " " + "" + " " + "for" + " " + "more."
            == "Paris is the capital of France.  Visit  for more."
  {
    ExampleInputFront();
    assert "Paris is the capital of France." + " " + "" + " " + "Visit"
        == "Paris is the capital of France.  Visit";
  }

  /** The cleaned sample document: the bracketed number and the URL are
      gone, and each leaves behind the spaces on both of its sides. */
  lemma CleanExample()
    ensures Clean("Paris is the capital of France. [1] Visit https://example.com for more.")
         == "Paris is the capital of France.  Visit  for more."
  {
    ExampleWordsFront();
    ExampleWordsBack();
    ExampleWordsDeleted();
    ExampleShape("Paris", "is", "the", "capital", "of", "France.", "[1]", "Visit",
                 "https://example.com", "for", "more.");
    ExampleInput();
    ExampleOutput();
  }

  // ---------------------------------------------------------------------
  // `clean` is not idempotent
  // ---------------------------------------------------------------------

  /** Two kept words. */
  lemma TwoWords(w1: string, w2: string)
    requires PlainWord(w1) && PlainWord(w2)
    ensures Clean(w1 + " " + w2) == w1 + " " + w2
  {
    WordNormalised(w1, " ");
    NormaliseLast(w1, w2);
    WordNoWs(w1);
    WordNoWs(w2);
    StripUnchanged(w1 + " " + w2);
  }

  /** Two kept words around a third one, which is deleted when it is a URL or
      a bracketed number: both spaces around it remain. */
  lemma ThreeWords(w1: string, w2: string, w3: string)
    requires PlainWord(w1) && Word(w2) && PlainWord(w3)
    ensures Clean(w1 + " " + w2 + " " + w3) == w1 + " " + CleanWord(w2) + " " + w3
  {
    WordNormalised(w1, " ");
    NormaliseStep(w1, w2);
    NormaliseLast(w1 + " " + w2, w3);
    WordNoWs(w1);
    WordNoWs(w3);
    StripUnchanged(w1 + " " + CleanWord(w2) + " " + w3);
  }

  /** Pass 2 leaves a word without whitespace at the front of a string alone. */
  lemma {:induction false} CollapseWsAfterWord(w: string, t: string)
    requires NoWs(w)
    ensures CollapseWs(w + t) == w + CollapseWs(t)
    decreases |w|
  {
    if w == [] {
      assert w + t == t;
    } else {
      assert !IsWs(w[0]);
      assert (w + t)[1..] == w[1..] + t;
      assert NoWs(w[1..]) by {
        forall i | 0 <= i < |w[1..]| ensures !IsWs(w[1..][i]) { assert w[1..][i] == w[i + 1]; }
      }
      CollapseWsAfterWord(w[1..], t);
    }
  }

  /** Pass 1 leaves a word without whitespace and the spaces after it alone. */
  lemma ReplaceTabsAfterWord(w: string, sp: string, v: string)
    requires NoWs(w) && (sp == " " || sp == "  ")
    ensures ReplaceTabs(w + sp + v) == w + (sp + ReplaceTabs(v))
  {
    var p := w + sp;
    assert '\t' !in p by {
      forall i | 0 <= i < |p| ensures p[i] != '\t' {
        if i < |w| { assert p[i] == w[i] && !IsWs(w[i]); } else { assert p[i] == ' '; }
      }
    }
    NoTabsUnchanged(p);
    ReplaceTabsConcat(p, v);
    ConcatAssoc(w, sp, ReplaceTabs(v));
  }

  /** Pass 2 turns one or two spaces before a non-whitespace character into
      one. */
  lemma SpacesCollapse(t: string)
    requires t == [] || !IsWs(t[0])
    ensures CollapseWs("  " + t) == CollapseWs(" " + t)
  {
    LeadingWsConcat("  ", t);
    LeadingWsConcat(" ", t);
    assert ("  " + t)[2..] == t;
    assert (" " + t)[1..] == t;
  }

  /** A second space after a word makes no difference to `Clean`: pass 2
      collapses it before any later pass looks at the text. */
  lemma ExtraSpaceIgnored(w: string, v: string)
    requires NoWs(w)
    requires v == [] || !IsWs(v[0])
    ensures Clean(w + " " + " " + v) == Clean(w + " " + v)
  {
    var tv := ReplaceTabs(v);
    assert w + " " + " " + v == w + "  " + v;
    ReplaceTabsAfterWord(w, "  ", v);
    ReplaceTabsAfterWord(w, " ", v);
    CollapseWsAfterWord(w, "  " + tv);
    CollapseWsAfterWord(w, " " + tv);
    SpacesCollapse(tv);
  }

  lemma SmallWords()
    ensures PlainWord("a") && PlainWord("b") && CitationWord("[1]")
  {
  }

  lemma SmallTexts()
    ensures "a" + " " + "[1]" + " " + "b" == "a [1] b"
    ensures "a" + " " + "" + " " + "b" == "a  b"
    ensures "a" + " " + " " + "b" == "a  b"
    ensures "a" + " " + "b" == "a b"
  {
  }

  /** Deleting a bracketed number between two words leaves a double space. */
  lemma CleanCitationBetweenWords()
    ensures Clean("a [1] b") == "a  b"
  {
    SmallWords();
    ThreeWords("a", "[1]", "b");
    DeletedWord("[1]");
    SmallTexts();
  }

  /** A double space between two words becomes a single one. */
  lemma CleanDoubleSpace()
    ensures Clean("a  b") == "a b"
  {
    SmallWords();
    ExtraSpaceIgnored("a", "b");
    TwoWords("a", "b");
    SmallTexts();
  }

  /** `clean` is not idempotent: the double space left by a deleted
      bracketed number is collapsed by a second call. */
  lemma NotIdempotent()
    ensures Clean(Clean("a [1] b")) != Clean("a [1] b")
  {
    CleanCitationBetweenWords();
    CleanDoubleSpace();
  }

  // ---------------------------------------------------------------------
  // Deletions that create or break matches
  // ---------------------------------------------------------------------

  /** Passes 1 and 2 leave text without whitespace alone. */
  lemma NoWsSpacing(s: string)
    requires NoWs(s)
    ensures CollapseWs(ReplaceTabs(s)) == s
  {
    assert '\t' !in s by {
      forall i | 0 <= i < |s| ensures s[i] != '\t' { assert !IsWs(s[i]); }
    }
    NoTabsUnchanged(s);
    CollapseWsUnchanged(s);
  }

  /** A bracketed number inside another bracket: pass 4 deletes the inner
      one, and pass 5 then drops the brackets that are left. */
  lemma NestedCitations(d1: char, d2: char)
    requires IsDigit(d1) && IsDigit(d2)
    ensures RemoveCitations(['[', d1, '[', d2, ']', ']']) == ['[', d1, ']']
  {
    var s := ['[', d1, '[', d2, ']', ']'];
    LeadingDigitsExact(s[1..], 1);
    assert RemoveCitations(s) == ['['] + RemoveCitations(s[1..]);
    assert s[1..][1..] == s[2..];
    assert RemoveCitations(s[1..]) == [d1] + RemoveCitations(s[2..]);
    LeadingDigitsExact(s[2..][1..], 1);
    assert s[2..][3..] == [']'];
    assert RemoveCitations(s[2..]) == RemoveCitations([']']);
    assert [']'][1..] == [];
    assert RemoveCitations([']']) == [']'];
  }

  lemma NestedKept(d1: char)
    requires IsDigit(d1)
    ensures KeepAllowed(['[', d1, ']']) == [d1]
  {
    var x := ['[', d1, ']'];
    assert x[1..] == [d1, ']'] && x[1..][1..] == [']'] && [']'][1..] == [];
    assert KeepAllowed(x) == KeepAllowed([d1, ']']);
    assert KeepAllowed([d1, ']']) == [d1] + KeepAllowed([']']);
    assert KeepAllowed([']']) == [];
  }

  lemma NestedNoUrl(d1: char, d2: char)
    requires IsDigit(d1) && IsDigit(d2)
    ensures CollapseWs(ReplaceTabs(['[', d1, '[', d2, ']', ']'])) == ['[', d1, '[', d2, ']', ']']
    ensures RemoveUrls(['[', d1, '[', d2, ']', ']']) == ['[', d1, '[', d2, ']', ']']
  {
    var s := ['[', d1, '[', d2, ']', ']'];
    NoWsSpacing(s);
    assert forall i :: 0 <= i < |s| ==> s[i..][0] == s[i];
    NoUrlUnchanged(s);
  }

  lemma NestedNormalised(d1: char, d2: char)
    requires IsDigit(d1) && IsDigit(d2)
    ensures Clean(['[', d1, '[', d2, ']', ']']) == [d1]
  {
    NestedNoUrl(d1, d2);
    NestedCitations(d1, d2);
    NestedKept(d1);
    StripUnchanged([d1]);
  }

  /** `clean("[1[2]]")` is `"1"`. */
  lemma CleanNestedCitation()
    ensures Clean("[1[2]]") == "1"
  {
    NestedNormalised('1', '2');
  }

  /** Pass 4 runs after pass 3, so deleting a bracketed number can join the
      two halves of a URL that pass 3 did not see. */
  lemma JoinedUrlCitations(d: char, c: char)
    requires IsDigit(d)
    ensures RemoveCitations(['h', 't', 't', '[', d, ']', 'p', c]) == ['h', 't', 't', 'p', c]
  {
    var s := ['h', 't', 't', '[', d, ']', 'p', c];
    assert s[1..][1..] == s[2..] && s[2..][1..] == s[3..];
    assert RemoveCitations(s) == ['h'] + RemoveCitations(s[1..]);
    assert RemoveCitations(s[1..]) == ['t'] + RemoveCitations(s[2..]);
    assert RemoveCitations(s[2..]) == ['t'] + RemoveCitations(s[3..]);
    LeadingDigitsExact(s[3..][1..], 1);
    assert s[3..][3..] == ['p', c];
    assert RemoveCitations(s[3..]) == RemoveCitations(['p', c]);
    assert ['p', c][1..] == [c] && [c][1..] == [];
    assert RemoveCitations(['p', c]) == ['p'] + RemoveCitations([c]);
    assert RemoveCitations([c]) == [c];
  }

  lemma JoinedUrlNoUrl(d: char, c: char)
    requires IsDigit(d) && IsAllowed(c)
    ensures CollapseWs(ReplaceTabs(['h', 't', 't', '[', d, ']', 'p', c]))
         == ['h', 't', 't', '[', d, ']', 'p', c]
    ensures RemoveUrls(['h', 't', 't', '[', d, ']', 'p', c]) == ['h', 't', 't', '[', d, ']', 'p', c]
  {
    var s := ['h', 't', 't', '[', d, ']', 'p', c];
    assert !IsWs(c);
    NoWsSpacing(s);
    assert forall i :: 0 <= i < |s| ==> s[i..][0] == s[i];
    assert !UrlAt(s);
    NoUrlUnchanged(s);
  }

  lemma JoinedUrlKept(c: char)
    requires IsAllowed(c)
    ensures Strip(KeepAllowed(['h', 't', 't', 'p', c])) == ['h', 't', 't', 'p', c]
  {
    var t := ['h', 't', 't', 'p', c];
    assert forall i :: 0 <= i < |t| ==> IsAllowed(t[i]);
    KeepAllowedSameLength(t);
    assert !IsWs(c);
    StripUnchanged(t);
  }

  lemma JoinedUrlCleaned(d: char, c: char)
    requires IsDigit(d) && IsAllowed(c)
    ensures Clean(['h', 't', 't', '[', d, ']', 'p', c]) == ['h', 't', 't', 'p', c]
  {
    JoinedUrlNoUrl(d, c);
    JoinedUrlCitations(d, c);
    JoinedUrlKept(c);
  }

  lemma JoinedUrlDeleted(c: char)
    requires IsAllowed(c)
    ensures Clean(['h', 't', 't', 'p', c]) == []
  {
    var t := ['h', 't', 't', 'p', c];
    assert !IsWs(c);
    NoWsSpacing(t);
    LeadingNonWsExact(t, 5);
    assert UrlAt(t);
  }

  /** The second call deletes the URL that the first one assembled. */
  lemma JoinedUrlNotIdempotent()
    ensures Clean("htt[1]px") == "httpx"
    ensures Clean(Clean("htt[1]px")) == ""
  {
    JoinedUrlCleaned('1', 'x');
    JoinedUrlDeleted('x');
  }
}
