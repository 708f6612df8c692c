/**
 * Concrete consequences of the link filter for typical anchors of a
 * municipal web site: what is dropped, what is followed, and the two
 * case-sensitivity corners of the rules.
 */
module SpiderExamples {
  import opened Wrappers
  import opened Text
  import opened Settings
  import opened Spider

  /** A string that ends with a non-empty suffix ends with its last character. */
  lemma EndsWithLastChar(s: string, e: string)
    requires e != [] && EndsWith(s, e)
    ensures s[|s| - 1] == e[|e| - 1]
  {
    assert s[|s| - |e|..][|e| - 1] == s[|s| - 1];
  }

  /** A link without any `?` cannot have two of them. */
  lemma NoQuestionMark(link: string)
    requires '?' !in link
    ensures !TwoOccurrences(link, '?')
  {
    forall i | 0 <= i < |link| ensures link[i] != '?' {
      assert link[i] in link;
    }
  }

  /** Only links ending in g, f or s can carry an ignored extension. */
  lemma NoIgnoredExtension(link: string)
    requires link != [] && link[|link| - 1] !in {'g', 'f', 's'}
    ensures forall e :: e in IGNORED_EXTENSIONS ==> !EndsWith(link, e)
  {
    forall e | e in IGNORED_EXTENSIONS ensures !EndsWith(link, e) {
      if EndsWith(link, e) { EndsWithLastChar(link, e); }
    }
  }

  /** A mail link is dropped whatever its anchor text. */
  lemma MailtoRejected(anchorText: Option<string>)
    ensures !ShouldFollowLink("mailto:clerk@city.gov", anchorText)
  {
    assert StartsWith("mailto:clerk@city.gov", "mailto:");
  }

  /** An in-page fragment link is dropped whatever its anchor text. */
  lemma FragmentRejected(anchorText: Option<string>)
    ensures !ShouldFollowLink("#main", anchorText)
  {
    assert StartsWith("#main", "#");
  }

  /** An image link is dropped whatever its anchor text. */
  lemma PngRejected(anchorText: Option<string>)
    ensures !ShouldFollowLink("/docs/seal.png", anchorText)
  {
    assert EndsWith("/docs/seal.png", ".png");
    AnyEndsWithIff("/docs/seal.png", IGNORED_EXTENSIONS);
  }

  /** The same image with an upper-case extension is followed: the suffix test is case-sensitive. */
  lemma UpperCasePngFollowed()
    ensures ShouldFollowLink("/docs/seal.PNG", None)
  {
    FollowedWithout("/docs/seal.PNG", None);
  }

  /** Skip words match case-insensitively: an anchor reading "LOGIN" is dropped. */
  lemma UpperCaseSkipWordRejected()
    ensures !ShouldFollowLink("/account", Some("LOGIN"))
  {
    assert Lower("LOGIN") == "login";
    assert StartsWith(Lower("LOGIN"), "login");
    AnyOccursInIff(Lower("LOGIN"), SKIP_WORDS);
    ShouldFollowLinkIff("/account", Some("LOGIN"));
  }

  /** Every skip word contains one of the letters l, s, r, p, c, a, h. */
  lemma NoSkipWordWithout(text: string)
    requires 'l' !in text && 's' !in text && 'r' !in text && 'p' !in text
    requires 'c' !in text && 'a' !in text && 'h' !in text
    ensures forall w :: w in SKIP_WORDS ==> !Contains(text, w)
  {
    forall w | w in SKIP_WORDS ensures !Contains(text, w) {
      if w == "terms" { NotContainsMissingChar(text, w, 2); }
      else if w == "faq" { NotContainsMissingChar(text, w, 1); }
      else if w == "feedback" { NotContainsMissingChar(text, w, 6); }
      else { NotContainsMissingChar(text, w, 0); }
    }
  }

  /** Every social-media pattern ends in ".com", so a link without an 'm' contains none. */
  lemma NoNavPatternWithout(link: string)
    requires 'm' !in link
    ensures forall p :: p in NAV_PATTERNS ==> !Contains(link, p)
  {
    forall p | p in NAV_PATTERNS ensures !Contains(link, p) {
      NotContainsMissingChar(link, p, |p| - 1);
    }
  }

  /**
   * A link that ends in none of g, f, s, starts with none of '#', 'm', 't',
   * has no 'm' and no '?', and whose anchor text (if any) lacks the letters
   * l, s, r, p, c, a, h after lower-casing, passes all five rules.
   */
  lemma FollowedWithout(link: string, anchorText: Option<string>)
    requires link != [] && link[|link| - 1] !in {'g', 'f', 's'}
    requires link[0] !in {'#', 'm', 't'}
    requires 'm' !in link && '?' !in link
    requires HasAnchorText(anchorText) ==>
      var text := Lower(anchorText.value);
      'l' !in text && 's' !in text && 'r' !in text && 'p' !in text && 'c' !in text && 'a' !in text && 'h' !in text
    ensures ShouldFollowLink(link, anchorText)
  {
    ShouldFollowLinkIff(link, anchorText);
    NoIgnoredExtension(link);
    if HasAnchorText(anchorText) {
      NoSkipWordWithout(Lower(anchorText.value));
    }
    NoNavPatternWithout(link);
    NoQuestionMark(link);
  }

  /** A plain content link with an ordinary anchor text is followed. */
  lemma BudgetLinkFollowed(link: string, anchorText: string)
    requires link == "https://city.gov/budget" && anchorText == "Budget"
    ensures ShouldFollowLink(link, Some(anchorText))
  {
    assert Lower(anchorText) == "budget";
    FollowedWithout(link, Some(anchorText));
  }
}
