/**
 * The high-value-link spider (app/crawler/spiders/high_value_link_spider.py):
 * the link filter, the keyword matcher, the file-type fallback and the two
 * callbacks that turn a page into follow-up requests or into a scored item.
 *
 * The foreign libraries the spider calls are parameters: `trafilatura.extract`,
 * `urljoin`, `mimetypes.guess_type` and the language-model relevance score are
 * fields of `Libraries`, about which nothing is assumed.
 */
module Spider {
  import opened Wrappers
  import opened Text
  import opened Sequences
  import opened Settings

  /** Extracted text is capped to this many characters before it is scored. */
  const MAX_TEXT_CHARS: nat := 4000

  /** Anchor texts containing one of these (after lower-casing) are not followed. */
  const SKIP_WORDS: seq<string> := [
    "login", "sign in", "register", "privacy", "terms", "contact", "about", "faq",
    "help", "support", "cookie", "accessibility", "sitemap", "feedback"
  ]

  /** Links containing one of these (case-sensitively) are navigation or social media. */
  const NAV_PATTERNS: seq<string> :=
    ["facebook.com", "twitter.com", "linkedin.com", "instagram.com", "youtube.com"]

  /**
   * A downloaded page. `hrefs` and `anchorTexts` are what the selectors
   * `a::attr(href)` and `a::text` return, each in document order.
   */
  datatype Response = Response(url: string, body: string, hrefs: seq<string>, anchorTexts: seq<string>)

  /** Which spider callback handles the response of a request. */
  datatype Callback = ParseCallback | ParseLinkCallback

  datatype Request = Request(url: string, callback: Callback)

  /** The dictionary yielded for a scored page. */
  datatype Item = Item(url: string, relevanceScore: real, fileType: string, keywords: seq<string>, text: string)

  /**
   * The foreign functions the spider calls. `extract` gives `None` when
   * trafilatura finds no main text; `rankRelevance(text, url, keywords)` gives
   * `None` when the scoring call raises (network failure, a reply that is not
   * a float).
   */
  datatype Libraries = Libraries(
    extract: string -> Option<string>,
    urljoin: (string, string) -> string,
    guessType: string -> Option<string>,
    rankRelevance: (string, string, seq<string>) -> Option<real>)

  // ---------------------------------------------------------------------------
  // Link filter

  /** `any(link.endswith(ext) for ext in suffixes)` */
  function AnyEndsWith(link: string, suffixes: seq<string>): bool {
    if suffixes == [] then false
    else EndsWith(link, suffixes[0]) || AnyEndsWith(link, suffixes[1..])
  }

  lemma {:induction false} AnyEndsWithIff(link: string, suffixes: seq<string>)
    ensures AnyEndsWith(link, suffixes) <==> exists e :: e in suffixes && EndsWith(link, e)
  {
    if suffixes != [] {
      AnyEndsWithIff(link, suffixes[1..]);
      assert forall e :: e in suffixes <==> e == suffixes[0] || e in suffixes[1..];
    }
  }

  /** `any(word in text for word in words)` */
  function AnyOccursIn(text: string, words: seq<string>): bool {
    if words == [] then false
    else Contains(text, words[0]) || AnyOccursIn(text, words[1..])
  }

  lemma {:induction false} AnyOccursInIff(text: string, words: seq<string>)
    ensures AnyOccursIn(text, words) <==> exists w :: w in words && Contains(text, w)
  {
    if words != [] {
      AnyOccursInIff(text, words[1..]);
      if AnyOccursIn(text, words) {
        if Contains(text, words[0]) {
          assert words[0] in words;
        } else {
          var w :| w in words[1..] && Contains(text, w);
          assert w in words;
        }
      }
      assert forall w :: w in words ==> w == words[0] || w in words[1..];
    }
  }

  /** Python truthiness of the optional anchor text: present and non-empty. */
  predicate HasAnchorText(anchorText: Option<string>) {
    anchorText.Some? && anchorText.value != ""
  }

  /**
   * Whether a discovered anchor is followed: the five rejection rules in the
   * order the spider checks them.
   */
  function ShouldFollowLink(link: string, anchorText: Option<string>): bool {
    if AnyEndsWith(link, IGNORED_EXTENSIONS) then false
    else if StartsWith(link, "#") || StartsWith(link, "mailto:") || StartsWith(link, "tel:") then false
    else if HasAnchorText(anchorText) && AnyOccursIn(Lower(anchorText.value), SKIP_WORDS) then false
    else if AnyOccursIn(link, NAV_PATTERNS) then false
    else if CountChar(link, '?') > 1 then false
    else true
  }

  /**
   * A link is followed exactly when no rule rejects it: no ignored file
   * extension (case-sensitive suffix), not a fragment / `mailto:` / `tel:`
   * link, no skip word in the lower-cased anchor text (checked only when that
   * text is non-empty), no social-media domain in the link (case-sensitive),
   * and at most one `?`.
   */
  lemma ShouldFollowLinkIff(link: string, anchorText: Option<string>)
    ensures ShouldFollowLink(link, anchorText) <==>
      && (forall e :: e in IGNORED_EXTENSIONS ==> !EndsWith(link, e))
      && !StartsWith(link, "#") && !StartsWith(link, "mailto:") && !StartsWith(link, "tel:")
      && (HasAnchorText(anchorText) ==> forall w :: w in SKIP_WORDS ==> !Contains(Lower(anchorText.value), w))
      && (forall p :: p in NAV_PATTERNS ==> !Contains(link, p))
      && !TwoOccurrences(link, '?')
  {
    AnyEndsWithIff(link, IGNORED_EXTENSIONS);
    if HasAnchorText(anchorText) {
      AnyOccursInIff(Lower(anchorText.value), SKIP_WORDS);
    }
    AnyOccursInIff(link, NAV_PATTERNS);
    CountAboveOneIff(link, '?');
  }

  // ---------------------------------------------------------------------------
  // Keyword matcher

  /** Case-insensitive containment of one keyword in the text. */
  predicate KeywordMatches(text: string, keyword: string) {
    Contains(Lower(text), Lower(keyword))
  }

  /**
   * `[kw for kw in keywords if kw.lower() in text.lower()]`: the matching
   * keywords, in their original order and with their duplicates.
   */
  function ExtractKeywords(keywords: seq<string>, text: string): (r: seq<string>)
    ensures IsSubsequence(r, keywords)
    ensures forall kw :: kw in r <==> kw in keywords && KeywordMatches(text, kw)
    ensures forall kw :: multiset(r)[kw] == if KeywordMatches(text, kw) then multiset(keywords)[kw] else 0
  {
    var matches := (kw: string) => KeywordMatches(text, kw);
    FilterIsSubsequence(keywords, matches);
    forall kw ensures multiset(Filter(keywords, matches))[kw] == if matches(kw) then multiset(keywords)[kw] else 0 {
      FilterCount(keywords, matches, kw);
    }
    forall kw ensures kw in Filter(keywords, matches) <==> kw in keywords && matches(kw) {
      FilterMembership(keywords, matches, kw);
    }
    Filter(keywords, matches)
  }

  // ---------------------------------------------------------------------------
  // Item construction helpers

  /** `s[:n]` */
  function Truncate(s: string, n: nat): (r: string)
    ensures r <= s
    ensures |r| == Min(|s|, n)
  {
    if |s| <= n then s else s[..n]
  }

  /** `guess or "html"`: the guessed MIME type, or "html" when there is none. */
  function GuessFileType(guess: Option<string>): (r: string)
    ensures r != ""
    ensures r == "html" || (guess.Some? && r == guess.value)
    ensures guess.Some? && guess.value != "" ==> r == guess.value
  {
    if guess.Some? && guess.value != "" then guess.value else "html"
  }

  /** A (link, anchor text) pair from `zip(links, link_texts)` passes the filter. */
  predicate Followable(pair: (string, string)) {
    ShouldFollowLink(pair.0, Some(pair.1))
  }

  /** The followable pairs of a page, in anchor order. */
  function FollowedPairs(response: Response): seq<(string, string)> {
    Filter(Zip(response.hrefs, response.anchorTexts), Followable)
  }

  /** Every followed pair is one of the page's anchors, in order, and passes the filter. */
  lemma FollowedPairsSound(response: Response)
    ensures |FollowedPairs(response)| <= Min(|response.hrefs|, |response.anchorTexts|)
    ensures IsSubsequence(FollowedPairs(response), Zip(response.hrefs, response.anchorTexts))
    ensures forall i :: 0 <= i < Min(|response.hrefs|, |response.anchorTexts|) ==>
      ((response.hrefs[i], response.anchorTexts[i]) in FollowedPairs(response) <==>
         ShouldFollowLink(response.hrefs[i], Some(response.anchorTexts[i])))
  {
    var pairs := Zip(response.hrefs, response.anchorTexts);
    FilterIsSubsequence(pairs, Followable);
    forall i | 0 <= i < |pairs|
      ensures pairs[i] in FollowedPairs(response) <==> Followable(pairs[i])
    {
      FilterMembership(pairs, Followable, pairs[i]);
    }
  }

  // ---------------------------------------------------------------------------
  // The spider

  class HighValueLinkSpider {
    const startUrls: seq<string>
    const targetKeywords: seq<string>
    /** Set by the result collector when the spider closes; `None` until then. */
    var collectedItems: Option<seq<Item>>

    /** A missing or empty keyword list falls back to the default keywords. */
    constructor(startUrl: string, targetKeywords: Option<seq<string>>)
      ensures startUrls == [startUrl]
      ensures targetKeywords.Some? && targetKeywords.value != [] ==> this.targetKeywords == targetKeywords.value
      ensures targetKeywords.None? || targetKeywords.value == [] ==> this.targetKeywords == DEFAULT_TARGET_KEYWORDS
      ensures this.targetKeywords != []
      ensures collectedItems.None?
    {
      startUrls := [startUrl];
      this.targetKeywords :=
        if targetKeywords.Some? && targetKeywords.value != [] then targetKeywords.value
        else DEFAULT_TARGET_KEYWORDS;
      collectedItems := None;
    }

    /** One request per start URL, handled by `Parse`. */
    method StartRequests() returns (requests: seq<Request>)
      ensures |requests| == |startUrls|
      ensures forall i :: 0 <= i < |requests| ==> requests[i] == Request(startUrls[i], ParseCallback)
    {
      requests := [];
      for i := 0 to |startUrls|
        invariant |requests| == i
        invariant forall k :: 0 <= k < i ==> requests[k] == Request(startUrls[k], ParseCallback)
      {
        requests := requests + [Request(startUrls[i], ParseCallback)];
      }
    }

    /**
     * Pairs the page's links with its anchor texts by position and yields a
     * `ParseLink` request for the absolute form of every pair that passes
     * the link filter, in anchor order.
     */
    method Parse(response: Response, lib: Libraries) returns (requests: seq<Request>)
      ensures |requests| == |FollowedPairs(response)|
      ensures forall k :: 0 <= k < |requests| ==>
        requests[k] == Request(lib.urljoin(response.url, FollowedPairs(response)[k].0), ParseLinkCallback)
      ensures |requests| <= Min(|response.hrefs|, |response.anchorTexts|)
    {
      var pairs := Zip(response.hrefs, response.anchorTexts);
      requests := [];
      ghost var followed: seq<(string, string)> := [];
      var i := 0;
      while i < |pairs|
        invariant 0 <= i <= |pairs|
        invariant followed == Filter(pairs[..i], Followable)
        invariant |requests| == |followed|
        invariant forall k :: 0 <= k < |requests| ==>
          requests[k] == Request(lib.urljoin(response.url, followed[k].0), ParseLinkCallback)
      {
        var (link, text) := pairs[i];
        assert pairs[..i + 1] == pairs[..i] + [pairs[i]];
        FilterSnoc(pairs[..i], pairs[i], Followable);
        if Followable(pairs[i]) {
          requests := requests + [Request(lib.urljoin(response.url, link), ParseLinkCallback)];
          followed := followed + [pairs[i]];
        }
        i := i + 1;
      }
      assert pairs[..i] == pairs;
    }

    /**
     * Scores one followed page: the extracted text is capped to
     * `MAX_TEXT_CHARS` first, and both the score and the matched keywords are
     * computed from the capped text. No item is produced when extraction
     * finds nothing (slicing `None` raises) or when scoring raises.
     */
    method ParseLink(response: Response, lib: Libraries) returns (item: Option<Item>)
      ensures lib.extract(response.body).None? ==> item.None?
      ensures lib.extract(response.body).Some? ==>
        var text := Truncate(lib.extract(response.body).value, MAX_TEXT_CHARS);
        && (item.Some? <==> lib.rankRelevance(text, response.url, targetKeywords).Some?)
        && (item.Some? ==>
              && item.value.text == text
              && item.value.relevanceScore == lib.rankRelevance(text, response.url, targetKeywords).value
              && item.value.keywords == ExtractKeywords(targetKeywords, text))
      ensures item.Some? ==>
        && item.value.url == response.url
        && item.value.fileType == GuessFileType(lib.guessType(response.url))
        && item.value.text <= lib.extract(response.body).value
        && |item.value.text| <= MAX_TEXT_CHARS
        && (|lib.extract(response.body).value| <= MAX_TEXT_CHARS ==> item.value.text == lib.extract(response.body).value)
    {
      var extracted := lib.extract(response.body);
      if extracted.None? {
        return None;
      }
      var text := Truncate(extracted.value, MAX_TEXT_CHARS);
      var score := lib.rankRelevance(text, response.url, targetKeywords);
      if score.None? {
        return None;
      }
      item := Some(Item(
        response.url,
        score.value,
        GuessFileType(lib.guessType(response.url)),
        ExtractKeywords(targetKeywords, text),
        text));
    }
  }
}
