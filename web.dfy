/** Web augmentation: the per-URL text block of `get_website_content_from_url`
    and the evidence string of `search_web`.  The search engine and the page
    fetcher are external; what they return for each hit is given as a `Hit`. */
module Web {
  import opened Wrappers
  import opened Text

  /** What fetching and extracting one result URL produced. */
  datatype PageFetch =
    | Raised(message: string)      // an exception inside the `try`; `message` is `str(e)`
    | NotDownloaded                // `fetch_url` returned None
    | NothingExtracted             // `extract` returned nothing
    | Unparsable                   // the extractor's JSON did not parse
    | Document(title: Option<string>, text: Option<string>, rawText: Option<string>)
                                   // the keys present in the extractor's JSON

  /** One search result: its URL and what fetching it produced. */
  datatype Hit = Hit(url: string, fetch: PageFetch)

  const SuccessMarker := "Based on the following results:"
  const SuccessPrefix := SuccessMarker + "\n\n"
  /** What `search_web` returns when the concatenation is blank. */
  const NoResults := "No relevant " + "information found " + "from the web search."
  const BlockSeparator := "\n\n"
  const TitleHead := "=========== Website Title: "

  /** The content the extractor reported: `text`, else `raw_text`, else a placeholder. */
  function ContentOf(title: Option<string>, text: Option<string>, rawText: Option<string>): string {
    text.GetOr(rawText.GetOr("No content extracted"))
  }

  /** The block `get_website_content_from_url` returns for one URL.  Every block
      starts with visible text, and a page with extracted content carries that
      content and its URL under the title banner. */
  function PageBlock(url: string, fetch: PageFetch): (r: string)
    ensures r != [] && !IsSpace(r[0])
    ensures fetch.Document? && ContentOf(fetch.title, fetch.text, fetch.rawText) != [] ==>
              StartsWith(r, TitleHead) && Contains(r, url)
              && Contains(r, ContentOf(fetch.title, fetch.text, fetch.rawText))
  {
    match fetch
    case Raised(message) => ErrorHead + url + ": " + message
    case NotDownloaded => "Failed to fetch content from " + url
    case NothingExtracted => "No content could be extracted from " + url
    case Unparsable => "Failed to parse content from " + url
    case Document(title, text, rawText) =>
      var content := ContentOf(title, text, rawText);
      if content != [] then
        var head := TitleHead + title.GetOr("No title found") + UrlHead;
        BannerShape(head, url, content);
        head + url + ContentHead + content + ContentTail
      else
        "No content could be extracted from " + url
  }

  const UrlHead := " ===========\n\n=========== Website URL: "
  const ContentHead := " ===========\n\n=========== Website Content ===========\n\n"
  const ContentTail := "\n\n=========== Website Content End ===========\n\n"

  lemma BannerShape(head: string, url: string, content: string)
    requires StartsWith(head, TitleHead)
    ensures var r := head + url + ContentHead + content + ContentTail;
      StartsWith(r, TitleHead) && Contains(r, url) && Contains(r, content)
  {
    var r := head + url + ContentHead + content + ContentTail;
    assert r == head + url + (ContentHead + content + ContentTail);
    ContainsInfix(head, url, ContentHead + content + ContentTail);
    assert r == (head + url + ContentHead) + content + ContentTail;
    ContainsInfix(head + url + ContentHead, content, ContentTail);
  }

  /** The concatenation `result_string` that `search_web` accumulates: each hit's
      block followed by a blank line, in result order. */
  function Blocks(hits: seq<Hit>): string {
    if hits == [] then []
    else
      var last := hits[|hits| - 1];
      Blocks(hits[..|hits| - 1]) + PageBlock(last.url, last.fetch) + BlockSeparator
  }

  /** The value of `search_web`: the evidence behind the success prefix, or the
      "no relevant information" sentinel when the concatenation is blank. */
  function Evidence(hits: seq<Hit>): string {
    var blocks := Blocks(hits);
    if Strip(blocks) != [] then SuccessPrefix + blocks else NoResults
  }

  /** `search_web`, given the search engine's hits and what fetching each produced. */
  method SearchWeb(hits: seq<Hit>) returns (evidence: string)
    ensures evidence == Evidence(hits)
    ensures Contains(evidence, SuccessMarker) <==> hits != []
  {
    var resultString := "";
    var i := 0;
    while i < |hits|
      invariant 0 <= i <= |hits|
      invariant resultString == Blocks(hits[..i])
    {
      assert hits[..i + 1][..i] == hits[..i];
      var webInfo := PageBlock(hits[i].url, hits[i].fetch);
      resultString := resultString + webInfo + BlockSeparator;
      i := i + 1;
    }
    assert hits[..|hits|] == hits;
    if Strip(resultString) != [] {
      evidence := SuccessPrefix + resultString;
    } else {
      evidence := NoResults;
    }
    EvidenceMarkerIffHits(hits);
  }

  /** The direct-search rule of a turn: the search counts when the evidence
      carries the success marker, which is exactly when there were hits. */
  function DirectSearch(hits: seq<Hit>): (searched: bool)
    ensures searched <==> hits != []
  {
    EvidenceMarkerIffHits(hits);
    Contains(Evidence(hits), SuccessMarker)
  }

  /** The concatenation is blank exactly when there were no hits: every block
      starts with visible text. */
  lemma BlocksBlankIffNoHits(hits: seq<Hit>)
    ensures IsBlank(Blocks(hits)) <==> hits == []
  {
    if hits != [] {
      var last := hits[|hits| - 1];
      var prefix := Blocks(hits[..|hits| - 1]);
      var block := PageBlock(last.url, last.fetch);
      assert Blocks(hits)[|prefix|] == block[0];
    }
  }

  /** The sentinel has no `B`, the success marker's first letter. */
  lemma SentinelLacksMarkerInitial()
    ensures 'B' !in NoResults
  {
    assert 'B' !in "No relevant ";
    assert 'B' !in "information found ";
    assert 'B' !in "from the web search.";
  }

  /** The sentinel does not hold the success marker. */
  lemma SentinelLacksMarker()
    ensures !Contains(NoResults, SuccessMarker)
  {
    SentinelLacksMarkerInitial();
    assert SuccessMarker[0] == 'B';
    MissingCharNotContained(NoResults, SuccessMarker, 'B');
  }

  lemma PrefixedHasMarker(blocks: string)
    ensures Contains(SuccessPrefix + blocks, SuccessMarker)
  {
    assert SuccessPrefix + blocks == [] + SuccessMarker + (BlockSeparator + blocks);
    ContainsInfix([], SuccessMarker, BlockSeparator + blocks);
  }

  /** The substring test callers use to tell evidence from the sentinel holds
      exactly when the search engine returned hits. */
  lemma EvidenceMarkerIffHits(hits: seq<Hit>)
    ensures Contains(Evidence(hits), SuccessMarker) <==> hits != []
  {
    BlocksBlankIffNoHits(hits);
    if hits == [] {
      SentinelLacksMarker();
    } else {
      PrefixedHasMarker(Blocks(hits));
    }
  }

  /** The sentinel comes back exactly when the search engine returned no hits. */
  lemma EvidenceSentinelIffNoHits(hits: seq<Hit>)
    ensures Evidence(hits) == NoResults <==> hits == []
  {
    BlocksBlankIffNoHits(hits);
    EvidenceMarkerIffHits(hits);
    SentinelLacksMarker();
  }

  /** Every hit's block appears in the evidence, so no result is silently dropped. */
  lemma {:induction false} EvidenceCarriesEveryBlock(hits: seq<Hit>, i: nat)
    requires i < |hits|
    ensures Contains(Evidence(hits), PageBlock(hits[i].url, hits[i].fetch))
  {
    BlocksBlankIffNoHits(hits);
    BlocksCarryEveryBlock(hits, i);
    ContainsPrepend(SuccessPrefix, Blocks(hits), PageBlock(hits[i].url, hits[i].fetch));
  }

  lemma {:induction false} BlocksCarryEveryBlock(hits: seq<Hit>, i: nat)
    requires i < |hits|
    ensures Contains(Blocks(hits), PageBlock(hits[i].url, hits[i].fetch))
    decreases |hits|
  {
    var init := hits[..|hits| - 1];
    var last := hits[|hits| - 1];
    if i == |hits| - 1 {
      ContainsInfix(Blocks(init), PageBlock(last.url, last.fetch), BlockSeparator);
    } else {
      assert init[i] == hits[i];
      BlocksCarryEveryBlock(init, i);
      ContainsExtend(Blocks(init), PageBlock(last.url, last.fetch) + BlockSeparator, PageBlock(hits[i].url, hits[i].fetch));
      assert Blocks(hits) == Blocks(init) + (PageBlock(last.url, last.fetch) + BlockSeparator);
    }
  }

  /** `str(e)` for the NameError raised at the first line of the `try`:
      `use_config` is never imported. */
  const UseConfigError := "name 'use_config' " + "is not defined"

  /** `get_website_content_from_url` as the source is written: the call to the
      unimported `use_config` raises before anything is fetched, so every URL
      gets the generic error block whatever the page holds. */
  function PageBlockAsWritten(url: string): (r: string)
    ensures r != [] && !IsSpace(r[0])
    ensures StartsWith(r, ErrorHead)
  {
    ErrorHead + url + ": " + UseConfigError
  }

  /** The program as written is the intended one in the world where fetching
      every hit raises the NameError. */
  lemma AsWrittenIsRaised(url: string)
    ensures PageBlockAsWritten(url) == PageBlock(url, Raised(UseConfigError))
  {
  }

  const ErrorHead := "An error occurred " + "while processing "

  /** A page the extractor reads successfully contributes its content in the
      intended function, but not as the source is written. */
  lemma AsWrittenDropsContent()
    ensures var url := "https://example.org/flares";
            var fetch := Document(Some("Flares"), Some("Quasar"), None);
            Contains(PageBlock(url, fetch), "Quasar") && !Contains(PageBlockAsWritten(url), "Quasar")
  {
    var url := "https://example.org/flares";
    AsWrittenLacksSampleInitial(url);
    assert "Quasar"[0] == 'Q';
    MissingCharNotContained(PageBlockAsWritten(url), "Quasar", 'Q');
    PageBlockCarriesContent(url, Some("Flares"), "Quasar");
  }

  /** The as-written block has no `Q` (the first letter of the sample content)
      unless its URL has one. */
  lemma AsWrittenLacksSampleInitial(url: string)
    requires 'Q' !in url
    ensures 'Q' !in PageBlockAsWritten(url)
  {
    assert 'Q' !in "An error occurred ";
    assert 'Q' !in "while processing ";
    assert 'Q' !in ": ";
    assert 'Q' !in "name 'use_config' ";
    assert 'Q' !in "is not defined";
  }

  lemma PageBlockCarriesContent(url: string, title: Option<string>, content: string)
    requires content != []
    ensures Contains(PageBlock(url, Document(title, Some(content), None)), content)
  {
  }
}
