/**
 * `TestSpider` (scraping/scraping/spiders/test_spider.py): the concrete
 * spider whose `start_requests` turns every URL yielded by `next_url` into
 * one `scrapy.Request` with the inherited `parse` callback.
 */
module TestSpider {
  import opened Wrappers
  import opened FirestoreSpider

  /** One request per URL, in order, each carrying the URL unchanged. */
  function RequestsFor(urls: seq<string>): (r: seq<Request>)
    ensures |r| == |urls|
    ensures forall i :: 0 <= i < |urls| ==> r[i] == Request(urls[i], Parse)
  {
    if urls == [] then [] else [Request(urls[0], Parse)] + RequestsFor(urls[1..])
  }

  /**
   * `TestSpider.start_requests`, overriding the base class's: a loop over
   * `next_url()` that yields `scrapy.Request(url=url, callback=self.parse)`.
   * A failure of `next_url` propagates before any request is yielded.
   */
  method StartRequests(store: Store) returns (r: Result<seq<Request>, CrawlError>)
    ensures ResolveUrls(store).None? ==> r == Failure(NoneNotIterable)
    ensures ResolveUrls(store).Some? ==> r == Success(RequestsFor(ResolveUrls(store).value))
  {
    var urls := NextUrl(store);
    if urls.Failure? {
      return Failure(urls.error);
    }
    var requests: seq<Request> := [];
    var i := 0;
    while i < |urls.value|
      invariant 0 <= i <= |urls.value|
      invariant |requests| == i
      invariant forall j :: 0 <= j < i ==> requests[j] == Request(urls.value[j], Parse)
    {
      requests := requests + [Request(urls.value[i], Parse)];
      i := i + 1;
    }
    assert requests == RequestsFor(urls.value);
    return Success(requests);
  }

  /**
   * No deduplication: every occurrence of a URL in the seed list gives its
   * own request, so a URL listed n times is requested n times.
   */
  lemma {:induction false} DuplicatesKept(urls: seq<string>, u: string)
    ensures multiset(RequestsFor(urls))[Request(u, Parse)] == multiset(urls)[u]
  {
    if urls != [] {
      DuplicatesKept(urls[1..], u);
      assert urls == [urls[0]] + urls[1..];
    }
  }

  /** The URLs of the requests are the seed URLs: nothing is added, dropped or rewritten. */
  lemma RequestUrlsAreSeeds(urls: seq<string>)
    ensures forall i :: 0 <= i < |urls| ==> RequestsFor(urls)[i].url == urls[i]
    ensures forall q :: q in RequestsFor(urls) ==> q.url in urls && q.callback == Parse
  {
    var r := RequestsFor(urls);
    forall q | q in r ensures q.url in urls && q.callback == Parse {
      var i :| 0 <= i < |r| && r[i] == q;
      assert q.url == urls[i];
    }
  }
}
