/**
 * The item pipeline (app/crawler/pipelines.py): an append-only buffer of
 * every item the spider yields, handed to the spider when it closes.
 */
module Pipelines {
  import opened Wrappers
  import opened Spider

  class ResultCollectorPipeline {
    /** Every item processed so far, in arrival order. */
    var items: seq<Item>

    constructor()
      ensures items == []
    {
      items := [];
    }

    /** Records the item at the end of the buffer and passes it on unchanged. */
    method ProcessItem(item: Item, spider: HighValueLinkSpider) returns (passed: Item)
      modifies this
      ensures items == old(items) + [item]
      ensures |items| == |old(items)| + 1
      ensures items[..|old(items)|] == old(items)
      ensures passed == item
    {
      items := items + [item];
      passed := item;
    }

    /** Hands the accumulated items to the spider; the buffer itself is not touched. */
    method CloseSpider(spider: HighValueLinkSpider)
      modifies spider`collectedItems
      ensures spider.collectedItems == Some(items)
      ensures unchanged(this)
    {
      spider.collectedItems := Some(items);
    }
  }

  /**
   * What the crawl does with the pipeline: a fresh collector receives the
   * yielded items one by one and is closed at the end, so the spider ends up
   * holding exactly those items, in the order they were yielded.
   */
  method CollectAll(spider: HighValueLinkSpider, yielded: seq<Item>) returns (pipeline: ResultCollectorPipeline)
    modifies spider`collectedItems
    ensures fresh(pipeline)
    ensures pipeline.items == yielded
    ensures spider.collectedItems == Some(yielded)
  {
    pipeline := new ResultCollectorPipeline();
    for i := 0 to |yielded|
      invariant pipeline.items == yielded[..i]
    {
      var passed := pipeline.ProcessItem(yielded[i], spider);
      assert yielded[..i + 1] == yielded[..i] + [yielded[i]];
    }
    assert yielded[..|yielded|] == yielded;
    pipeline.CloseSpider(spider);
  }
}
