/** `Util.filter_pages`: the pages a feed shows, newest first, projected into
    feed items. */
module Feed {
  import opened PyBuiltins
  import opened StableSort
  import opened PageMetadata

  /** The page attribute the feed is ordered by. */
  datatype Attribute = Created | Updated

  /** What the plugin records of a page before building its feed. */
  datatype PageInfo = PageInfo(
    created: int,
    updated: int,
    title: string,
    description: string,
    urlFull: string,
    image: ImageInfo)

  /** One item of the feed. */
  datatype FeedItem = FeedItem(
    description: string,
    link: string,
    pubDate: string,
    title: string,
    image: ImageInfo)

  /** `getattr(page, attribute)`. */
  function Stamp(page: PageInfo, attr: Attribute): int {
    match attr
    case Created => page.created
    case Updated => page.updated
  }

  /** The sort key `lambda page: getattr(page, attribute)`. */
  function KeyOf(attr: Attribute): PageInfo -> int {
    page => Stamp(page, attr)
  }

  /** `sorted(pages, key=..., reverse=True)[:length]`. */
  function SelectPages(pages: seq<PageInfo>, attr: Attribute, length: int): (selected: seq<PageInfo>)
    ensures 0 <= length ==> |selected| == Min(length, |pages|)
    ensures length < 0 ==> |selected| == Max(0, |pages| + length)
    ensures multiset(selected) <= multiset(pages)
  {
    var sorted := SortDescending(pages, KeyOf(attr));
    var selected := PrefixSlice(sorted, length);
    assert sorted == selected + sorted[|selected|..];
    selected
  }

  /** `filter_pages`: one item per selected page, in selection order, with
      the page's description, full URL, title and image, and its timestamp
      formatted by `formatDate`. */
  method FilterPages(pages: seq<PageInfo>, attr: Attribute, length: int, formatDate: int -> string)
    returns (items: seq<FeedItem>)
    ensures |items| == |SelectPages(pages, attr, length)|
    ensures 0 <= length ==> |items| == Min(length, |pages|)
    ensures forall i :: 0 <= i < |items| ==>
              var page := SelectPages(pages, attr, length)[i];
              && items[i].description == page.description
              && items[i].link == page.urlFull
              && items[i].title == page.title
              && items[i].image == page.image
              && items[i].pubDate == formatDate(Stamp(page, attr))
  {
    var selected := PrefixSlice(SortDescending(pages, KeyOf(attr)), length);
    items := [];
    for i := 0 to |selected|
      invariant |items| == i
      invariant forall j :: 0 <= j < i ==>
                  items[j] == FeedItem(selected[j].description, selected[j].urlFull,
                                       formatDate(Stamp(selected[j], attr)), selected[j].title,
                                       selected[j].image)
    {
      var page := selected[i];
      items := items + [FeedItem(page.description, page.urlFull, formatDate(Stamp(page, attr)),
                                 page.title, page.image)];
    }
  }

  /** The selection is ordered newest first, is drawn from the input, and
      keeps pages with equal timestamps in their input order: for every
      timestamp, the selected pages carrying it are the first ones of the
      input carrying it. */
  lemma SelectionIsNewestFirst(pages: seq<PageInfo>, attr: Attribute, length: int)
    ensures var selected := SelectPages(pages, attr, length);
      && (forall i, j :: 0 <= i < j < |selected| ==> Stamp(selected[i], attr) >= Stamp(selected[j], attr))
      && multiset(selected) <= multiset(pages)
      && forall k :: WithKey(selected, KeyOf(attr), k) <= WithKey(pages, KeyOf(attr), k)
  {
    var sorted := SortDescending(pages, KeyOf(attr));
    var m := SliceEnd(|sorted|, length);
    var selected := sorted[..m];
    SortDescendingIsStable(pages, KeyOf(attr));
    assert sorted == selected + sorted[m..];
    forall k
      ensures WithKey(selected, KeyOf(attr), k) <= WithKey(pages, KeyOf(attr), k)
    {
      WithKeyOfPrefix(sorted, m, KeyOf(attr), k);
    }
  }

  /** The selection is the top of the input: every page left out is no newer
      than any page selected. */
  lemma SelectionIsTop(pages: seq<PageInfo>, attr: Attribute, length: int)
    ensures var selected := SelectPages(pages, attr, length);
      forall left, i :: left in multiset(pages) - multiset(selected) && 0 <= i < |selected| ==>
        Stamp(left, attr) <= Stamp(selected[i], attr)
  {
    var sorted := SortDescending(pages, KeyOf(attr));
    var m := SliceEnd(|sorted|, length);
    var selected := sorted[..m];
    SortDescendingIsStable(pages, KeyOf(attr));
    RestNoGreater(sorted, m, KeyOf(attr));
    forall left, i | left in multiset(pages) - multiset(selected) && 0 <= i < |selected|
      ensures Stamp(left, attr) <= Stamp(selected[i], attr)
    {
      assert KeyOf(attr)(left) <= KeyOf(attr)(sorted[i]);
    }
  }

  /** Whichever stable descending sort orders the pages (Python's sort is
      one), the feed shows the same pages in the same order. */
  lemma SelectionMatchesAnyStableSort(pages: seq<PageInfo>, attr: Attribute, length: int, sorted: seq<PageInfo>)
    requires IsStableDescending(pages, sorted, KeyOf(attr))
    ensures SelectPages(pages, attr, length) == PrefixSlice(sorted, length)
  {
    StableDescendingIsUnique(pages, sorted, KeyOf(attr));
  }
}
