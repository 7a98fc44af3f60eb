/**
 * `buscar_noticias`: the headline list built from the news feed's `item`
 * elements. Fetching and XML parsing are outside the model; the parsed
 * items are an input.
 */
module News {
  import opened Wrappers
  import opened Text

  /** A child element of an `item`; `text` is ElementTree's `.text`, None
      when the element has no character data. */
  datatype Element = Element(text: Option<string>)

  /** One `item` element: each child is None when `item.find` found none. */
  datatype ItemNode = ItemNode(title: Option<Element>, link: Option<Element>, pubDate: Option<Element>)

  /** The dictionary built for one item. */
  datatype NewsItem = NewsItem(title: string, link: string, date: string)

  const MaxItems := 5
  const UntitledText := "Sem título"
  const NoDateText := "Data não disponível"

  /** Python's truth test on an element's text: present and non-empty. */
  predicate HasText(e: Element) {
    e.text.Some? && e.text.value != []
  }

  /** An item is kept only when it has both a title and a link element. */
  predicate Listed(item: ItemNode) {
    item.title.Some? && item.link.Some?
  }

  /** The dictionary for a kept item: present text is stripped; a title
      without text reads "Sem título", a link without text "", and a missing
      date element or one without text "Data não disponível". */
  function ToNews(item: ItemNode): (n: NewsItem)
    requires Listed(item)
    ensures n.title == (if HasText(item.title.value) then Strip(item.title.value.text.value) else UntitledText)
    ensures n.link == (if HasText(item.link.value) then Strip(item.link.value.text.value) else "")
    ensures n.date == (if item.pubDate.Some? && HasText(item.pubDate.value)
                       then Strip(item.pubDate.value.text.value) else NoDateText)
  {
    var title := item.title.value;
    var link := item.link.value;
    NewsItem(
      if HasText(title) then Strip(title.text.value) else UntitledText,
      if HasText(link) then Strip(link.text.value) else "",
      if item.pubDate.Some? && HasText(item.pubDate.value) then Strip(item.pubDate.value.text.value) else NoDateText)
  }

  /** A field is blank after stripping only when its element had text made
      of whitespace alone: the title and date fall back to non-empty
      placeholders otherwise, so an empty title or date means blank text in
      the feed. */
  lemma BlankFields(item: ItemNode)
    requires Listed(item)
    ensures var n := ToNews(item);
      && (n.title == [] <==> HasText(item.title.value) && AllSpace(item.title.value.text.value))
      && (n.date == [] <==> item.pubDate.Some? && HasText(item.pubDate.value)
                            && AllSpace(item.pubDate.value.text.value))
      && (n.link == [] <==> !HasText(item.link.value) || AllSpace(item.link.value.text.value))
  {
    if HasText(item.title.value) { StripEmpty(item.title.value.text.value); }
    if HasText(item.link.value) { StripEmpty(item.link.value.text.value); }
    if item.pubDate.Some? && HasText(item.pubDate.value) { StripEmpty(item.pubDate.value.text.value); }
  }

  /** What one item contributes: its dictionary when it is kept, nothing
      otherwise. */
  function Contribution(item: ItemNode): seq<NewsItem> {
    if Listed(item) then [ToNews(item)] else []
  }

  /** The kept items of `items`, in document order. */
  function Select(items: seq<ItemNode>): (news: seq<NewsItem>)
    ensures |news| <= |items|
  {
    if items == [] then [] else Contribution(items[0]) + Select(items[1..])
  }

  /** The item elements `buscar_noticias` looks at: the first five. */
  function Considered(items: seq<ItemNode>): (first: seq<ItemNode>)
    ensures |first| <= MaxItems && first <= items
    ensures |items| >= MaxItems ==> |first| == MaxItems
  {
    if |items| <= MaxItems then items else items[..MaxItems]
  }

  /** What `buscar_noticias` returns: nothing when the request or the parse
      failed (`feed` is None), otherwise the kept items among the first five. */
  function NewsOf(feed: Option<seq<ItemNode>>): (news: seq<NewsItem>)
    ensures |news| <= MaxItems
    ensures feed.None? ==> news == []
  {
    match feed
    case None => []
    case Some(items) => Select(Considered(items))
  }

  /** `buscar_noticias` after the feed is parsed: the loop over the first
      five items, appending one dictionary per kept item. */
  method FetchNews(feed: Option<seq<ItemNode>>) returns (noticias: seq<NewsItem>)
    ensures noticias == NewsOf(feed)
  {
    if feed.None? {
      return [];
    }
    var first := Considered(feed.value);
    noticias := [];
    for k := 0 to |first|
      invariant noticias == Select(first[..k])
    {
      var item := first[k];
      ghost var before := noticias;
      if item.title.Some? && item.link.Some? {
        noticias := noticias + [ToNews(item)];
      }
      assert noticias == before + Contribution(item);
      SelectSnoc(first[..k], item);
      assert first[..k + 1] == first[..k] + [item];
    }
    assert first[..|first|] == first;
  }

  /** Selecting from a longer prefix adds at most the new item, at the end. */
  lemma {:induction false} SelectSnoc(items: seq<ItemNode>, item: ItemNode)
    ensures Select(items + [item]) == Select(items) + Contribution(item)
    decreases |items|
  {
    if items == [] {
      assert [] + [item] == [item];
      assert Select([item]) == Contribution(item) + [];
    } else {
      assert (items + [item])[0] == items[0];
      assert (items + [item])[1..] == items[1..] + [item];
      SelectSnoc(items[1..], item);
      Assoc3(Contribution(items[0]), Select(items[1..]), Contribution(item));
    }
  }

  /** The positions, from `from` on, of the items that are kept, in
      increasing order. */
  function ListedFrom(items: seq<ItemNode>, from: nat): seq<nat>
    requires from <= |items|
    decreases |items| - from
  {
    if from == |items| then []
    else (if Listed(items[from]) then [from] else []) + ListedFrom(items, from + 1)
  }

  /** The listed positions lie in range, strictly increase, and include
      every kept item. */
  lemma {:induction false} ListedFromOrdered(items: seq<ItemNode>, from: nat)
    requires from <= |items|
    ensures var pos := ListedFrom(items, from);
      && (forall k :: 0 <= k < |pos| ==> from <= pos[k] < |items| && Listed(items[pos[k]]))
      && (forall k, l :: 0 <= k < l < |pos| ==> pos[k] < pos[l])
      && (forall i :: from <= i < |items| && Listed(items[i]) ==> i in pos)
    decreases |items| - from
  {
    if from < |items| {
      ListedFromOrdered(items, from + 1);
      var rest := ListedFrom(items, from + 1);
      var head: seq<nat> := if Listed(items[from]) then [from] else [];
      var pos := head + rest;
      assert pos == ListedFrom(items, from);
      assert forall k :: |head| <= k < |pos| ==> pos[k] == rest[k - |head|];
      assert forall k :: 0 <= k < |head| ==> pos[k] == from && Listed(items[from]);
      forall k, l | 0 <= k < l < |pos| ensures pos[k] < pos[l] {
        assert pos[l] == rest[l - |head|];
        if k >= |head| { assert pos[k] == rest[k - |head|]; }
      }
      forall i | from <= i < |items| && Listed(items[i]) ensures i in pos {
        if i == from { assert pos[0] == from; } else { assert i in rest; }
      }
    }
  }

  /** The k-th headline is made from the item at the k-th listed position. */
  lemma {:induction false} SelectAtListed(items: seq<ItemNode>, from: nat)
    requires from <= |items|
    ensures var pos := ListedFrom(items, from); var news := Select(items[from..]);
      && |news| == |pos|
      && (forall k :: 0 <= k < |pos| ==> pos[k] < |items| && Listed(items[pos[k]])
                                         && news[k] == ToNews(items[pos[k]]))
    decreases |items| - from
  {
    if from < |items| {
      ListedFromOrdered(items, from);
      SelectAtListed(items, from + 1);
      assert items[from..][1..] == items[from + 1..];
      assert items[from..][0] == items[from];
    }
  }

  /** Order and provenance of the headlines: the k-th comes from the k-th
      kept item among the first five, their positions strictly increase (so
      document order is kept), and every item among the first five that has
      both a title and a link is there. */
  lemma NewsFollowsDocument(items: seq<ItemNode>)
    ensures var first := Considered(items); var pos := ListedFrom(first, 0);
      var news := NewsOf(Some(items));
      && |news| == |pos|
      && (forall k :: 0 <= k < |pos| ==> pos[k] < MaxItems && pos[k] < |items|
                                         && Listed(items[pos[k]]) && news[k] == ToNews(items[pos[k]]))
      && (forall k, l :: 0 <= k < l < |pos| ==> pos[k] < pos[l])
      && (forall i :: 0 <= i < |items| && i < MaxItems && Listed(items[i]) ==> i in pos)
  {
    var first := Considered(items);
    ListedFromOrdered(first, 0);
    SelectAtListed(first, 0);
    assert first[0..] == first;
    assert forall i :: 0 <= i < |first| ==> first[i] == items[i];
  }

  /** Only the first five items are ever looked at: items after them never
      change the result, even when some of the five are skipped. */
  lemma OnlyFirstFive(items: seq<ItemNode>, later: seq<ItemNode>)
    requires |items| == MaxItems
    ensures NewsOf(Some(items + later)) == NewsOf(Some(items))
  {
    if later == [] {
      assert items + later == items;
    } else {
      assert (items + later)[..MaxItems] == items;
    }
  }

  /** An item without a link element is skipped even when it has a title,
      and the sixth item does not take its place. */
  lemma SkippedItemNotReplaced(good: ItemNode, bad: ItemNode)
    requires Listed(good) && bad.link.None?
    ensures NewsOf(Some([good, good, bad, good, good, good])) == [ToNews(good), ToNews(good), ToNews(good), ToNews(good)]
  {
    var items := [good, good, bad, good, good, good];
    var n := ToNews(good);
    assert Considered(items) == [good, good, bad, good, good];
    assert Select([good]) == [n];
    assert Select([good, good]) == [n, n] by { assert [good, good][1..] == [good]; }
    assert Select([bad, good, good]) == [n, n] by { assert [bad, good, good][1..] == [good, good]; }
    assert Select([good, bad, good, good]) == [n, n, n] by { assert [good, bad, good, good][1..] == [bad, good, good]; }
    assert Select([good, good, bad, good, good]) == [n, n, n, n] by {
      assert [good, good, bad, good, good][1..] == [good, bad, good, good];
    }
  }
}
