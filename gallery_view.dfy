/** The project gallery: every collected image, newest first, as a grid of clickable tiles. */
module GalleryView {
  import opened Seqs
  import opened Types
  import App

  /** The tiles in display order: a reversed copy of the items (the items themselves are values and stay as they were). */
  function DisplayItems(items: seq<GalleryItem>): (r: seq<GalleryItem>)
    ensures |r| == |items|
    ensures forall k :: 0 <= k < |items| ==> r[k] == items[|items| - 1 - k]
  {
    ReverseLength(items);
    forall k | 0 <= k < |items|
      ensures Reverse(items)[k] == items[|items| - 1 - k]
    {
      ReverseAt(items, k);
    }
    Reverse(items)
  }

  /** Reversing the display order once more gives back the collection order. */
  lemma DisplayReversesBack(items: seq<GalleryItem>)
    ensures DisplayItems(DisplayItems(items)) == items
  {
    ReverseReverse(items);
  }

  /** What the view renders: the empty-state placeholder, or a header count and the tiles. */
  datatype Screen = Placeholder | Grid(count: nat, tiles: seq<GalleryItem>)

  function Render(items: seq<GalleryItem>): (r: Screen)
    ensures r.Placeholder? <==> items == []
    ensures r.Grid? ==> r.count == |items| && r.tiles == DisplayItems(items)
  {
    var display := DisplayItems(items);
    if |display| == 0 then Placeholder else Grid(|display|, display)
  }

  /** The image source a click on tile `k` reports: that of item n-1-k of the collection. */
  function ClickTile(items: seq<GalleryItem>, k: nat): (src: string)
    requires k < |items|
    ensures src == items[|items| - 1 - k].src
  {
    DisplayItems(items)[k].src
  }

  /** A click on a tile opens the lightbox on the first item carrying that image, never one after the clicked item. */
  lemma ClickOpensLightbox(items: seq<GalleryItem>, k: nat, lightbox: int)
    requires k < |items|
    ensures var i := App.HandleImageClick(items, ClickTile(items, k), lightbox);
      0 <= i <= |items| - 1 - k && items[i].src == items[|items| - 1 - k].src
  {
    var j := |items| - 1 - k;
    assert items[j].src == ClickTile(items, k);
  }

  /** With distinct image sources the lightbox opens on exactly the clicked image. */
  lemma ClickOpensClickedImage(items: seq<GalleryItem>, k: nat, lightbox: int)
    requires k < |items|
    requires forall i, j :: 0 <= i < j < |items| ==> items[i].src != items[j].src
    ensures items[App.HandleImageClick(items, ClickTile(items, k), lightbox)] == DisplayItems(items)[k]
  {
    ClickOpensLightbox(items, k, lightbox);
  }
}
