/**
 * The lightbox controller: the session state (`galleryData`, `currentIndex`),
 * the modal's open/closed flag, what the modal shows, and the handlers that
 * change them (image click, close, prev, next, keydown).
 */
module GalleryController {
  import opened Wrappers
  import opened GalleryGroups
  import opened GalleryNavigation

  /** What the modal shows: the image source and the "Image position of total" text. */
  datatype View = View(url: string, position: int, total: int)

  /** The rendering of position `k` of a group: its first image, and `k + 1` of `|es|`. */
  function ViewOf<G>(es: seq<Entry<G>>, k: int): (v: View)
    requires 0 <= k < |es| && es[k].data.items != []
  {
    View(es[k].data.items[0].url, k + 1, |es|)
  }

  class Gallery<G(==)> {
    /** The `.collection-item` elements, in document order, captured once at start-up. */
    const items: seq<Item<G>>
    /** The group of the current (or last) session. */
    var galleryData: seq<Entry<G>>
    var currentIndex: int
    /** The modal's `display` is 'flex'. */
    var open: bool
    /** The image source and position text last written into the modal; None before any. */
    var shown: Option<View>

    /**
     * Before the first session nothing is open or shown; afterwards the index
     * stays inside the group and the modal shows the entry at the index.
     */
    ghost predicate Valid()
      reads this
    {
      && WellFormed(items)
      && (galleryData == [] ==> currentIndex == 0 && !open && shown == None)
      && (galleryData != [] ==>
            && 0 <= currentIndex < |galleryData|
            && Renderable(galleryData)
            && shown == Some(ViewOf(galleryData, currentIndex)))
    }

    constructor(items: seq<Item<G>>)
      requires WellFormed(items)
      ensures Valid()
      ensures this.items == items
      ensures galleryData == [] && currentIndex == 0 && !open && shown == None
    {
      this.items := items;
      galleryData := [];
      currentIndex := 0;
      open := false;
      shown := None;
    }

    /** getGroupItems: collects the group `g` by scanning the items in document order. */
    method GetGroupItems(g: G) returns (groupItems: seq<Entry<G>>)
      ensures groupItems == GroupOf(items, g)
    {
      groupItems := [];
      var i := 0;
      while i < |items|
        invariant 0 <= i <= |items|
        invariant groupItems == GroupOf(items[..i], g)
      {
        assert items[..i + 1][..i] == items[..i];
        if InGroup(items[i], g) {
          groupItems := groupItems + [Entry(i, GetJsonData(items[i]).value)];
        }
        i := i + 1;
      }
      assert items[..|items|] == items;
    }

    /** updateGallery: writes the current entry's first image and position into the modal. */
    method UpdateGallery()
      requires 0 <= currentIndex < |galleryData| && galleryData[currentIndex].data.items != []
      modifies this`shown
      ensures shown == Some(ViewOf(galleryData, currentIndex))
    {
      shown := Some(ViewOf(galleryData, currentIndex));
    }

    /** showGallery: replaces the session by `groupItems` at `startIdx`, renders it and opens the modal. */
    method ShowGallery(groupItems: seq<Entry<G>>, startIdx: int)
      requires Valid()
      requires 0 <= startIdx < |groupItems| && Renderable(groupItems)
      modifies this
      ensures Valid()
      ensures galleryData == groupItems && currentIndex == startIdx && open
      ensures shown == Some(ViewOf(groupItems, startIdx))
    {
      galleryData := groupItems;
      currentIndex := startIdx;
      UpdateGallery();
      open := true;
    }

    /** hideGallery (close button, backdrop, Escape): only closes the modal; the session is kept. */
    method HideGallery()
      requires Valid()
      modifies this`open
      ensures Valid()
      ensures !open
    {
      open := false;
    }

    /** The prev button: steps back one image, wrapping from the first to the last. */
    method Prev()
      requires Valid() && galleryData != []
      modifies this`currentIndex, this`shown
      ensures Valid()
      ensures currentIndex == PrevIndex(old(currentIndex), |galleryData|)
      ensures shown == Some(ViewOf(galleryData, currentIndex))
    {
      currentIndex := (currentIndex - 1 + |galleryData|) % |galleryData|;
      UpdateGallery();
    }

    /** The next button: steps forward one image, wrapping from the last to the first. */
    method Next()
      requires Valid() && galleryData != []
      modifies this`currentIndex, this`shown
      ensures Valid()
      ensures currentIndex == NextIndex(old(currentIndex), |galleryData|)
      ensures shown == Some(ViewOf(galleryData, currentIndex))
    {
      currentIndex := (currentIndex + 1) % |galleryData|;
      UpdateGallery();
    }

    /**
     * The click handler of item `idx`'s image. An item without an image has
     * no handler, and an item without a parsed payload is ignored; otherwise
     * the session becomes the item's whole group, opened at the item.
     */
    method ClickImage(idx: nat)
      requires Valid() && idx < |items|
      modifies this
      ensures Valid()
      ensures !items[idx].hasImage || GetJsonData(items[idx]).None? ==> unchanged(this)
      ensures items[idx].hasImage && GetJsonData(items[idx]).Some? ==>
        var d := GetJsonData(items[idx]).value;
        && galleryData == GroupOf(items, d.group)
        && 0 <= currentIndex < |galleryData|
        && galleryData[currentIndex] == Entry(idx, d)
        && open
        && shown == Some(ViewOf(galleryData, currentIndex))
    {
      if !items[idx].hasImage {
        return;
      }
      var data := GetJsonData(items[idx]);
      if data.None? {
        return;
      }
      var groupItems := GetGroupItems(data.value.group);
      var startIdx := FindIndex(groupItems, idx);
      ClickedItemFound(items, idx);
      GroupOfRenderable(items, data.value.group);
      ShowGallery(groupItems, startIdx);
    }

    /**
     * The document's keydown listener: ignored while the modal is closed;
     * otherwise Escape closes, ArrowLeft acts as prev, ArrowRight as next,
     * and any other key changes nothing.
     */
    method KeyDown(key: string)
      requires Valid()
      modifies this`currentIndex, this`shown, this`open
      ensures Valid()
      ensures !old(open) ==> unchanged(this)
      ensures old(open) && key == "Escape" ==>
        !open && currentIndex == old(currentIndex) && shown == old(shown)
      ensures old(open) && key == "ArrowLeft" ==>
        open && currentIndex == PrevIndex(old(currentIndex), |galleryData|) && shown == Some(ViewOf(galleryData, currentIndex))
      ensures old(open) && key == "ArrowRight" ==>
        open && currentIndex == NextIndex(old(currentIndex), |galleryData|) && shown == Some(ViewOf(galleryData, currentIndex))
      ensures key != "Escape" && key != "ArrowLeft" && key != "ArrowRight" ==> unchanged(this)
    {
      if !open {
        return;
      }
      if key == "Escape" {
        HideGallery();
      }
      if key == "ArrowLeft" {
        Prev();
      }
      if key == "ArrowRight" {
        Next();
      }
    }
  }

  /**
   * A page with three items of group "A" and one of group "B": clicking the
   * second "A" image opens [A0, A1, A2] at A1; ArrowRight twice wraps to A0;
   * Escape closes. The lone "B" image opens [B0], and the arrows keep it there.
   */
  method ThreeAndOneScenario() {
    var a0 := Item(true, Some(Script(Some(Data("A", [ImageRef("a0.jpg")])))));
    var a1 := Item(true, Some(Script(Some(Data("A", [ImageRef("a1.jpg")])))));
    var a2 := Item(true, Some(Script(Some(Data("A", [ImageRef("a2.jpg")])))));
    var b0 := Item(true, Some(Script(Some(Data("B", [ImageRef("b0.jpg")])))));
    var page := [a0, a1, a2, b0];
    var gallery := new Gallery<string>(page);

    var dA0, dA1, dA2, dB0 := a0.script.value.parsed.value, a1.script.value.parsed.value,
                              a2.script.value.parsed.value, b0.script.value.parsed.value;
    assert page[..3] == [a0, a1, a2] && page[..3][..2] == [a0, a1] && page[..3][..2][..1] == [a0];
    assert [a0][..0] == [] && [a0, a1][..1] == [a0] && [a0, a1, a2][..2] == [a0, a1];
    assert GetJsonData(a0) == Some(dA0) && GetJsonData(a1) == Some(dA1) && GetJsonData(a2) == Some(dA2);
    assert dA0.group == "A" && dA1.group == "A" && dA2.group == "A" && dB0.group == "B";
    assert GroupOf([a0], "A") == [Entry(0, dA0)];
    assert GroupOf([a0], "B") == [];
    assert GroupOf([a0, a1], "A") == [Entry(0, dA0), Entry(1, dA1)];
    assert GroupOf([a0, a1], "B") == [];
    assert GroupOf([a0, a1, a2], "A") == [Entry(0, dA0), Entry(1, dA1), Entry(2, dA2)];
    assert GroupOf([a0, a1, a2], "B") == [];

    gallery.ClickImage(1);
    assert GroupOf(page, "A") == [Entry(0, dA0), Entry(1, dA1), Entry(2, dA2)];
    assert gallery.currentIndex == 1 && gallery.open;
    gallery.KeyDown("ArrowRight");
    assert gallery.currentIndex == 2 && gallery.shown == Some(View("a2.jpg", 3, 3));
    gallery.KeyDown("ArrowRight");
    assert gallery.currentIndex == 0 && gallery.shown == Some(View("a0.jpg", 1, 3));
    gallery.KeyDown("Escape");
    assert !gallery.open;

    gallery.ClickImage(3);
    assert GroupOf(page, "B") == [Entry(3, dB0)];
    assert gallery.galleryData == [Entry(3, dB0)] && gallery.currentIndex == 0;
    gallery.KeyDown("ArrowLeft");
    assert gallery.currentIndex == 0;
    gallery.KeyDown("ArrowRight");
    assert gallery.currentIndex == 0 && gallery.shown == Some(View("b0.jpg", 1, 1));
  }
}
