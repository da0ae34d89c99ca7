/**
 * The home page portfolio grid and its lightbox: the selected image (`selectedImage`)
 * and its position (`selectedIndex`) are two separate pieces of state that clicks, the
 * keyboard and the arrow buttons update.
 */
module Portfolio {
  import opened Wrappers

  /** One grid entry, as the grid derives it from a portfolio image row. */
  datatype GridImage = GridImage(id: string, src: string, category: string, title: string)

  datatype Key = ArrowLeft | ArrowRight | Escape | OtherKey

  /** The first position holding an image with source `src`, if any. */
  function FirstWithSrc(images: seq<GridImage>, src: string): (r: Option<nat>)
    ensures r.Some? ==> r.value < |images| && images[r.value].src == src
    ensures r.Some? ==> forall k :: 0 <= k < r.value ==> images[k].src != src
    ensures r.None? <==> forall k :: 0 <= k < |images| ==> images[k].src != src
  {
    if images == [] then None
    else if images[0].src == src then Some(0)
    else match FirstWithSrc(images[1..], src)
      case None => None
      case Some(i) => Some(i + 1)
  }

  /** The lightbox shows while the selected source is a non-empty string. */
  predicate Truthy(selected: Option<string>)
  {
    selected.Some? && selected.value != ""
  }

  class Gallery {
    var images: seq<GridImage>
    var loading: bool
    var selectedImage: Option<string>
    var selectedIndex: Option<int>

    /** The index, when there is one, points into the grid. */
    ghost predicate Valid()
      reads this
    {
      selectedIndex.Some? ==> 0 <= selectedIndex.value < |images|
    }

    constructor()
      ensures Valid()
      ensures images == [] && loading && selectedImage == None && selectedIndex == None
    {
      images := [];
      loading := true;
      selectedImage := None;
      selectedIndex := None;
    }

    /** The portfolio query answered; an error keeps the grid. Loading ends either way. */
    method ImagesLoaded(rows: Option<seq<GridImage>>)
      modifies this`images, this`loading
      ensures images == (if rows.Some? then rows.value else old(images)) && !loading
    {
      if rows.Some? {
        images := rows.value;
      }
      loading := false;
    }

    /** Whether the lightbox is on screen. */
    predicate LightboxShown()
      reads this
    {
      Truthy(selectedImage)
    }

    /** The "previous" arrow is on screen. */
    predicate ShowPrev()
      reads this
    {
      LightboxShown() && selectedIndex.Some? && selectedIndex.value > 0
    }

    /** The "next" arrow is on screen. */
    predicate ShowNext()
      reads this
    {
      LightboxShown() && selectedIndex.Some? && selectedIndex.value < |images| - 1
    }

    /**
     * A click on the grid entry at position `p` opens it, with the index set to the
     * first entry that has the same source (an earlier duplicate wins).
     */
    method Click(p: nat)
      requires p < |images|
      modifies this`selectedImage, this`selectedIndex
      ensures Valid()
      ensures selectedImage == Some(images[p].src)
      ensures selectedIndex.Some? && selectedIndex.value <= p
      ensures images[selectedIndex.value].src == images[p].src
      ensures forall k :: 0 <= k < selectedIndex.value ==> images[k].src != images[p].src
    {
      selectedImage := Some(images[p].src);
      var first := FirstWithSrc(images, images[p].src);
      selectedIndex := Some(first.value);
    }

    /**
     * The key handler, registered only while the lightbox is shown. The left arrow moves
     * the index back without changing the image; the right arrow moves both forward;
     * Escape clears both.
     */
    method KeyDown(key: Key)
      requires Valid()
      modifies this`selectedImage, this`selectedIndex
      ensures Valid()
      ensures !old(LightboxShown()) ==> selectedImage == old(selectedImage) && selectedIndex == old(selectedIndex)
      ensures old(LightboxShown()) && key == ArrowLeft ==>
        && selectedImage == old(selectedImage)
        && selectedIndex == (if old(selectedIndex).Some? && old(selectedIndex).value > 0
          then Some(old(selectedIndex).value - 1) else old(selectedIndex))
      ensures old(LightboxShown()) && key == ArrowRight ==>
        if old(selectedIndex).Some? && old(selectedIndex).value < |images| - 1 then
          selectedIndex == Some(old(selectedIndex).value + 1) &&
          selectedImage == Some(images[old(selectedIndex).value + 1].src)
        else
          selectedImage == old(selectedImage) && selectedIndex == old(selectedIndex)
      ensures old(LightboxShown()) && key == Escape ==> selectedImage == None && selectedIndex == None
      ensures key == OtherKey ==> selectedImage == old(selectedImage) && selectedIndex == old(selectedIndex)
    {
      if !LightboxShown() {
        return;
      }
      if key == ArrowLeft && selectedIndex.Some? && selectedIndex.value > 0 {
        selectedIndex := Some(selectedIndex.value - 1);
      }
      if key == ArrowRight && selectedIndex.Some? && selectedIndex.value < |images| - 1 {
        var next := selectedIndex.value + 1;
        selectedImage := Some(images[next].src);
        selectedIndex := Some(next);
      }
      if key == Escape {
        selectedImage := None;
        selectedIndex := None;
      }
    }

    /** The "previous" arrow, when it is on screen, moves index and image back together. */
    method PrevButton()
      requires Valid()
      modifies this`selectedImage, this`selectedIndex
      ensures Valid()
      ensures old(ShowPrev()) ==>
        var i := old(selectedIndex).value - 1;
        selectedIndex == Some(i) && selectedImage == Some(images[i].src)
      ensures !old(ShowPrev()) ==> selectedImage == old(selectedImage) && selectedIndex == old(selectedIndex)
    {
      if ShowPrev() {
        var prev := selectedIndex.value - 1;
        selectedImage := Some(images[prev].src);
        selectedIndex := Some(prev);
      }
    }

    /** The "next" arrow, when it is on screen, moves index and image forward together. */
    method NextButton()
      requires Valid()
      modifies this`selectedImage, this`selectedIndex
      ensures Valid()
      ensures old(ShowNext()) ==>
        var i := old(selectedIndex).value + 1;
        selectedIndex == Some(i) && selectedImage == Some(images[i].src)
      ensures !old(ShowNext()) ==> selectedImage == old(selectedImage) && selectedIndex == old(selectedIndex)
    {
      if ShowNext() {
        var next := selectedIndex.value + 1;
        selectedImage := Some(images[next].src);
        selectedIndex := Some(next);
      }
    }

    /** The close button clears both pieces of state. */
    method Close()
      modifies this`selectedImage, this`selectedIndex
      ensures Valid() && !LightboxShown()
      ensures selectedImage == None && selectedIndex == None
    {
      selectedImage := None;
      selectedIndex := None;
    }
  }

  /**
   * With two distinct sources, opening the second and pressing the left arrow leaves the
   * second image on screen while the index already names the first: the keyboard and the
   * buttons disagree about what "previous" shows.
   */
  method LeftKeyKeepsImage()
  {
    var g := new Gallery();
    g.ImagesLoaded(Some([GridImage("a", "a.jpg", "portfolio", ""), GridImage("b", "b.jpg", "portfolio", "")]));
    g.Click(1);
    g.KeyDown(ArrowLeft);
    assert g.selectedIndex == Some(0);
    assert g.selectedImage == Some("b.jpg");
    assert g.images[g.selectedIndex.value].src != g.selectedImage.value;
    g.NextButton();
    assert g.selectedIndex == Some(1) && g.selectedImage == Some("b.jpg");
  }
}
