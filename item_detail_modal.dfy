/** The detail view of one item: the list of images it shows, the carousel
    index that the arrows and thumbnails move, and what the view renders for
    an item and an index. */
module ItemDetailModal {
  import opened Wrappers
  import opened Sequences
  import opened Db

  /** The image shown when the current index has no image. */
  const Placeholder := "/placeholder.svg"

  /** `Boolean` on an image entry: the empty string is falsy. */
  predicate IsTruthy(url: string)
  {
    url != ""
  }

  /** `[item.cover_image, ...(item.additional_images || [])]`. A `null`
      cover is written as `""`: both are falsy, and the filter drops both. */
  function ImageCandidates(item: Item): seq<string>
  {
    [if item.coverImage.Some? then item.coverImage.value else ""] +
    (if item.additionalImages.Some? then item.additionalImages.value else [])
  }

  /** `allImages`: the candidates with the falsy entries filtered out. */
  function AllImages(item: Item): seq<string>
  {
    Filter(ImageCandidates(item), IsTruthy)
  }

  /** The cover, when it is truthy, followed by the truthy additional images
      in their order; a `null` list contributes nothing. Every entry is
      non-empty. */
  lemma AllImagesSpec(item: Item)
    ensures var extras := if item.additionalImages.Some? then item.additionalImages.value else [];
      AllImages(item) ==
        (if item.coverImage.Some? && item.coverImage.value != "" then [item.coverImage.value] else []) +
        Filter(extras, IsTruthy)
    ensures item.additionalImages.None? ==> |AllImages(item)| <= 1
    ensures forall k :: 0 <= k < |AllImages(item)| ==> AllImages(item)[k] != ""
  {
    var cover := if item.coverImage.Some? then item.coverImage.value else "";
    var extras := if item.additionalImages.Some? then item.additionalImages.value else [];
    FilterConcat([cover], extras, IsTruthy);
  }

  /** The quotient JavaScript's `%` rounds to: `a / n` truncated toward
      zero. */
  function JsTruncatedQuotient(a: int, n: int): int
    requires n > 0
  {
    if a >= 0 then a / n else -((-a) / n)
  }

  /** The `%` of JavaScript on integers (section 6.1.6.1.6 of ECMA-262):
      what is left of `a` after the truncated quotient's multiple of `n`,
      with the sign of the dividend and smaller than `n` in magnitude. */
  function JsRemainder(a: int, n: int): (r: int)
    requires n > 0
    ensures a == JsTruncatedQuotient(a, n) * n + r
    ensures a >= 0 ==> 0 <= r < n
    ensures a < 0 ==> -n < r <= 0
  {
    if a >= 0 then
      assert a == (a / n) * n + a % n;
      a % n
    else
      var m := -a;
      assert m == (m / n) * n + m % n;
      assert a == -((m / n) * n) - m % n;
      assert -((m / n) * n) == (-(m / n)) * n;
      -(m % n)
  }

  /** On a non-negative dividend JavaScript's `%` is the Euclidean
      remainder, which is all the carousel needs. */
  lemma JsRemainderOfNonNegative(a: int, n: int)
    requires n > 0 && a >= 0
    ensures JsRemainder(a, n) == a % n
  {
  }

  /** `(prev + 1) % allImages.length`. */
  function NextIndex(i: nat, n: nat): (r: nat)
    requires n > 0
    ensures r < n
  {
    JsRemainder(i + 1, n)
  }

  /** `(prev - 1 + allImages.length) % allImages.length`. */
  function PrevIndex(i: nat, n: nat): (r: nat)
    requires n > 0
    ensures r < n
  {
    JsRemainder(i - 1 + n, n)
  }

  lemma RemainderOfSmall(a: int, n: int)
    requires 0 <= a < n
    ensures a % n == a
  {
  }

  lemma RemainderOfWrapped(a: int, n: int)
    requires n <= a < 2 * n
    ensures a % n == a - n
  {
  }

  /** Within the images, the right arrow steps forward by one and wraps
      from the last image to the first. */
  lemma NextStep(i: nat, n: nat)
    requires i < n
    ensures NextIndex(i, n) == if i == n - 1 then 0 else i + 1
  {
    if i == n - 1 {
      RemainderOfWrapped(i + 1, n);
    } else {
      RemainderOfSmall(i + 1, n);
    }
  }

  /** Within the images, the left arrow steps back by one and wraps from
      the first image to the last. */
  lemma PrevStep(i: nat, n: nat)
    requires i < n
    ensures PrevIndex(i, n) == if i == 0 then n - 1 else i - 1
  {
    if i == 0 {
      RemainderOfSmall(n - 1, n);
    } else {
      RemainderOfWrapped(i - 1 + n, n);
    }
  }

  /** The two arrows undo each other. */
  lemma ArrowsAreInverse(i: nat, n: nat)
    requires i < n
    ensures PrevIndex(NextIndex(i, n), n) == i
    ensures NextIndex(PrevIndex(i, n), n) == i
  {
    NextStep(i, n);
    PrevStep(i, n);
    PrevStep(NextIndex(i, n), n);
    NextStep(PrevIndex(i, n), n);
  }

  /** The carousel's state: `currentImageIndex`. It survives a change of
      the item shown, so it may exceed the new item's image count. */
  class Carousel {
    var currentImageIndex: nat

    constructor ()
      ensures currentImageIndex == 0
    {
      currentImageIndex := 0;
    }

    /** The right arrow; it is rendered only for more than one image. */
    method NextImage(allImages: seq<string>)
      requires |allImages| > 1
      modifies this
      ensures currentImageIndex == NextIndex(old(currentImageIndex), |allImages|)
      ensures currentImageIndex < |allImages|
    {
      currentImageIndex := JsRemainder(currentImageIndex + 1, |allImages|);
    }

    /** The left arrow; it is rendered only for more than one image. */
    method PrevImage(allImages: seq<string>)
      requires |allImages| > 1
      modifies this
      ensures currentImageIndex == PrevIndex(old(currentImageIndex), |allImages|)
      ensures currentImageIndex < |allImages|
    {
      currentImageIndex := JsRemainder(currentImageIndex - 1 + |allImages|, |allImages|);
    }

    /** A click on the thumbnail at `index`; thumbnails are rendered, one
      per image, only for more than one image. */
    method SelectThumbnail(allImages: seq<string>, index: nat)
      requires |allImages| > 1 && index < |allImages|
      modifies this
      ensures currentImageIndex == index && currentImageIndex < |allImages|
    {
      currentImageIndex := index;
    }
  }

  /** `allImages[currentImageIndex] || "/placeholder.svg"`. */
  function MainImageSource(allImages: seq<string>, index: nat): string
  {
    if index < |allImages| && allImages[index] != "" then allImages[index] else Placeholder
  }

  /** What the view renders: the main image (`None` for "No image
      available"), whether the arrows are there, the thumbnail sources, the
      description paragraph and the "Updated" line. */
  datatype ModalView = ModalView(
    mainImage: Option<string>,
    arrows: bool,
    thumbnails: seq<string>,
    description: Option<string>,
    showsUpdated: bool)

  function Render(item: Item, index: nat): ModalView
  {
    var images := AllImages(item);
    ModalView(
      if |images| > 0 then Some(MainImageSource(images, index)) else None,
      |images| > 1,
      if |images| > 1 then seq(|images|, k requires 0 <= k < |images| =>
                                 if images[k] != "" then images[k] else Placeholder)
      else [],
      if item.description.Some? && item.description.value != "" then item.description else None,
      item.updatedAt != item.createdAt)
  }

  /** The main image is the image at the index when the index is in range;
      an out-of-range index on a non-empty list, which a stale index from a
      previously shown item can be, falls back to the placeholder. Since no
      entry of `allImages` is empty, an in-range entry is never replaced. */
  lemma RenderedImage(item: Item, index: nat)
    ensures var images := AllImages(item);
      && (images == [] <==> Render(item, index).mainImage.None?)
      && (index < |images| ==> Render(item, index).mainImage == Some(images[index]))
      && (images != [] && index >= |images| ==> Render(item, index).mainImage == Some(Placeholder))
  {
    AllImagesSpec(item);
  }

  /** Arrows and thumbnails appear only for more than one image, so the
      index arithmetic never divides by zero; the thumbnails are the images
      themselves, in order, one per index the carousel can select. */
  lemma RenderedNavigation(item: Item, index: nat)
    ensures var v := Render(item, index);
      && (v.arrows <==> |AllImages(item)| > 1)
      && v.thumbnails == (if |AllImages(item)| > 1 then AllImages(item) else [])
  {
    AllImagesSpec(item);
  }

  /** The description appears exactly when it is a non-empty string, and
      the "Updated" line exactly when the two timestamps differ. */
  lemma RenderedDetails(item: Item, index: nat)
    ensures var v := Render(item, index);
      && (v.showsUpdated <==> item.updatedAt != item.createdAt)
      && (v.description.Some? <==> item.description.Some? && item.description.value != "")
      && (v.description.Some? ==> v.description == item.description)
  {
  }
}
