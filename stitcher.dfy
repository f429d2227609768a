/** `stitch_images`: size one canvas from the first selected image, paste
    the selected images one below another in batches, and write the whole
    canvas to the output path after every batch. */
module Stitcher {
  import opened Listing

  /** One `paste`: which image went where on the canvas. */
  datatype Placement = Placement(image: ImageFile, x: int, y: int)

  /** What a run leaves behind: the canvas size, every paste in order, and
      the content of each save of the canvas to the output path, oldest
      first. Each save overwrites the file, so the last one is what stays. */
  datatype Stitched = Stitched(width: nat, height: nat, placements: seq<Placement>,
                               saves: seq<seq<Placement>>)

  /** The output image. Its size is fixed when it is created; `paste` adds
      to what it shows. */
  class Canvas {
    const width: nat
    const height: nat
    var placements: seq<Placement>

    constructor (width: nat, height: nat)
      ensures this.width == width && this.height == height
      ensures placements == []
    {
      this.width := width;
      this.height := height;
      placements := [];
    }

    method Paste(image: ImageFile, x: int, y: int)
      modifies this
      ensures placements == old(placements) + [Placement(image, x, y)]
    {
      placements := placements + [Placement(image, x, y)];
    }
  }

  function Min(a: int, b: int): int
  {
    if a <= b then a else b
  }

  /** `len(images) * first_img.height`: the canvas height, taking the first
      image's height as every image's. */
  function CanvasHeight(count: nat, imageHeight: nat): nat
  {
    count * imageHeight
  }

  /** The total height of a run of images. */
  function SumHeights(images: seq<ImageFile>): nat
  {
    if images == [] then 0 else images[0].height + SumHeights(images[1..])
  }

  lemma {:induction false} SumHeightsConcat(a: seq<ImageFile>, b: seq<ImageFile>)
    ensures SumHeights(a + b) == SumHeights(a) + SumHeights(b)
  {
    if a != [] {
      assert (a + b)[1..] == a[1..] + b;
      SumHeightsConcat(a[1..], b);
    } else {
      assert a + b == b;
    }
  }

  /** The pastes of the loop, in loop order: each image at x = 0 and at the
      running offset, which then grows by that image's height. */
  function Layout(images: seq<ImageFile>, yOffset: nat): (r: seq<Placement>)
    ensures |r| == |images|
  {
    if images == [] then []
    else [Placement(images[0], 0, yOffset)] + Layout(images[1..], yOffset + images[0].height)
  }

  /** The contents of the saves made after each batch of `batch` pastes,
      from paste number `start` on; the last batch may be short. */
  function Saves(layout: seq<Placement>, batch: nat, start: nat): (r: seq<seq<Placement>>)
    requires batch > 0
    ensures r != [] <==> start < |layout|
    ensures forall k :: 0 <= k < |r| ==> start < |r[k]| <= |layout| && r[k] == layout[..|r[k]|]
    decreases |layout| - start
  {
    if start >= |layout| then []
    else [layout[..Min(start + batch, |layout|)]] + Saves(layout, batch, start + batch)
  }

  /** What `stitch_images` does with a folder listing and a batch size. */
  function StitchSpec(listing: seq<ImageFile>, batchSize: int): (r: Result<Stitched>)
    ensures r == Err(NoImages) <==> forall e :: e in listing ==> !HasImageExtension(e.name)
    ensures r == Err(ZeroBatchSize) <==> SelectImages(listing) != [] && batchSize == 0
    ensures r.Ok? <==> SelectImages(listing) != [] && batchSize != 0
    ensures r.Ok? && batchSize < 0 ==> r.value.placements == [] && r.value.saves == []
  {
    var images := SelectImages(listing);
    SelectImagesEmptyIff(listing);
    if images == [] then Err(NoImages)
    else
      var first := images[0];
      var height := CanvasHeight(|images|, first.height);
      if batchSize == 0 then Err(ZeroBatchSize)
      else if batchSize < 0 then Ok(Stitched(first.width, height, [], []))
      else
        var layout := Layout(images, 0);
        Ok(Stitched(first.width, height, layout, Saves(layout, batchSize, 0)))
  }

  // ---------------------------------------------------------------------
  // The loop

  /** `stitch_images`: select the images, size the canvas from the first,
      then paste and save in batches. */
  method StitchImages(listing: seq<ImageFile>, batchSize: int) returns (r: Result<Stitched>)
    ensures r == StitchSpec(listing, batchSize)
  {
    var images := SelectImages(listing);
    if |images| == 0 {
      return Err(NoImages);
    }
    var first := images[0];
    var canvas := new Canvas(first.width, CanvasHeight(|images|, first.height));
    if batchSize == 0 {
      return Err(ZeroBatchSize);
    }
    var saves: seq<seq<Placement>> := [];
    // A negative step makes `range(0, n, batch_size)` empty.
    if batchSize > 0 {
      saves := PasteInBatches(canvas, images, batchSize);
    }
    StitchSpecOk(listing, batchSize);
    r := Ok(Stitched(canvas.width, canvas.height, canvas.placements, saves));
  }

  /** The nested loop of `stitch_images`: `for i in range(0, n, batch)`,
      paste each image of `images[i:i + batch]` at the running offset and
      add its height, then save the whole canvas. */
  method PasteInBatches(canvas: Canvas, images: seq<ImageFile>, batchSize: nat)
    returns (saves: seq<seq<Placement>>)
    requires batchSize > 0 && canvas.placements == []
    modifies canvas
    ensures canvas.placements == Layout(images, 0)
    ensures saves == Saves(Layout(images, 0), batchSize, 0)
  {
    var n := |images|;
    ghost var layout := Layout(images, 0);
    saves := [];
    var yOffset := 0;
    var i := 0;
    while i < n
      invariant 0 <= i
      invariant canvas.placements == layout[..Min(i, n)]
      invariant yOffset == SumHeights(images[..Min(i, n)])
      invariant saves + Saves(layout, batchSize, i) == Saves(layout, batchSize, 0)
      decreases n - i
    {
      var j := i;
      var end := Min(i + batchSize, n);
      while j < end
        invariant i <= j <= end
        invariant canvas.placements == layout[..j]
        invariant yOffset == SumHeights(images[..j])
      {
        var image := images[j];
        PasteStep(images, j);
        SumHeightsSnoc(images, j);
        canvas.Paste(image, 0, yOffset);
        yOffset := yOffset + image.height;
        j := j + 1;
      }
      SavesAfterBatch(saves, layout, batchSize, i);
      saves := saves + [canvas.placements];
      i := i + batchSize;
    }
    assert canvas.placements == layout;
    assert saves + [] == saves;
  }

  // ---------------------------------------------------------------------
  // What the layout and the saves mean

  /** One paste extends the layout by the next image, at the offset the
      images before it add up to. */
  lemma PasteStep(images: seq<ImageFile>, j: nat)
    requires j < |images|
    ensures Layout(images, 0)[..j + 1]
            == Layout(images, 0)[..j] + [Placement(images[j], 0, SumHeights(images[..j]))]
  {
    LayoutAt(images, 0, j);
    PrefixSnoc(Layout(images, 0), j, Placement(images[j], 0, SumHeights(images[..j])));
  }

  /** The running offset grows by the height of the image just pasted. */
  lemma SumHeightsSnoc(images: seq<ImageFile>, j: nat)
    requires j < |images|
    ensures SumHeights(images[..j + 1]) == SumHeights(images[..j]) + images[j].height
  {
    PrefixSnoc(images, j, images[j]);
    SumHeightsConcat(images[..j], [images[j]]);
  }

  lemma PrefixSnoc<T>(s: seq<T>, j: nat, x: T)
    requires j < |s| && s[j] == x
    ensures s[..j + 1] == s[..j] + [x]
  {
  }

  /** StitchSpec on a listing with images and a non-zero batch size. */
  lemma StitchSpecOk(listing: seq<ImageFile>, batchSize: int)
    requires SelectImages(listing) != [] && batchSize != 0
    ensures var images := SelectImages(listing);
            var layout := Layout(images, 0);
            var canvasHeight := CanvasHeight(|images|, images[0].height);
            StitchSpec(listing, batchSize)
              == if batchSize < 0 then Ok(Stitched(images[0].width, canvasHeight, [], []))
                 else Ok(Stitched(images[0].width, canvasHeight, layout, Saves(layout, batchSize, 0)))
  {
  }

  /** One batch's worth of saves: the file as it is after that batch, then
      the saves of the batches that follow. */
  lemma SavesStep(layout: seq<Placement>, batch: nat, start: nat)
    requires batch > 0 && start < |layout|
    ensures Saves(layout, batch, start)
            == [layout[..Min(start + batch, |layout|)]] + Saves(layout, batch, start + batch)
  {
  }

  /** Saving after the batch that starts at `start` moves that save from
      the saves still to come to the saves made. */
  lemma SavesAfterBatch(made: seq<seq<Placement>>, layout: seq<Placement>, batch: nat, start: nat)
    requires batch > 0 && start < |layout|
    requires made + Saves(layout, batch, start) == Saves(layout, batch, 0)
    ensures (made + [layout[..Min(start + batch, |layout|)]]) + Saves(layout, batch, start + batch)
            == Saves(layout, batch, 0)
  {
    SavesStep(layout, batch, start);
    assert (made + [layout[..Min(start + batch, |layout|)]]) + Saves(layout, batch, start + batch)
           == made + Saves(layout, batch, start);
  }

  /** The image pasted k-th is the k-th selected image, at x = 0 and at the
      sum of the heights of the images before it. */
  lemma {:induction false} LayoutAt(images: seq<ImageFile>, yOffset: nat, k: nat)
    requires k < |images|
    ensures Layout(images, yOffset)[k] == Placement(images[k], 0, yOffset + SumHeights(images[..k]))
  {
    if k > 0 {
      var rest := images[1..];
      LayoutAt(rest, yOffset + images[0].height, k - 1);
      assert images[..k] == [images[0]] + rest[..k - 1];
      assert images[..k][1..] == rest[..k - 1];
    }
  }

  /** A later paste never lands above an earlier one. */
  lemma LayoutOffsetsNondecreasing(images: seq<ImageFile>, yOffset: nat, j: nat, k: nat)
    requires j <= k < |images|
    ensures Layout(images, yOffset)[j].y <= Layout(images, yOffset)[k].y
  {
    LayoutAt(images, yOffset, j);
    LayoutAt(images, yOffset, k);
    assert images[..k] == images[..j] + images[j..k];
    SumHeightsConcat(images[..j], images[j..k]);
  }

  /** After the last paste the running offset is the total height. */
  lemma LayoutEndsAtTotalHeight(images: seq<ImageFile>)
    requires images != []
    ensures Layout(images, 0)[|images| - 1].y + images[|images| - 1].height == SumHeights(images)
  {
    var n := |images|;
    LayoutAt(images, 0, n - 1);
    SumHeightsSnoc(images, n - 1);
    assert images[..n] == images;
  }

  /** When every image is as tall as the first, the pasted images fill the
      canvas exactly; otherwise the canvas height and the content differ. */
  lemma {:induction false} UniformHeightsFillCanvas(images: seq<ImageFile>, h: nat)
    requires forall e :: e in images ==> e.height == h
    ensures SumHeights(images) == CanvasHeight(|images|, h)
  {
    if images != [] {
      var rest := images[1..];
      assert forall e :: e in rest ==> e in images;
      UniformHeightsFillCanvas(rest, h);
      assert images[0] in images;
      MulSucc(|rest|, h);
    }
  }

  lemma MulSucc(n: nat, h: nat)
    ensures (n + 1) * h == n * h + h
  {
  }

  /** The number of saves is the least count whose batches cover every
      paste, that is ceil(n / batch). */
  lemma {:induction false} SavesCountFrom(layout: seq<Placement>, batch: nat, start: nat)
    requires batch > 0 && start <= |layout|
    ensures (|Saves(layout, batch, start)| - 1) * batch < |layout| - start <= |Saves(layout, batch, start)| * batch
    decreases |layout| - start
  {
    if start < |layout| {
      if start + batch <= |layout| {
        SavesCountFrom(layout, batch, start + batch);
      }
    }
  }

  lemma DivIsUnique(x: int, b: int, q: int)
    requires b > 0 && q * b <= x < (q + 1) * b
    ensures x / b == q
  {
    var d := x / b;
    assert d * b <= x < (d + 1) * b;
  }

  lemma SavesCount(layout: seq<Placement>, batch: nat)
    requires batch > 0
    ensures |Saves(layout, batch, 0)| == (|layout| + batch - 1) / batch
  {
    var c := |Saves(layout, batch, 0)|;
    SavesCountFrom(layout, batch, 0);
    DivIsUnique(|layout| + batch - 1, batch, c);
  }

  /** How many pastes save number k (from 0) shows when batches start at
      paste number `start`: the end of batch k, or all n pastes. */
  function SaveEnd(start: nat, k: nat, batch: nat, n: nat): (end: nat)
    ensures end <= n
  {
    Min(start + (k + 1) * batch, n)
  }

  lemma SaveEndShift(start: nat, k: nat, batch: nat, n: nat)
    requires k > 0
    ensures SaveEnd(start, k, batch, n) == SaveEnd(start + batch, k - 1, batch, n)
  {
    MulSucc(k, batch);
  }

  /** Save number k holds the first (k + 1) * batch pastes, or all of them. */
  lemma {:induction false} SavesAreBatchPrefixes(layout: seq<Placement>, batch: nat, start: nat, k: nat)
    requires batch > 0 && k < |Saves(layout, batch, start)|
    ensures Saves(layout, batch, start)[k] == layout[..SaveEnd(start, k, batch, |layout|)]
    decreases |layout| - start
  {
    if k > 0 {
      SavesAreBatchPrefixes(layout, batch, start + batch, k - 1);
      SaveEndShift(start, k, batch, |layout|);
    } else {
      assert (k + 1) * batch == batch;
    }
  }

  /** The file left at the output path shows every paste. */
  lemma LastSaveIsComplete(layout: seq<Placement>, batch: nat)
    requires batch > 0 && layout != []
    ensures Saves(layout, batch, 0) != []
    ensures Saves(layout, batch, 0)[|Saves(layout, batch, 0)| - 1] == layout
  {
    var c := |Saves(layout, batch, 0)|;
    SavesCountFrom(layout, batch, 0);
    SavesAreBatchPrefixes(layout, batch, 0, c - 1);
    assert c * batch >= |layout|;
    assert SaveEnd(0, c - 1, batch, |layout|) == |layout|;
  }

  /** The saves of a run, all at once: ceil(n / batch) of them, save k
      showing the first (k + 1) * batch pastes, the last showing all. */
  lemma SavesOncePerBatch(layout: seq<Placement>, batch: nat)
    requires batch > 0 && layout != []
    ensures Saves(layout, batch, 0) != []
    ensures |Saves(layout, batch, 0)| == (|layout| + batch - 1) / batch
    ensures forall k :: 0 <= k < |Saves(layout, batch, 0)| ==>
              Saves(layout, batch, 0)[k] == layout[..SaveEnd(0, k, batch, |layout|)]
    ensures Saves(layout, batch, 0)[|Saves(layout, batch, 0)| - 1] == layout
  {
    SavesCount(layout, batch);
    LastSaveIsComplete(layout, batch);
    forall k | 0 <= k < |Saves(layout, batch, 0)|
      ensures Saves(layout, batch, 0)[k] == layout[..SaveEnd(0, k, batch, |layout|)]
    {
      SavesAreBatchPrefixes(layout, batch, 0, k);
    }
  }

  // ---------------------------------------------------------------------
  // The run as a whole

  /** Every paste of the layout, at once: image k at x = 0 and at the sum
      of the heights of the images before it. */
  lemma LayoutIsPrefixSums(images: seq<ImageFile>)
    ensures |Layout(images, 0)| == |images|
    ensures forall k :: 0 <= k < |images| ==>
              Layout(images, 0)[k] == Placement(images[k], 0, SumHeights(images[..k]))
  {
    forall k | 0 <= k < |images|
      ensures Layout(images, 0)[k] == Placement(images[k], 0, SumHeights(images[..k]))
    {
      LayoutAt(images, 0, k);
    }
  }

  /** The canvas is as wide as the first selected image and as tall as that
      image times the number of images, and every selected image is pasted
      exactly once, in name order, at x = 0 and below all the images before
      it. */
  lemma StitchPastesEachImageOnceInOrder(listing: seq<ImageFile>, batchSize: int)
    requires SelectImages(listing) != [] && batchSize > 0
    ensures var images := SelectImages(listing);
            var s := StitchSpec(listing, batchSize).value;
            && s.width == images[0].width
            && s.height == |images| * images[0].height
            && |s.placements| == |images|
            && (forall k :: 0 <= k < |images| ==>
                  s.placements[k] == Placement(images[k], 0, SumHeights(images[..k])))
  {
    var images := SelectImages(listing);
    StitchSpecOk(listing, batchSize);
    LayoutIsPrefixSums(images);
  }

  /** The output file is written ceil(n / batch) times, save k shows the
      first (k + 1) * batch pastes, and the last save shows all of them. */
  lemma StitchSavesOncePerBatch(listing: seq<ImageFile>, batchSize: int)
    requires SelectImages(listing) != [] && batchSize > 0
    ensures var n := |SelectImages(listing)|;
            var s := StitchSpec(listing, batchSize).value;
            && |s.placements| == n
            && s.saves != []
            && |s.saves| == (n + batchSize - 1) / batchSize
            && (forall k :: 0 <= k < |s.saves| ==>
                  s.saves[k] == s.placements[..SaveEnd(0, k, batchSize, n)])
            && s.saves[|s.saves| - 1] == s.placements
  {
    var images := SelectImages(listing);
    StitchSpecOk(listing, batchSize);
    SavesOncePerBatch(Layout(images, 0), batchSize);
  }

  /** The result depends on the folder's contents, not on the order in
      which the listing reports them. */
  lemma StitchIgnoresListingOrder(l1: seq<ImageFile>, l2: seq<ImageFile>, batchSize: int)
    requires multiset(l1) == multiset(l2)
    requires NamesUnique(multiset(l1))
    ensures StitchSpec(l1, batchSize) == StitchSpec(l2, batchSize)
  {
    SelectImagesIgnoresListingOrder(l1, l2);
  }
}
