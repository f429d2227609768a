/** The two estimates the automatic path makes before stitching:
    `calculate_batch_size` (how many images fit in a share of the available
    memory) and `get_estimated_image_size` (the first image's size and the
    output size in kilobytes). */
module Sizing {
  import opened Listing

  /** Bytes of one decoded image: width * height * 3 (RGB). */
  function ImageBytes(image: ImageFile): nat
  {
    image.width * image.height * 3
  }

  /** `calculate_batch_size(folder, fraction, max_images)` with the memory
      share `fractionNum / fractionDen` and the available memory given.
      The "first image" is the first entry of the raw listing, neither
      filtered nor sorted. The result is the number of such images that fit
      in the share, floored, and capped at `maxImages`. */
  function CalculateBatchSize(listing: seq<ImageFile>, availableMemory: nat,
                              fractionNum: nat, fractionDen: nat, maxImages: int): (r: Result<int>)
    requires fractionDen > 0
    ensures r == Err(EmptyListing) <==> listing == []
    ensures r == Err(ZeroImageSize) <==> listing != [] && ImageBytes(listing[0]) == 0
    ensures r.Ok? <==> listing != [] && ImageBytes(listing[0]) > 0
    ensures r.Ok? ==> listing != [] && ImageBytes(listing[0]) > 0 && r.value <= maxImages
    ensures r.Ok? && r.value < maxImages ==>
              var perImage := ImageBytes(listing[0]) * fractionDen;
              r.value * perImage <= availableMemory * fractionNum < (r.value + 1) * perImage
    ensures r.Ok? && r.value == maxImages ==>
              maxImages * ImageBytes(listing[0]) * fractionDen <= availableMemory * fractionNum
  {
    if listing == [] then Err(EmptyListing)
    else
      var bytes := ImageBytes(listing[0]);
      if bytes == 0 then Err(ZeroImageSize)
      else
        var budget := availableMemory * fractionNum;
        var divisor := bytes * fractionDen;
        var fitting := budget / divisor;
        FloorDivBounds(budget, divisor);
        assert maxImages <= fitting ==> maxImages * divisor <= fitting * divisor by {
          if maxImages <= fitting {
            MulMonotone(maxImages, fitting, divisor);
          }
        }
        Ok(if fitting <= maxImages then fitting else maxImages)
  }

  /** Floor division by a positive divisor brackets the dividend. */
  lemma FloorDivBounds(x: int, d: int)
    requires d > 0
    ensures (x / d) * d <= x < (x / d + 1) * d
  {
  }

  lemma MulMonotone(a: int, b: int, c: nat)
    requires a <= b
    ensures a * c <= b * c
  {
  }

  /** With half the memory, the batch size is zero when zero images are
      asked for or when half the memory is less than one image. */
  lemma HalfMemoryBatchIsZero(listing: seq<ImageFile>, availableMemory: nat, maxImages: int)
    requires listing != [] && ImageBytes(listing[0]) > 0
    requires maxImages == 0 || (maxImages > 0 && availableMemory < 2 * ImageBytes(listing[0]))
    ensures CalculateBatchSize(listing, availableMemory, 1, 2, maxImages) == Ok(0)
  {
    var divisor := ImageBytes(listing[0]) * 2;
    assert availableMemory * 1 == availableMemory;
    DivOfNonNegative(availableMemory, divisor);
    if maxImages > 0 {
      DivOfSmaller(availableMemory, divisor);
    }
  }

  /** With half the memory, at least one image is used when at least one
      is asked for and half the memory holds one. */
  lemma HalfMemoryBatchIsPositive(listing: seq<ImageFile>, availableMemory: nat, maxImages: int)
    requires listing != [] && ImageBytes(listing[0]) > 0
    requires maxImages > 0 && availableMemory >= 2 * ImageBytes(listing[0])
    ensures CalculateBatchSize(listing, availableMemory, 1, 2, maxImages).Ok?
    ensures CalculateBatchSize(listing, availableMemory, 1, 2, maxImages).value >= 1
  {
    var divisor := ImageBytes(listing[0]) * 2;
    assert availableMemory * 1 == availableMemory;
    DivOfAtLeastDivisor(availableMemory, divisor);
  }

  lemma DivOfAtLeastDivisor(a: nat, d: int)
    requires 0 < d <= a
    ensures a / d >= 1
  {
    FloorDivBounds(a, d);
    var q := a / d;
    if q < 1 {
      MulMonotone(q + 1, 1, d);
    }
  }

  lemma DivOfNonNegative(a: nat, d: int)
    requires d > 0
    ensures a / d >= 0
  {
  }

  lemma DivOfSmaller(a: nat, d: int)
    requires a < d
    ensures a / d == 0
  {
    FloorDivBounds(a, d);
    var q := a / d;
    if q >= 1 {
      MulMonotone(1, q, d);
    } else if q <= -1 {
      MulMonotone(q + 1, 0, d);
    }
  }

  /** The estimate printed before confirmation. */
  datatype Estimate = Estimate(width: nat, height: nat, totalKilobytes: int)

  /** `(width * height * 3 * max_images) // 1024`: Python's `//` floors,
      also for a negative count, as Dafny's `/` does for a positive divisor. */
  function Kilobytes(width: nat, height: nat, maxImages: int): (kb: int)
    ensures kb * 1024 <= width * height * 3 * maxImages < (kb + 1) * 1024
  {
    var bytes := width * height * 3 * maxImages;
    FloorDivBounds(bytes, 1024);
    bytes / 1024
  }

  /** Asking for more images never lowers the kilobyte count, and asking
      for none gives zero. */
  lemma KilobytesMonotone(width: nat, height: nat, fewer: int, more: int)
    requires fewer <= more
    ensures Kilobytes(width, height, fewer) <= Kilobytes(width, height, more)
  {
    var perImage := width * height * 3;
    var a, b := Kilobytes(width, height, fewer), Kilobytes(width, height, more);
    assert a * 1024 <= perImage * fewer;
    assert perImage * more < (b + 1) * 1024;
    MulMonotone(fewer, more, perImage);
  }

  lemma KilobytesOfNoImages(width: nat, height: nat)
    ensures Kilobytes(width, height, 0) == 0
  {
  }

  /** `get_estimated_image_size(folder, max_images)`: the size of the first
      image of the filtered, sorted selection, and the bytes of
      `max_images` such images in whole kilobytes. */
  function EstimateImageSize(listing: seq<ImageFile>, maxImages: int): (r: Result<Estimate>)
    ensures r.Err? <==> forall e :: e in listing ==> !HasImageExtension(e.name)
    ensures r.Err? ==> r.error == NoImages
    ensures r.Ok? ==> exists first :: first in listing && HasImageExtension(first.name)
                        && first.width == r.value.width && first.height == r.value.height
                        && forall e :: e in listing && HasImageExtension(e.name) ==> NameLe(first.name, e.name)
    ensures r.Ok? ==> r.value.totalKilobytes == Kilobytes(r.value.width, r.value.height, maxImages)
  {
    var images := SelectImages(listing);
    SelectImagesEmptyIff(listing);
    if images == [] then Err(NoImages)
    else
      var first := images[0];
      assert first in listing;
      assert forall e :: e in listing && HasImageExtension(e.name) ==> NameLe(first.name, e.name) by {
        forall e | e in listing && HasImageExtension(e.name)
          ensures NameLe(first.name, e.name)
        {
          FirstSelectedIsLeast(listing, e);
        }
      }
      Ok(Estimate(first.width, first.height, Kilobytes(first.width, first.height, maxImages)))
  }

  /** The estimate's size does not depend on the count asked for. */
  lemma EstimateSizeIndependentOfCount(listing: seq<ImageFile>, m1: int, m2: int)
    requires EstimateImageSize(listing, m1).Ok?
    ensures EstimateImageSize(listing, m2).Ok?
    ensures EstimateImageSize(listing, m1).value.width == EstimateImageSize(listing, m2).value.width
    ensures EstimateImageSize(listing, m1).value.height == EstimateImageSize(listing, m2).value.height
  {
    assert SelectImages(listing) != [];
  }

  /** Both estimates use "the first image", but not the same one: the batch
      size takes the listing's first entry, while the size estimate and the
      stitcher take the least name. Here the listing reports a large image
      before a small one: the stitcher starts from the small one, the batch
      size is computed from the large one, and listing the same two files
      the other way round changes the batch size a hundredfold. */
  lemma BatchSizeUsesUnsortedFirstEntry(big: ImageFile, small: ImageFile)
    requires big == ImageFile("b.png", 100, 100) && small == ImageFile("a.png", 10, 10)
    ensures SelectImages([big, small]) == [small, big]
    ensures CalculateBatchSize([big, small], 60000, 1, 2, 1000) == Ok(1)
    ensures CalculateBatchSize([small, big], 60000, 1, 2, 1000) == Ok(100)
  {
    SelectTwoInNameOrder(big, small);
    BatchOfFirstEntry([big, small], 30000, 1);
    BatchOfFirstEntry([small, big], 300, 100);
  }

  /** Half of 60000 bytes, in images of the first entry's size. */
  lemma BatchOfFirstEntry(listing: seq<ImageFile>, bytes: nat, fitting: nat)
    requires listing != [] && ImageBytes(listing[0]) == bytes > 0
    requires fitting <= 1000 && fitting * bytes * 2 == 60000
    ensures CalculateBatchSize(listing, 60000, 1, 2, 1000) == Ok(fitting)
  {
    var divisor := bytes * 2;
    assert fitting * divisor == 60000;
    ExactDiv(60000, divisor, fitting);
    assert 60000 * 1 / divisor == fitting;
  }

  lemma ExactDiv(x: int, d: int, q: int)
    requires d > 0 && q * d == x
    ensures x / d == q
  {
    FloorDivBounds(x, d);
  }

  lemma SelectTwoInNameOrder(big: ImageFile, small: ImageFile)
    requires big == ImageFile("b.png", 100, 100) && small == ImageFile("a.png", 10, 10)
    ensures SelectImages([big, small]) == [small, big]
  {
    FilterTwoImages(big, small);
    SortTwoImages(big, small);
  }

  lemma FilterTwoImages(big: ImageFile, small: ImageFile)
    requires big == ImageFile("b.png", 100, 100) && small == ImageFile("a.png", 10, 10)
    ensures FilterImages([big, small]) == [big, small]
  {
    assert HasImageExtension(big.name) by {
      assert big.name[|big.name| - 4..] == ".png";
    }
    assert HasImageExtension(small.name) by {
      assert small.name[|small.name| - 4..] == ".png";
    }
    assert [big, small][1..] == [small] && [small][1..] == [];
    assert FilterImages([small]) == [small] + FilterImages([]);
  }

  lemma SortTwoImages(big: ImageFile, small: ImageFile)
    requires big == ImageFile("b.png", 100, 100) && small == ImageFile("a.png", 10, 10)
    ensures SortByName([big, small]) == [small, big]
  {
    assert [big, small][1..] == [small] && [small][1..] == [];
    assert SortByName([small]) == [small];
    assert !NameLe(big.name, small.name) by {
      assert big.name[0] == 'b' && small.name[0] == 'a';
    }
    assert InsertByName(big, [small]) == [small] + InsertByName(big, []);
  }
}
