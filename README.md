# Image stitcher, modelled in Dafny

`stitch_images.py` stacks the images of a folder into one tall RGB image.
It does this in four steps:

- It selects the file names ending in `.jpg`, `.png` or `.tiff` and sorts them.
- It makes a canvas as wide as the first image and as tall as that image times the number of images.
- It pastes the images one under the other, in batches, and saves the output file after every batch.
- It gets the batch size one of two ways. On the manual path the user types it in. On the automatic path, which also takes unrecognised answers, the script shows a size estimate, asks for confirmation, and then computes how many copies of "the first image" fit in half the available memory, capped at a maximum.

The project has four modules:

- `Listing` (`listing.dfy`) models the folder as a listing of entries. Each entry has a name and the pixel size an image decoder would report for it. This module also models Python's order on `str`, the extension filter and `sorted`.
- `Stitcher` (`stitcher.dfy`) models `stitch_images`. The `Canvas` class receives pastes in place. The `StitchImages` and `PasteInBatches` methods are the function and its nested loop. `StitchImages` is proved equal to the pure specification `StitchSpec`, which records the canvas size, every paste and the state seen by every save. `PasteInBatches` is proved to produce the two parts of that record, the pastes (`Layout`) and the saves (`Saves`).
- `Sizing` (`sizing.dfy`) models `calculate_batch_size` and `get_estimated_image_size`.
- `Script` (`script.dfy`) models the module-level A/M/Y decision and the whole run from the choice prompt on. The prompt answers are parameters.

Each uncaught exception that the model keeps is an `Err` value:

- `EmptyListing` is `os.listdir(folder)[0]` on an empty folder.
- `NoImages` is `images[0]` when no entry has an image extension.
- `ZeroImageSize` is the floor division by a zero per-image byte count.
- `ZeroBatchSize` is `range(0, n, 0)`.

## Model

| member | source | states |
|---|---|---|
| Listing.NameLe | stitch_images.py:63 | Python's `<=` on names holds iff the first name is a prefix of the second, or has the smaller character at the first position where they differ |
| Listing.NameLeTotal | stitch_images.py:63 | any two names are comparable under Python's str order, so `sorted` has one answer |
| Listing.NameLeAntisymmetric | stitch_images.py:63 | two names each at most the other are equal |
| Listing.NameLeTransitive | stitch_images.py:63 | the name order is transitive |
| Listing.NameLeCommonPrefix | stitch_images.py:63 | a shared prefix does not decide the order; comparison continues after it |
| Listing.TenthNameSortsBeforeSecond | stitch_images.py:63 | "image_10.tiff" sorts strictly before "image_2.tiff": the order is by character, not by number |
| Listing.HasImageExtension | stitch_images.py:63 | a name passes the `endswith` test iff one of its suffixes is exactly ".jpg", ".png" or ".tiff" |
| Listing.FilterImages | stitch_images.py:63 | an entry is kept iff it is in the listing and its name ends in .jpg, .png or .tiff (case-sensitive); the result is no longer than the listing |
| Listing.FilterImagesCount | stitch_images.py:63 | each image entry is kept exactly as often as the listing holds it; every other entry is dropped |
| Listing.InsertByNameSorted | stitch_images.py:63 | inserting into a name-sorted list keeps it name-sorted |
| Listing.SortedAscending | stitch_images.py:63 | in a name-sorted list every earlier name is at most every later one, not only neighbouring ones |
| Listing.SortByName | stitch_images.py:63 | the result is sorted by name and is a permutation of the input |
| Listing.SelectImages | stitch_images.py:63 | the selection is sorted by name, holds exactly the image entries of the listing, and is a permutation of the filtered list |
| Listing.SelectImagesEmptyIff | stitch_images.py:63-65 | the selection is empty iff no entry has an image extension, which is when `images[0]` fails |
| Listing.FirstSelectedIsLeast | stitch_images.py:42-44 | the first selected entry's name is at most every image entry's name |
| Listing.SortedByNameUnique | stitch_images.py:63 | two name-sorted lists of the same entries with distinct names are equal |
| Listing.SelectImagesIgnoresListingOrder | stitch_images.py:63 | the selection does not depend on the order in which the directory listing reports its entries |
| Stitcher.Canvas.constructor | stitch_images.py:67 | a new canvas has the requested size and no pastes |
| Stitcher.Canvas.Paste | stitch_images.py:73 | a paste appends one placement and changes nothing else |
| Stitcher.Layout | stitch_images.py:69-74 | the running-offset layout has one placement per image |
| Stitcher.LayoutAt | stitch_images.py:69-74 | image k is pasted at x = 0 and y = the start offset plus the heights of the images before it |
| Stitcher.LayoutOffsetsNondecreasing | stitch_images.py:73-74 | later images are never pasted above earlier ones |
| Stitcher.LayoutEndsAtTotalHeight | stitch_images.py:69-74 | after the loop the offset is the sum of all image heights, and the last image ends there |
| Stitcher.UniformHeightsFillCanvas | stitch_images.py:66-74 | when all images share the first image's height, the pastes exactly fill the canvas height |
| Stitcher.Saves | stitch_images.py:70-77 | there is a save iff some paste remains, and each save shows a prefix of the pastes that includes the batch just pasted |
| Stitcher.StitchSpec | stitch_images.py:63-77 | fails with NoImages iff no entry has an image extension, and with ZeroBatchSize iff there are images and the batch is 0; otherwise succeeds; a negative batch pastes and saves nothing |
| Stitcher.StitchImages | stitch_images.py:63-77 | the imperative function returns exactly the specified outcome: error, canvas size, pastes and saves |
| Stitcher.PasteInBatches | stitch_images.py:69-77 | the nested loop leaves the canvas holding the full layout, and saves the canvas once per batch with the pastes made so far |
| Stitcher.SavesCount | stitch_images.py:70-77 | the file is saved ceil(n / batch) times |
| Stitcher.SavesAreBatchPrefixes | stitch_images.py:70-77 | save k shows the pastes of the first (k + 1) batches, clipped at n |
| Stitcher.LastSaveIsComplete | stitch_images.py:70-77 | the last save shows every paste |
| Stitcher.StitchPastesEachImageOnceInOrder | stitch_images.py:63-74 | the canvas is the first image's width by n times its height, and every selected image is pasted once, in name order, at x = 0 below all earlier images |
| Stitcher.StitchSavesOncePerBatch | stitch_images.py:69-77 | for a positive batch there are ceil(n / batch) saves, each a prefix of the pastes ending at a batch boundary, and the last holds them all |
| Stitcher.StitchIgnoresListingOrder | stitch_images.py:63-77 | the stitched result does not depend on the listing order |
| Sizing.CalculateBatchSize | stitch_images.py:18-28 | fails with EmptyListing iff the folder is empty, with ZeroImageSize iff the raw first entry has zero bytes, and succeeds otherwise; a successful result is at most max_images and, below the cap, it is the floor of (memory * fraction) / bytes per image |
| Sizing.HalfMemoryBatchIsZero | stitch_images.py:25-28 | with half the memory the batch size is 0 when 0 images are asked for or half the memory holds no image |
| Sizing.Kilobytes | stitch_images.py:49 | the result is the floor of width * height * 3 * max_images / 1024 |
| Sizing.KilobytesMonotone | stitch_images.py:49 | asking for more images never lowers the estimate |
| Sizing.KilobytesOfNoImages | stitch_images.py:49 | asking for no images gives 0 KB |
| Sizing.EstimateImageSize | stitch_images.py:42-51 | fails with NoImages iff no entry has an image extension; otherwise reports the size of the image entry with the least name, and the matching kilobyte total |
| Sizing.EstimateSizeIndependentOfCount | stitch_images.py:42-51 | the reported width and height do not depend on max_images |
| Sizing.BatchSizeUsesUnsortedFirstEntry | stitch_images.py:18-20 | the batch size is computed from the raw first entry, not the first sorted image; swapping two listed files changes it from 1 to 100 |
| Sizing.SelectTwoInNameOrder | stitch_images.py:63 | a listing of "b.png" then "a.png" is selected as "a.png", "b.png" |
| Script.UpperIsLetter | stitch_images.py:94 | an answer upper-cases to a single letter iff it is that letter in either case |
| Script.Decide | stitch_images.py:94-129 | Manual iff the choice is "M"/"m"; otherwise Abort iff the confirmation is not "Y"/"y", else Automatic with half the memory |
| Script.Run | stitch_images.py:94-132 | on the manual path the stitcher gets the typed batch size; the run goes estimate, confirmation, batch size, stitch: it aborts only on an Abort decision, finishes only with an image in the folder, and never crashes on the empty-folder error of `calculate_batch_size`, because the estimate fails first |
| Script.AutomaticRunUsesCalculatedBatch | stitch_images.py:108-132 | on the confirmed automatic path with an image and a first entry of non-zero size, the stitcher gets exactly the calculated batch size |
| Script.AutomaticRunPastesEveryImage | stitch_images.py:108-132 | with, in addition, a positive maximum and half the memory holding one image, the run finishes with every selected image pasted in name order |
| Sizing.HalfMemoryBatchIsPositive | stitch_images.py:25-28 | with half the memory, a positive maximum and room for one image, the batch size is at least 1 |
| Script.UnrecognisedChoiceActsLikeA | stitch_images.py:113-129 | any choice other than A/a/M/m runs exactly as "A" |
| Script.RunAbortsIff | stitch_images.py:94-132 | the run aborts iff the choice is not M, the confirmation is not Y, and the folder has an image |
| Script.RunWithoutImagesCrashes | stitch_images.py:94-132 | a folder without images crashes with NoImages whatever the answers, including when the answer would have aborted |
| Script.AutomaticZeroBatchCrashes | stitch_images.py:108-132 | on the confirmed automatic path, a maximum of 0, or too little memory for one image, crashes the stitcher at `range` |
| Script.AutomaticNegativeMaximumStitchesNothing | stitch_images.py:108-132 | on the confirmed automatic path a negative maximum finishes with a blank canvas: nothing pasted and nothing saved |

## Left out

- Image decoding is not modelled. Each entry carries the size the decoder would report, and every listed entry is assumed to decode, so unreadable files and subdirectories are not modelled.
- Pixels are not modelled. `paste` is recorded as an (image, x, y) placement, and clipping of images wider or taller than the canvas is not modelled.
- Saving is recorded as the list of placements visible at each `save`. The TIFF encoding, `os.makedirs`, `os.path.dirname` and `os.path.join` are not modelled, nor is the exception `save` raises for an output name whose extension the image library does not know.
- A missing or unreadable folder is not modelled: `os.listdir` would raise before anything else, and the listing is a parameter.
- Available memory comes from `psutil.virtual_memory()`, so it is a parameter.
- The float fraction `0.5` is modelled as the exact rational 1/2. Float rounding of very large products is not modelled.
- Sizing.CalculateBatchSize: the `int()` of a float result is taken to be exact.
- The prompts are not modelled. The folder, destination and file-name prompts, `input`, the `int()` parsing of typed numbers (and its ValueError), `print` and `exit()` are all left out. The parsed answers are parameters, and a typed number is taken to parse.
- `str.upper()` is modelled on ASCII letters only. Non-ASCII case mappings (for example "ß" to "SS") are not modelled.
- `random_image_downloader.py` is not part of this model.
- The nested loop of `stitch_images` lives in the separate method `Stitcher.PasteInBatches`, which `Stitcher.StitchImages` calls. The loop is otherwise unchanged.
