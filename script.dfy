/** The module-level part of `stitch_images.py` after the prompts: choose
    between an automatic and a manual batch size, estimate and confirm on
    the automatic path, then stitch. The answers to the prompts are
    parameters, already parsed where the script calls `int()`. */
module Script {
  import opened Listing
  import opened Stitcher
  import opened Sizing

  /** `str.upper()` on ASCII letters; other characters are left as they are. */
  function UpperChar(c: char): char
  {
    if 'a' <= c <= 'z' then (c as int - 32) as char else c
  }

  function Upper(s: string): (r: string)
    ensures |r| == |s|
    ensures forall i :: 0 <= i < |s| ==> r[i] == UpperChar(s[i])
  {
    seq(|s|, i requires 0 <= i < |s| => UpperChar(s[i]))
  }

  /** An answer upper-cases to a one-letter word exactly when it is that
      letter in either case. */
  lemma UpperIsLetter(s: string, upper: char)
    requires 'A' <= upper <= 'Z'
    ensures Upper(s) == [upper] <==> s == [upper] || s == [(upper as int + 32) as char]
  {
    if Upper(s) == [upper] {
      assert |s| == 1 && UpperChar(s[0]) == upper;
      assert s == [s[0]];
    }
  }

  /** Where the answers lead. */
  datatype Decision =
    | Automatic(fractionNum: nat, fractionDen: nat)  // size batches from this share of memory
    | Manual                                           // use the batch size typed in
    | Abort                                            // "Process aborted."

  /** The `if`/`elif`/`else` on `choice.upper()` and `confirm.upper()`.
      "A" and every answer that is neither "A" nor "M" take the same
      automatic path (the latter after a warning); that path goes on only
      on a "Y" and then uses half the memory. */
  function Decide(choice: string, confirm: string): (d: Decision)
    ensures d == Manual <==> choice == "M" || choice == "m"
    ensures d == Abort <==> choice != "M" && choice != "m" && confirm != "Y" && confirm != "y"
    ensures d.Automatic? <==> choice != "M" && choice != "m" && (confirm == "Y" || confirm == "y")
    ensures d.Automatic? ==> d.fractionNum == 1 && d.fractionDen == 2
  {
    UpperIsLetter(choice, 'M');
    UpperIsLetter(confirm, 'Y');
    if Upper(choice) == "A" then
      if Upper(confirm) != "Y" then Abort else Automatic(1, 2)
    else if Upper(choice) == "M" then
      Manual
    else
      if Upper(confirm) != "Y" then Abort else Automatic(1, 2)
  }

  /** The answers to the prompts: the mode, the maximum number of images
      and the confirmation (automatic path), the batch size (manual path). */
  datatype Answers = Answers(choice: string, maxImages: int, confirm: string, manualBatchSize: int)

  /** How a run of the script ends. */
  datatype Outcome =
    | Aborted
    | Crashed(failure: Failure)
    | Finished(stitched: Stitched)

  function FromStitch(r: Result<Stitched>): Outcome
  {
    match r
    case Ok(s) => Finished(s)
    case Err(f) => Crashed(f)
  }

  /** The script from the choice prompt on. On the automatic path the size
      estimate comes before the confirmation, so a folder without images
      ends in a crash even when the answer would have aborted. */
  function Run(listing: seq<ImageFile>, availableMemory: nat, answers: Answers): (o: Outcome)
    ensures Decide(answers.choice, answers.confirm) == Manual ==>
              o == FromStitch(StitchSpec(listing, answers.manualBatchSize))
    ensures o == Aborted ==> Decide(answers.choice, answers.confirm) == Abort
    ensures o.Finished? ==> SelectImages(listing) != []
    ensures o.Crashed? ==> o.failure != EmptyListing
  {
    var decision := Decide(answers.choice, answers.confirm);
    if decision.Manual? then
      FromStitch(StitchSpec(listing, answers.manualBatchSize))
    else
      var estimate := EstimateImageSize(listing, answers.maxImages);
      if estimate.Err? then Crashed(estimate.error)
      else if decision.Abort? then Aborted
      else
        var batch := CalculateBatchSize(listing, availableMemory, decision.fractionNum,
                                        decision.fractionDen, answers.maxImages);
        if batch.Err? then Crashed(batch.error)
        else FromStitch(StitchSpec(listing, batch.value))
  }

  // ---------------------------------------------------------------------
  // Properties of the whole run

  /** An unrecognised choice behaves exactly like "A". */
  lemma UnrecognisedChoiceActsLikeA(listing: seq<ImageFile>, availableMemory: nat, answers: Answers)
    requires answers.choice !in {"A", "a", "M", "m"}
    ensures Run(listing, availableMemory, answers)
            == Run(listing, availableMemory, answers.(choice := "A"))
  {
    var d1 := Decide(answers.choice, answers.confirm);
    var d2 := Decide("A", answers.confirm);
    assert d1 == d2;
  }

  /** The run aborts exactly when the choice is not "M", the folder has an
      image and the confirmation is not "Y". */
  lemma RunAbortsIff(listing: seq<ImageFile>, availableMemory: nat, answers: Answers)
    ensures Run(listing, availableMemory, answers) == Aborted
            <==> answers.choice !in {"M", "m"} && answers.confirm !in {"Y", "y"}
                 && exists e :: e in listing && HasImageExtension(e.name)
  {
    var d := Decide(answers.choice, answers.confirm);
    if d.Manual? {
      var r := StitchSpec(listing, answers.manualBatchSize);
      assert FromStitch(r) != Aborted;
    } else if d.Automatic? {
      var estimate := EstimateImageSize(listing, answers.maxImages);
      if estimate.Ok? {
        var batch := CalculateBatchSize(listing, availableMemory, 1, 2, answers.maxImages);
        if batch.Ok? {
          assert FromStitch(StitchSpec(listing, batch.value)) != Aborted;
        }
      }
    }
  }

  /** A folder without images ends in a crash whatever the answers: on the
      automatic path at the estimate, on the manual path at `images[0]`. */
  lemma RunWithoutImagesCrashes(listing: seq<ImageFile>, availableMemory: nat, answers: Answers)
    requires forall e :: e in listing ==> !HasImageExtension(e.name)
    ensures Run(listing, availableMemory, answers) == Crashed(NoImages)
  {
  }

  /** On the automatic path a batch size of zero reaches the stitcher and
      crashes it at `range`: this happens when half the available memory
      holds no image, or when zero images are asked for. */
  lemma AutomaticZeroBatchCrashes(listing: seq<ImageFile>, availableMemory: nat, answers: Answers)
    requires answers.choice !in {"M", "m"} && answers.confirm in {"Y", "y"}
    requires exists e :: e in listing && HasImageExtension(e.name)
    requires ImageBytes(listing[0]) > 0
    requires answers.maxImages == 0
             || (answers.maxImages > 0 && availableMemory < 2 * ImageBytes(listing[0]))
    ensures Run(listing, availableMemory, answers) == Crashed(ZeroBatchSize)
  {
    HalfMemoryBatchIsZero(listing, availableMemory, answers.maxImages);
  }

  /** On the confirmed automatic path, with an image in the folder and a
      first entry of non-zero size, the stitcher gets exactly the batch size
      `calculate_batch_size` returns. */
  lemma AutomaticRunUsesCalculatedBatch(listing: seq<ImageFile>, availableMemory: nat, answers: Answers)
    requires answers.choice !in {"M", "m"} && answers.confirm in {"Y", "y"}
    requires exists e :: e in listing && HasImageExtension(e.name)
    requires ImageBytes(listing[0]) > 0
    ensures CalculateBatchSize(listing, availableMemory, 1, 2, answers.maxImages).Ok?
    ensures Run(listing, availableMemory, answers)
            == FromStitch(StitchSpec(listing, CalculateBatchSize(listing, availableMemory, 1, 2, answers.maxImages).value))
  {
    SelectImagesEmptyIff(listing);
  }

  /** When, in addition, at least one image is asked for and half the
      memory holds one, the run finishes and every selected image is
      pasted, in name order. */
  lemma AutomaticRunPastesEveryImage(listing: seq<ImageFile>, availableMemory: nat, answers: Answers)
    requires answers.choice !in {"M", "m"} && answers.confirm in {"Y", "y"}
    requires exists e :: e in listing && HasImageExtension(e.name)
    requires ImageBytes(listing[0]) > 0
    requires answers.maxImages > 0 && availableMemory >= 2 * ImageBytes(listing[0])
    ensures Run(listing, availableMemory, answers).Finished?
    ensures |Run(listing, availableMemory, answers).stitched.placements| == |SelectImages(listing)|
    ensures forall k :: 0 <= k < |SelectImages(listing)| ==>
              Run(listing, availableMemory, answers).stitched.placements[k].image == SelectImages(listing)[k]
  {
    var batch := CalculateBatchSize(listing, availableMemory, 1, 2, answers.maxImages);
    AutomaticRunUsesCalculatedBatch(listing, availableMemory, answers);
    HalfMemoryBatchIsPositive(listing, availableMemory, answers.maxImages);
    SelectImagesEmptyIff(listing);
    StitchPastesEachImageOnceInOrder(listing, batch.value);
  }

  /** A negative maximum on the automatic path becomes a negative batch
      size: the canvas is created but nothing is pasted and nothing saved. */
  lemma AutomaticNegativeMaximumStitchesNothing(listing: seq<ImageFile>, availableMemory: nat, answers: Answers)
    requires answers.choice !in {"M", "m"} && answers.confirm in {"Y", "y"}
    requires exists e :: e in listing && HasImageExtension(e.name)
    requires ImageBytes(listing[0]) > 0
    requires answers.maxImages < 0
    ensures Run(listing, availableMemory, answers).Finished?
    ensures Run(listing, availableMemory, answers).stitched.placements == []
    ensures Run(listing, availableMemory, answers).stitched.saves == []
  {
    var batch := CalculateBatchSize(listing, availableMemory, 1, 2, answers.maxImages);
    assert batch.Ok? && batch.value <= answers.maxImages < 0;
  }
}
