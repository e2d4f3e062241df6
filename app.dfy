/** The watermarking application: the state its event handlers keep (chosen
    folders, slider values, position choice, coordinate fields, progress bar)
    and the arithmetic and control flow of those handlers. Widget drawing,
    dialogs and image decoding and encoding are outside; what they produce
    (a chosen path, a directory listing, the size of a decoded image) is
    passed in. */
module App {
  import opened Wrappers
  import opened Geometry
  import Coords
  import Listing
  import Arith

  /** The progress bar's value after `done` of `total` files: the percentage,
      truncated. */
  function Progress(done: int, total: int): (p: int)
    requires 0 <= done <= total && 0 < total
    ensures 0 <= p <= 100
    ensures p * total <= 100 * done < (p + 1) * total
  {
    Arith.MulMonotone(100, done, total);
    100 * done / total
  }

  /** The values the progress bar shows after each of the first `n` of
      `total` files. */
  function ProgressTrace(n: nat, total: int): (t: seq<int>)
    requires n <= total && 0 < total
    ensures |t| == n
  {
    seq(n, k requires 0 <= k < n => Progress(k + 1, total))
  }

  /** Progress never goes backwards as files complete. */
  lemma ProgressMonotone(i: int, j: int, total: int)
    requires 0 <= i <= j <= total && 0 < total
    ensures Progress(i, total) <= Progress(j, total)
  {
    var p, q := Progress(i, total), Progress(j, total);
    Arith.MulMonotone(100, i, j);
    Arith.MulCancelLess(p, q + 1, total);
  }

  /** Over a whole batch the progress shown is non-decreasing and ends at 100. */
  lemma ProgressTraceShape(total: int)
    requires 0 < total
    ensures var t := ProgressTrace(total, total);
      (forall i, j :: 0 <= i <= j < total ==> t[i] <= t[j]) && t[total - 1] == 100
  {
    var t := ProgressTrace(total, total);
    forall i, j | 0 <= i <= j < total
      ensures t[i] <= t[j]
    {
      ProgressMonotone(i + 1, j + 1, total);
    }
    var p := Progress(total, total);
    assert p * total <= 100 * total < (p + 1) * total;
    Arith.MulCancelLess(p, 101, total);
    Arith.MulCancelLess(99, p + 1, total);
  }

  /** The final informational message of a run. */
  datatype Notice = NoImagesFound | Complete

  /** What the user sees happen, in order: a value put on the progress bar,
      or a message box. */
  datatype Event = ProgressShown(value: int) | Notified(notice: Notice)

  /** The progress-bar events for a sequence of values, one each, in order. */
  function ProgressEvents(values: seq<int>): (e: seq<Event>)
    ensures |e| == |values|
    ensures forall k :: 0 <= k < |e| ==> e[k] == ProgressShown(values[k])
  {
    seq(|values|, k requires 0 <= k < |values| => ProgressShown(values[k]))
  }

  /** One file written by a run: the destination folder, the file name (the
      input's own) and the top-left offset the watermark was pasted at. */
  datatype Output = Output(folder: string, name: string, at: (int, int))

  /** The files one run writes: each image under its own name, in order, all
      at the offset read from the coordinate fields. */
  function BatchOutputs(images: seq<string>, folder: string, at: (int, int)): (r: seq<Output>)
    ensures |r| == |images|
    ensures forall k :: 0 <= k < |r| ==> r[k].name == images[k] && r[k].folder == folder && r[k].at == at
  {
    seq(|images|, k requires 0 <= k < |images| => Output(folder, images[k], at))
  }

  lemma BatchOutputsSnoc(images: seq<string>, name: string, folder: string, at: (int, int))
    ensures BatchOutputs(images + [name], folder, at) == BatchOutputs(images, folder, at) + [Output(folder, name, at)]
  {
  }

  /** The watermark as it is pasted onto one base image: the resized size,
      the opacity applied to its alpha channel, and its top-left offset. */
  datatype Plan = Plan(size: Dims, opacity: int, at: (int, int))

  /** The shared step of the preview and of writing one file: resize to
      `scale` percent of the base width with the original aspect ratio, fade
      by `opacity`, and place at the offset the coordinate fields give. */
  function Compose(base: ImageDims, watermark: ImageDims, scale: nat, opacity: int,
                   xText: string, yText: string): (p: Plan)
    ensures p.size.width * 100 <= base.width * scale < (p.size.width + 1) * 100
    ensures p.size.height * watermark.width <= p.size.width * watermark.height < (p.size.height + 1) * watermark.width
    ensures p.at == Coords.ParseCoords(xText, yText)
    ensures p.opacity == opacity
  {
    Plan(ScaledSize(base, watermark, scale), opacity, Coords.ParseCoords(xText, yText))
  }

  /** The coordinate fields after the position handler runs: unchanged for
      the custom choice or when no base or watermark image could be loaded,
      otherwise the decimal text of the corner offset for the resized
      watermark. */
  function CornerFields(p: Position, base: Option<ImageDims>, watermark: Option<ImageDims>, scale: nat,
                        xText: string, yText: string): (r: (string, string))
    ensures p == Custom || base.None? || watermark.None? ==> r == (xText, yText)
    ensures p != Custom && base.Some? && watermark.Some? ==>
      var at := Resolve(p, base.value, ScaledSize(base.value, watermark.value, scale)).value;
      r == (Coords.ShowInt(at.0), Coords.ShowInt(at.1))
  {
    if base.None? || watermark.None? then (xText, yText)
    else
      match Resolve(p, base.value, ScaledSize(base.value, watermark.value, scale))
      case None => (xText, yText)
      case Some(at) => (Coords.ShowInt(at.0), Coords.ShowInt(at.1))
  }

  /** Choosing a corner and then watermarking the same base image pastes the
      watermark at that corner's offset, margin included: the fields carry the
      offset through text exactly. */
  lemma CornerChoiceReachesComposite(p: Position, base: ImageDims, watermark: ImageDims, scale: nat,
                                     opacity: int, xText: string, yText: string)
    requires p != Custom
    ensures var fields := CornerFields(p, Some(base), Some(watermark), scale, xText, yText);
      var plan := Compose(base, watermark, scale, opacity, fields.0, fields.1);
      Some(plan.at) == Resolve(p, base, plan.size)
  {
    var at := Resolve(p, base, ScaledSize(base, watermark, scale)).value;
    Coords.ShowThenParse(at.0, at.1);
  }

  /** What the preview does: nothing until both an image folder and a
      watermark are chosen, clear itself when the folder holds no image, and
      otherwise show the first image with the watermark planned on it. */
  datatype PreviewOutcome = Unchanged | Cleared | Shown(file: string, plan: Plan)

  class WatermarkApp {
    var imageFolder: string
    var watermarkPath: string
    var outputFolder: string
    /** The size slider, percent of the base width. */
    var scale: int
    /** The opacity slider, percent. */
    var opacity: int
    var position: Position
    var xText: string
    var yText: string
    var progress: int
    /** Every file written, oldest first. */
    var outputs: seq<Output>
    /** Every progress-bar value and message shown to the user, oldest first. */
    var events: seq<Event>

    /** The sliders stay within their ranges and the progress bar within 0..100. */
    ghost predicate Valid()
      reads this
    {
      MinScale <= scale <= MaxScale && 0 <= opacity <= 100 && 0 <= progress <= 100
    }

    constructor ()
      ensures Valid()
      ensures imageFolder == "" && watermarkPath == "" && outputFolder == ""
      ensures scale == 15 && opacity == 100 && position == BottomRight
      ensures xText == "10" && yText == "10"
      ensures progress == 0 && outputs == [] && events == []
    {
      imageFolder, watermarkPath, outputFolder := "", "", "";
      scale, opacity, position := 15, 100, BottomRight;
      xText, yText := "10", "10";
      progress, outputs, events := 0, [], [];
    }

    /** The folder dialog's answer ("" when cancelled) becomes the image folder. */
    method SelectImageFolder(path: string)
      modifies this`imageFolder
      ensures imageFolder == path
    {
      imageFolder := path;
    }

    /** The file dialog's answer ("" when cancelled) becomes the watermark path. */
    method SelectWatermarkImage(path: string)
      modifies this`watermarkPath
      ensures watermarkPath == path
    {
      watermarkPath := path;
    }

    /** The folder dialog's answer ("" when cancelled) becomes the output folder. */
    method SelectOutputFolder(path: string)
      modifies this`outputFolder
      ensures outputFolder == path
    {
      outputFolder := path;
    }

    /** The size slider moved to `value`, which the slider keeps in its range. */
    method MoveSizeSlider(value: int)
      requires Valid() && MinScale <= value <= MaxScale
      modifies this`scale
      ensures Valid() && scale == value
    {
      scale := value;
    }

    /** The opacity slider moved to `value`, which the slider keeps in its range. */
    method MoveOpacitySlider(value: int)
      requires Valid() && 0 <= value <= 100
      modifies this`opacity
      ensures Valid() && opacity == value
    {
      opacity := value;
    }

    /** The user picks entry `p` of the position combo. Only a change of
        entry signals the handler: then the new choice is recorded and, for a
        corner, the coordinate fields are rewritten from the first entry of the
        image folder (`base`) and the watermark (`watermark`), None where
        loading failed. Re-picking the entry already shown does nothing. */
    method ChoosePosition(p: Position, base: Option<ImageDims>, watermark: Option<ImageDims>)
      requires Valid()
      modifies this`position, this`xText, this`yText
      ensures Valid() && position == p
      ensures p == old(position) ==> xText == old(xText) && yText == old(yText)
      ensures p != old(position) ==> (xText, yText) == CornerFields(p, base, watermark, scale, old(xText), old(yText))
    {
      if p != position {
        position := p;
        UpdateXYFields(base, watermark);
      }
    }

    /** The position handler proper. */
    method UpdateXYFields(base: Option<ImageDims>, watermark: Option<ImageDims>)
      requires Valid()
      modifies this`xText, this`yText
      ensures (xText, yText) == CornerFields(position, base, watermark, scale, old(xText), old(yText))
    {
      var fields := CornerFields(position, base, watermark, scale, xText, yText);
      xText, yText := fields.0, fields.1;
    }

    /** Typing into the x field switches the position choice to custom. */
    method EditXField(text: string)
      modifies this`xText, this`position
      ensures xText == text && position == Custom
    {
      xText := text;
      position := Custom;
    }

    /** Typing into the y field switches the position choice to custom. */
    method EditYField(text: string)
      modifies this`yText, this`position
      ensures yText == text && position == Custom
    {
      yText := text;
      position := Custom;
    }

    /** The preview for a folder listing, where `base` is the size of the
        listing's first image file and `watermark` that of the watermark. */
    function Preview(listing: seq<string>, base: ImageDims, watermark: ImageDims): (r: PreviewOutcome)
      requires Valid()
      reads this
      ensures r.Unchanged? <==> imageFolder == "" || watermarkPath == ""
      ensures r.Cleared? <==> imageFolder != "" && watermarkPath != "" && Listing.ImageFiles(listing) == []
      ensures r.Shown? ==> r.file == Listing.ImageFiles(listing)[0] && Listing.IsImageName(r.file)
      ensures r.Shown? ==> r.plan.at == Coords.ParseCoords(xText, yText) && r.plan.opacity == opacity
      ensures r.Shown? ==> r.plan.size == ScaledSize(base, watermark, scale)
    {
      if imageFolder == "" || watermarkPath == "" then Unchanged
      else
        var images := Listing.ImageFiles(listing);
        if images == [] then Cleared
        else Shown(images[0], Compose(base, watermark, scale, opacity, xText, yText))
    }

    /** The start button: with all three paths chosen, watermark every image
        file of `listing` in order, writing each under its own name to the
        output folder and advancing the progress bar after each, then report
        completion while the bar still shows 100 and reset it afterwards; with
        no image files, report that and write nothing. */
    method StartWatermarking(listing: seq<string>)
      requires Valid()
      modifies this`progress, this`outputs, this`events
      ensures Valid()
      ensures imageFolder == "" || watermarkPath == "" || outputFolder == "" ==>
        progress == old(progress) && outputs == old(outputs) && events == old(events)
      ensures imageFolder != "" && watermarkPath != "" && outputFolder != "" && Listing.ImageFiles(listing) == [] ==>
        progress == old(progress) && outputs == old(outputs) && events == old(events) + [Notified(NoImagesFound)]
      ensures imageFolder != "" && watermarkPath != "" && outputFolder != "" && Listing.ImageFiles(listing) != [] ==>
        var images := Listing.ImageFiles(listing);
        progress == 0
        && outputs == old(outputs) + BatchOutputs(images, outputFolder, Coords.ParseCoords(xText, yText))
        && events == old(events) + [ProgressShown(0)] + ProgressEvents(ProgressTrace(|images|, |images|))
                      + [Notified(Complete), ProgressShown(0)]
    {
      if imageFolder == "" || watermarkPath == "" || outputFolder == "" {
        return;
      }
      var images := Listing.ImageFiles(listing);
      if images == [] {
        events := events + [Notified(NoImagesFound)];
      } else {
        RunBatch(images);
      }
    }

    /** The loop of a run over a non-empty list of image files. */
    method RunBatch(images: seq<string>)
      requires Valid() && images != []
      modifies this`progress, this`outputs, this`events
      ensures Valid() && progress == 0
      ensures outputs == old(outputs) + BatchOutputs(images, outputFolder, Coords.ParseCoords(xText, yText))
      ensures events == old(events) + [ProgressShown(0)] + ProgressEvents(ProgressTrace(|images|, |images|))
                        + [Notified(Complete), ProgressShown(0)]
    {
      var total := |images|;
      var at := Coords.ParseCoords(xText, yText);
      progress := 0;
      events := events + [ProgressShown(0)];
      ghost var events0, out0 := events, outputs;
      for i := 1 to total + 1
        invariant 0 <= progress <= 100
        invariant outputs == out0 + BatchOutputs(images[..i - 1], outputFolder, at)
        invariant events == events0 + ProgressEvents(ProgressTrace(i - 1, total))
      {
        BatchOutputsSnoc(images[..i - 1], images[i - 1], outputFolder, at);
        outputs := outputs + [Output(outputFolder, images[i - 1], at)];
        progress := Progress(i, total);
        events := events + [ProgressShown(progress)];
        assert images[..i] == images[..i - 1] + [images[i - 1]];
        assert ProgressTrace(i, total) == ProgressTrace(i - 1, total) + [Progress(i, total)];
        assert ProgressEvents(ProgressTrace(i, total))
            == ProgressEvents(ProgressTrace(i - 1, total)) + [ProgressShown(Progress(i, total))];
      }
      assert images[..total] == images;
      events := events + [Notified(Complete)];
      progress := 0;
      events := events + [ProgressShown(0)];
    }
  }
}
