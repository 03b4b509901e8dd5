/** The control panel's state that the application reads: the model and output-format
    selectors, the output folder entry, and the start and end entries of the video range. An
    entry holds a whole number or is empty (`None`). */
module ControlPanels {
  import opened Media

  /** The networks offered by the model selector, in selector order. */
  const ModelNames: seq<string> := ["BSRGAN", "BSRGANx2", "ESRGAN", "FSSR_JPEG", "RealSR_DPED", "RealSR_JPEG", "RRDB"]

  /** The start entry after `set_video_length(end)`: pulled back to `max(end - 1, 0)` when it
      lies after `end`, left alone otherwise. */
  function ClampStart(start: int, end: int): (r: int)
    ensures start <= end ==> r == start
    ensures end < start && end >= 1 ==> r == end - 1
    ensures end < start && end < 1 ==> r == 0
  {
    if end < start then (if end - 1 > 0 then end - 1 else 0) else start
  }

  /** With a non-negative range end and start, the clamped start lies in `0 ..= end`; it never
      moves forward, and a start already inside the range stays where it is. */
  lemma ClampKeepsRangeOrdered(start: int, end: int)
    requires start >= 0 && end >= 0
    ensures 0 <= ClampStart(start, end) <= end
    ensures ClampStart(start, end) <= start
    ensures start <= end ==> ClampStart(start, end) == start
  {
  }

  class ControlPanel {
    /** The names the model selector offers. */
    const models: seq<string>
    /** Position of the chosen model in `models`. */
    var modelIndex: nat
    /** Position of the chosen output format in the image extensions. */
    var formatIndex: nat
    /** The text of the output folder entry. */
    var outputFolder: string
    /** The start entry of the video controls. */
    var startEntry: Option<int>
    /** The end entry of the video controls. */
    var endEntry: Option<int>

    /** The panel as built: the first of the seven models, the first output format, the
        default output folder, start `0` and an empty end. */
    constructor (defaultOutputFolder: string)
      ensures modelIndex == 0 && models == ModelNames && |models| == 7 && models[modelIndex] == "BSRGAN"
      ensures formatIndex == 0 && outputFolder == defaultOutputFolder
      ensures startEntry == Some(0) && endEntry == None
    {
      models := ModelNames;
      modelIndex := 0;
      formatIndex := 0;
      outputFolder := defaultOutputFolder;
      startEntry := Some(0);
      endEntry := None;
    }

    /** `set_video_length(end)`: reading an empty start entry raises `ValueError` before
        anything changes; otherwise the start is clamped (see `ClampStart`) and the end entry
        is set to `end`. */
    method SetVideoLength(end: int) returns (r: Outcome)
      modifies this`startEntry, this`endEntry
      ensures r == Pass <==> old(startEntry).Some?
      ensures r.Fail? ==> r.error == ValueError && startEntry == old(startEntry) && endEntry == old(endEntry)
      ensures r.Pass? ==> startEntry == Some(ClampStart(old(startEntry).value, end)) && endEntry == Some(end)
    {
      if startEntry.None? {
        return Fail(ValueError);
      }
      var start := startEntry.value;
      if end < start {
        startEntry := Some(if end - 1 > 0 then end - 1 else 0);
      }
      endEntry := Some(end);
      r := Pass;
    }

    /** `start_no_empty`: an empty start entry is refilled with `0`. */
    method StartNoEmpty()
      modifies this`startEntry
      ensures startEntry == if old(startEntry).None? then Some(0) else old(startEntry)
    {
      if startEntry.None? {
        startEntry := Some(0);
      }
    }
  }
}
