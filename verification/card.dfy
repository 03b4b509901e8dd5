/** A card of the footer: one loaded image or video file, its thumbnail, its place in the footer,
    whether it is highlighted, the frame currently taken as its original and the upscaled output. */
module Cards {
  import opened Media
  import opened Text

  /** The frames the video reader yields, in file order; `None` is a frame whose read fails. */
  datatype Video = Video(frames: seq<Option<Image>>, fps: real)

  /** What a card was opened from: a still image or a video. */
  datatype Source = Still | Clip(video: Video)

  /** The file system as the card sees it: decoding a path as an image or as a video. */
  datatype Storage = Storage(openImage: string -> Image, openVideo: string -> Video)

  datatype Kind = ImageFile | VideoFile

  /** The outcome of opening a file for a card: what the card shows, or the exception raised. */
  datatype Loading = Loaded(source: Source, file: Image) | LoadFailed(error: Failure)

  /** Longest side of a thumbnail, in pixels. */
  const MaxThumbnailSize := 75

  /** The extension is the text after the last `.` of the whole path; image extensions are
      checked first, then video extensions; anything else is rejected (`ValueError`). */
  function Classify(path: string, imageExtensions: seq<string>, videoExtensions: seq<string>): (r: Option<Kind>)
    ensures AfterLast(path, '.') in imageExtensions ==> r == Some(ImageFile)
    ensures r == Some(VideoFile) <==> AfterLast(path, '.') !in imageExtensions && AfterLast(path, '.') in videoExtensions
    ensures r.None? <==> AfterLast(path, '.') !in imageExtensions + videoExtensions
  {
    var ext := AfterLast(path, '.');
    if ext in imageExtensions then Some(ImageFile)
    else if ext in videoExtensions then Some(VideoFile)
    else None
  }

  /** The position a seek request lands on; the reader does not go below the first frame. */
  function Seek(position: int): (r: nat)
    ensures position >= 0 ==> r == position
    ensures position < 0 ==> r == 0
  {
    if position < 0 then 0 else position
  }

  /** One read at position `pos`: the frame there, or a failed read past the end. */
  function ReadAt(v: Video, pos: nat): (r: Option<Image>)
    ensures pos < |v.frames| ==> r == v.frames[pos]
    ensures pos >= |v.frames| ==> r.None?
  {
    if pos < |v.frames| then v.frames[pos] else None
  }

  /** The results of `n` consecutive reads starting at `pos`. */
  function Reads(v: Video, pos: nat, n: int): (r: seq<Option<Image>>)
    ensures |r| == if n <= 0 then 0 else n
    ensures forall k :: 0 <= k < |r| ==> r[k] == ReadAt(v, pos + k)
  {
    if n <= 0 then [] else Reads(v, pos, n - 1) + [ReadAt(v, pos + n - 1)]
  }

  /** The frames of `results` that were read successfully, in read order. */
  function Present(results: seq<Option<Image>>): (r: seq<Image>)
    ensures |r| <= |results|
  {
    if results == [] then []
    else
      var last := results[|results| - 1];
      Present(results[..|results| - 1]) + (if last.Some? then [last.value] else [])
  }

  /** Every kept frame is one of the successful reads. */
  lemma {:induction false} PresentComesFromReads(results: seq<Option<Image>>)
    ensures forall img :: img in Present(results) ==> Some(img) in results
  {
    if results != [] {
      var init := results[..|results| - 1];
      PresentComesFromReads(init);
      assert forall x :: x in init ==> x in results;
    }
  }

  /** One more read keeps its frame, when it succeeds, after the frames kept so far. */
  lemma PresentStep(v: Video, pos: nat, n: nat)
    ensures Present(Reads(v, pos, n + 1))
      == Present(Reads(v, pos, n)) + (if ReadAt(v, pos + n).Some? then [ReadAt(v, pos + n).value] else [])
  {
    var results := Reads(v, pos, n + 1);
    assert results[..|results| - 1] == Reads(v, pos, n);
  }

  /** `select_subclip(start, end)`: seek to `start - 1`, then read once for each of
      `start, ..., end - 1`, keeping the successful reads. */
  function Subclip(v: Video, start: int, end: int): (r: seq<Image>)
    ensures |r| <= if end <= start then 0 else end - start
  {
    Present(Reads(v, Seek(start - 1), end - start))
  }

  /** A subclip has at most `end - start` frames, none when `end <= start`, and every one of
      them is a frame of the video. */
  lemma SubclipBounds(v: Video, start: int, end: int)
    ensures end <= start ==> Subclip(v, start, end) == []
    ensures start <= end ==> |Subclip(v, start, end)| <= end - start
    ensures forall img :: img in Subclip(v, start, end) ==> Some(img) in v.frames
  {
    var results := Reads(v, Seek(start - 1), end - start);
    PresentComesFromReads(results);
    forall img | img in Subclip(v, start, end) ensures Some(img) in v.frames {
      var k :| 0 <= k < |results| && results[k] == Some(img);
      assert ReadAt(v, Seek(start - 1) + k) == Some(img);
    }
  }

  /** On a video whose frames all read successfully, `select_subclip(start, end)` with
      `0 <= start <= end` and enough frames yields the `end - start` frames that follow the
      seek, in order: frames `start - 1 .. end - 2` (counting from zero) for `start >= 1`, and
      for `start == 0`, where the seek to `-1` lands on the first frame, frames `0 .. end - 1`. */
  lemma SubclipOfIntactVideo(v: Video, start: int, end: int)
    requires forall k :: 0 <= k < |v.frames| ==> v.frames[k].Some?
    requires 0 <= start <= end && Seek(start - 1) + (end - start) <= |v.frames|
    ensures |Subclip(v, start, end)| == end - start
    ensures forall k :: 0 <= k < end - start ==> Subclip(v, start, end)[k] == v.frames[Seek(start - 1) + k].value
  {
    var results := Reads(v, Seek(start - 1), end - start);
    assert forall k :: 0 <= k < |results| ==> results[k] == v.frames[Seek(start - 1) + k];
    PresentOfSuccesses(results);
  }

  /** A start entry of 0 reads the same frames as a start entry of 1 and then one frame more:
      both seek to the first frame, and 0 reads once more before `end`. */
  lemma SubclipFromZero(v: Video, end: int)
    requires end >= 1
    ensures Subclip(v, 0, end)
      == Subclip(v, 1, end) + (if ReadAt(v, end - 1).Some? then [ReadAt(v, end - 1).value] else [])
  {
    PresentStep(v, 0, end - 1);
  }

  /** When every read succeeds, all the frames are kept, in order. */
  lemma {:induction false} PresentOfSuccesses(results: seq<Option<Image>>)
    requires forall k :: 0 <= k < |results| ==> results[k].Some?
    ensures |Present(results)| == |results|
    ensures forall k :: 0 <= k < |results| ==> Present(results)[k] == results[k].value
  {
    if results != [] {
      var init := results[..|results| - 1];
      PresentOfSuccesses(init);
      assert Present(results) == Present(init) + [results[|results| - 1].value];
    }
  }

  /** `Card.__init__` up to the widgets: classify the path, decode it (for a video, seek to the
      first frame and read it), and compute the thumbnail size, which divides by the sides. */
  function Load(path: string, storage: Storage, imageExtensions: seq<string>, videoExtensions: seq<string>): (r: Loading)
    ensures Classify(path, imageExtensions, videoExtensions).None? <==> r == LoadFailed(ValueError)
    ensures r.Loaded? ==> (r.source.Still? <==> Classify(path, imageExtensions, videoExtensions) == Some(ImageFile))
    ensures r.Loaded? && r.source.Clip? ==> Some(r.file) == ReadAt(r.source.video, 0)
    ensures r == LoadFailed(KeyError) <==> Classify(path, imageExtensions, videoExtensions) == Some(VideoFile)
                                           && ReadAt(storage.openVideo(path), 0).None?
    ensures r.Loaded? ==> r.file.width > 0 && r.file.height > 0
    ensures Classify(path, imageExtensions, videoExtensions) == Some(ImageFile) ==>
      var image := storage.openImage(path);
      && (r.Loaded? <==> image.width > 0 && image.height > 0)
      && (r.Loaded? ==> r == Loaded(Still, image))
      && (r.LoadFailed? ==> r.error == ZeroDivisionError)
    ensures Classify(path, imageExtensions, videoExtensions) == Some(VideoFile) ==>
      var video := storage.openVideo(path);
      var first := ReadAt(video, 0);
      && (first.Some? ==> (r.Loaded? <==> first.value.width > 0 && first.value.height > 0))
      && (first.Some? && r.LoadFailed? ==> r.error == ZeroDivisionError)
      && (r.Loaded? ==> r == Loaded(Clip(video), first.value))
  {
    var kind := Classify(path, imageExtensions, videoExtensions);
    if kind.None? then LoadFailed(ValueError)
    else if kind.value.ImageFile? then Opened(Still, storage.openImage(path))
    else LoadVideo(storage.openVideo(path))
  }

  /** The video branch of `Card.__init__`: seek before the first frame (the reader stays on
      it) and read it; a failed read leaves no frame, and indexing it raises `KeyError`. */
  function LoadVideo(v: Video): (r: Loading)
    ensures r == LoadFailed(KeyError) <==> ReadAt(v, 0).None?
    ensures r.LoadFailed? && ReadAt(v, 0).Some? ==> r.error == ZeroDivisionError
    ensures r.Loaded? ==> r.source == Clip(v) && Some(r.file) == ReadAt(v, 0)
    ensures r.Loaded? ==> r.file.width > 0 && r.file.height > 0
  {
    var first := ReadAt(v, Seek(0 - 1));
    if first.None? then LoadFailed(KeyError) else Opened(Clip(v), first.value)
  }

  /** The end of `Card.__init__`: the thumbnail is made, which divides by both sides of the
      picture, so a side of zero raises `ZeroDivisionError`. */
  function Opened(source: Source, file: Image): (r: Loading)
    ensures r.LoadFailed? <==> file.width == 0 || file.height == 0
    ensures r.LoadFailed? ==> r.error == ZeroDivisionError
    ensures r.Loaded? ==> r.source == source && r.file == file && file.width > 0 && file.height > 0
  {
    if file.width == 0 || file.height == 0 then LoadFailed(ZeroDivisionError) else Loaded(source, file)
  }

  /** `_create_thumbnail_image`: the picture fitted into a 75 by 75 box; it fills the box in
      width or in height. */
  function Thumbnail(file: Image): (r: Size)
    requires file.width > 0 && file.height > 0
    ensures 0 <= r.width <= MaxThumbnailSize && 0 <= r.height <= MaxThumbnailSize
    ensures r.width == MaxThumbnailSize || r.height == MaxThumbnailSize
  {
    FitInsideBox(MaxThumbnailSize, MaxThumbnailSize, file.width, file.height);
    FitToBox(MaxThumbnailSize, MaxThumbnailSize, file.width, file.height).value
  }

  /** A cell of the footer grid. */
  datatype Cell = Cell(row: nat, column: nat)

  class Card {
    const path: string
    const source: Source
    const thumbnail: Size
    /** Position in the footer, as the footer last numbered it. */
    var index: int
    /** Whether the card has the highlighted border. */
    var selected: bool
    /** The upscaled picture, once the worker has sent one. */
    var output: Option<Image>
    /** The picture taken as the original: the image, or the current video frame. */
    var file: Image
    /** Where the footer grid placed the card, if it did. */
    var cell: Option<Cell>

    /** A new card is unselected, has no output and is not yet placed. */
    constructor (path: string, index: int, loaded: Loading)
      requires loaded.Loaded? && loaded.file.width > 0 && loaded.file.height > 0
      ensures this.path == path && this.index == index
      ensures !selected && output == None && cell == None
      ensures source == loaded.source && file == loaded.file && thumbnail == Thumbnail(loaded.file)
    {
      this.path := path;
      this.index := index;
      this.source := loaded.source;
      this.file := loaded.file;
      this.thumbnail := Thumbnail(loaded.file);
      this.selected := false;
      this.output := None;
      this.cell := None;
    }

    predicate IsImage()
    {
      source.Still?
    }

    /** `toggle_border`: flip the highlight; two calls restore it. */
    method ToggleBorder()
      modifies this`selected
      ensures selected == !old(selected)
    {
      selected := !selected;
    }

    /** `select_video_frame(pointer)`: seek to `pointer - 1` and read one frame; only a
        successful read replaces the original picture. */
    method SelectVideoFrame(pointer: int) returns (frame: Option<Image>)
      requires source.Clip?
      modifies this`file
      ensures frame == ReadAt(source.video, Seek(pointer - 1))
      ensures file == (if frame.Some? then frame.value else old(file))
    {
      frame := ReadAt(source.video, Seek(pointer - 1));
      if frame.Some? {
        file := frame.value;
      }
    }

    /** `select_subclip(start, end)`: the frames read successfully while reading once for each
        of `start, ..., end - 1` after seeking to `start - 1`. */
    method SelectSubclip(start: int, end: int) returns (clip: seq<Image>)
      requires source.Clip?
      ensures clip == Subclip(source.video, start, end)
    {
      var v := source.video;
      var first := Seek(start - 1);
      var pos := first;
      clip := [];
      var step := start;
      while step < end
        invariant step == start || start <= step <= end
        invariant clip == Present(Reads(v, first, step - start))
        invariant pos == first + (step - start)
      {
        clip := ReadNext(v, first, step - start, pos, clip);
        pos := pos + 1;
        step := step + 1;
      }
    }
  }

  /** One read of the subclip loop at reader position `pos`: its frame, when the read
      succeeds, is kept after the frames kept so far. */
  method ReadNext(v: Video, first: nat, n: nat, pos: nat, clip: seq<Image>) returns (more: seq<Image>)
    requires pos == first + n && clip == Present(Reads(v, first, n))
    ensures more == Present(Reads(v, first, n + 1))
  {
    PresentStep(v, first, n);
    var read := ReadAt(v, pos);
    more := if read.Some? then clip + [read.value] else clip;
  }
}
