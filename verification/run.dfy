/** The application window: the settings it keeps, the names of the files it writes, and the
    flows that tie the footer, the work area, the control panel and the worker together. The
    worker runs in another process; here the pipe is two sequences: the requests sent
    (`requests`) and the messages received so far, which `WaitForUpscaledImages` is given. */
module App {
  import opened Media
  import opened Text
  import opened Cards
  import opened Footers
  import opened WorkAreas
  import opened ControlPanels
  import opened Worker

  /** At most this many of the chosen files are opened. */
  const MaxFilesOpen := 18

  /** A file the application writes: an upscaled picture, or an upscaled video with its
      frame rate. */
  datatype Saved = SavedImage(path: string, image: Image) | SavedVideo(path: string, frames: seq<Image>, fps: real)

  /** What the window shows besides the footer: the range entries, the work area's card,
      picture, picture size and placement, and whether the save button is shown. */
  datatype Screen = Screen(start: Option<int>, end: Option<int>, card: Card?, showing: Option<Shown>,
                           resized: Option<Size>, placed: bool, saveShown: bool)

  /** Where a wait for the worker stands after the messages received so far: still waiting
      for `done`, finished, or stopped by an exception. */
  datatype Wait = Pending | Finished | Raised(error: Failure)

  // ---------------------------------------------------------------------------------------
  // Output names

  /** The stem of a file: the text after the path's last `/`, cut at its first `.`. It is the
      start of the file name, up to (not including) the first `.`. */
  function Stem(path: string): (r: string)
    ensures '/' !in r && '.' !in r
    ensures var name := AfterLast(path, '/');
      |r| <= |name| && r == name[..|r|] && (|r| < |name| ==> name[|r|] == '.')
  {
    AfterLastIsLastPiece(path, '/');
    BeforeFirstIsFirstPiece(AfterLast(path, '/'), '.');
    BeforeFirst(AfterLast(path, '/'), '.')
  }

  /** Where an output is written: `<stem>_upscaled_.<extension>` in `folder`. */
  function OutputPath(folder: string, path: string, extension: string): (r: string)
    ensures var name := Stem(path) + "_upscaled_." + extension;
      |r| >= |name| && r[|r| - |name|..] == name
  {
    PathJoin(folder, Stem(path) + "_upscaled_." + extension)
  }

  /** The stem of `dir/name.ext` is `name` when the name holds no `/` or `.` and the extension
      no `/`. */
  lemma {:induction false} StemOfPlainPath(dir: string, name: string, ext: string)
    requires '/' !in name && '.' !in name && '/' !in ext
    ensures Stem(dir + "/" + name + "." + ext) == name
  {
    var file := name + "." + ext;
    assert dir + "/" + name + "." + ext == (dir + "/") + file;
    AfterLastOfSuffix(dir + "/", file, '/');
    BeforeFirstOfPrefix(name, "." + ext, '.');
    assert file == name + ("." + ext);
  }

  // ---------------------------------------------------------------------------------------
  // Opening files

  /** `paths[:MAX_FILES_OPEN]`. */
  function FirstFiles(paths: seq<string>): (r: seq<string>)
    ensures |r| <= MaxFilesOpen && |r| <= |paths| && r == paths[..|r|]
    ensures |paths| <= MaxFilesOpen ==> r == paths
  {
    if |paths| <= MaxFilesOpen then paths else paths[..MaxFilesOpen]
  }

  // ---------------------------------------------------------------------------------------
  // Closing a file

  /** Closing the selected card of a consistent footer, on the flags: the cursor is cleared by
      the removal, so selecting card 0 afterwards leaves card 0, and only it, highlighted. */
  lemma {:induction false} CloseSelectsFirst(flags: seq<bool>, index: nat)
    requires Consistent(flags, Some(index)) && index < |flags| && |flags| > 1
    ensures var (rest, cursor) := RemoveFlags(flags, Some(index), index);
      var s := SelectFlags(rest, cursor, 0);
      && cursor == None && s.status == Chosen && s.selected == Some(0)
      && s.flags[0] && (forall k :: 0 < k < |s.flags| ==> !s.flags[k])
  {
    var (rest, cursor) := RemoveFlags(flags, Some(index), index);
    RemoveAtOrAfterSelectionKeepsConsistent(flags, Some(index), index);
    SelectKeepsConsistent(rest, cursor, 0);
  }

  // ---------------------------------------------------------------------------------------
  // Receiving

  /** The receiver takes the message for the end of a reply. */
  predicate ReadsDone(m: Message)
  {
    !m.Picture? && Rendered(m) == "done"
  }

  /** Position of the first message that reads `done`, or the number of messages. */
  function DoneAt(inbox: seq<Message>): (r: nat)
    ensures r <= |inbox|
    ensures forall k :: 0 <= k < r ==> !ReadsDone(inbox[k])
    ensures r < |inbox| ==> ReadsDone(inbox[r])
  {
    if inbox == [] then 0
    else if ReadsDone(inbox[0]) then 0
    else 1 + DoneAt(inbox[1..])
  }

  /** The text of the messages that are not pictures, in order. */
  function Texts(msgs: seq<Message>): (r: seq<string>)
    ensures |r| + |Pictures(msgs)| == |msgs|
  {
    if msgs == [] then []
    else
      var last := msgs[|msgs| - 1];
      Texts(msgs[..|msgs| - 1]) + (if last.Picture? then [] else [Rendered(last)])
  }

  /** The last picture among some messages, or `default` when there is none. */
  function LastPicture(msgs: seq<Message>, default: Option<Image>): (r: Option<Image>)
    ensures Pictures(msgs) == [] ==> r == default
    ensures Pictures(msgs) != [] ==> r == Some(Pictures(msgs)[|Pictures(msgs)| - 1])
  {
    var pictures := Pictures(msgs);
    if pictures == [] then default else Some(pictures[|pictures| - 1])
  }

  /** The size the work area is left at after showing `pictures` one after another, from
      `default`: the fitted size of the last picture that can be displayed, since a picture
      that cannot be displayed keeps the size it had. */
  function LastSize(pictures: seq<Image>, width: int, height: int, default: Option<Size>): (r: Option<Size>)
    ensures (forall k :: 0 <= k < |pictures| ==> DisplaySize(width, height, pictures[k]).None?) ==> r == default
    ensures pictures != [] && DisplaySize(width, height, pictures[|pictures| - 1]).Some? ==>
      r == DisplaySize(width, height, pictures[|pictures| - 1])
  {
    if pictures == [] then default
    else
      var last := DisplaySize(width, height, pictures[|pictures| - 1]);
      if last.Some? then last else LastSize(pictures[..|pictures| - 1], width, height, default)
  }

  /** One more message sets the fitted size of its picture, or keeps the size when it is a
      text or a picture that cannot be displayed. */
  lemma LastSizeStep(msgs: seq<Message>, i: nat, width: int, height: int, default: Option<Size>)
    requires i < |msgs|
    ensures LastSize(Pictures(msgs[..i + 1]), width, height, default)
      == if msgs[i].Picture? && DisplaySize(width, height, msgs[i].image).Some? then DisplaySize(width, height, msgs[i].image)
         else LastSize(Pictures(msgs[..i]), width, height, default)
  {
    ReceiveStep(msgs, i);
    var pictures := Pictures(msgs[..i]);
    if msgs[i].Picture? {
      var more := pictures + [msgs[i].image];
      assert Pictures(msgs[..i + 1]) == more;
      assert more[..|pictures|] == pictures && more[|more| - 1] == msgs[i].image;
    } else {
      assert Pictures(msgs[..i + 1]) == pictures;
    }
  }

  /** One more message adds its picture, or its text, at the end. */
  lemma ReceiveStep(msgs: seq<Message>, i: nat)
    requires i < |msgs|
    ensures Pictures(msgs[..i + 1]) == Pictures(msgs[..i]) + (if msgs[i].Picture? then [msgs[i].image] else [])
    ensures Texts(msgs[..i + 1]) == Texts(msgs[..i]) + (if msgs[i].Picture? then [] else [Rendered(msgs[i])])
  {
    assert msgs[..i + 1][..i] == msgs[..i];
  }

  /** One more message that is a picture becomes the last picture; any other leaves it. */
  lemma LastPictureStep(msgs: seq<Message>, i: nat, default: Option<Image>)
    requires i < |msgs|
    ensures LastPicture(msgs[..i + 1], default) == if msgs[i].Picture? then Some(msgs[i].image) else LastPicture(msgs[..i], default)
  {
    ReceiveStep(msgs, i);
  }

  /** The reply to a request is read whole: its first `done` is its last message, and the
      pictures before it are the request's pictures, upscaled, in order. */
  lemma {:induction false} ReplyIsReadWhole(env: Environment, net: Network, req: Request)
    ensures var reply := Reply(env, net, req);
      && DoneAt(reply) == |reply| - 1
      && Pictures(reply[..DoneAt(reply)]) == EnhanceAll(net, WeightsOf(req.model), req.images)
  {
    var reply := Reply(env, net, req);
    ReplyEndsWithDone(env, net, req);
    ReplyPictures(env, net, req);
    var body := reply[..|reply| - 1];
    FirstDoneIsLast(reply);
    assert reply == body + [Done];
    PicturesBeforeText(body, Done);
  }

  /** In messages that end with `done` and have no plain line before it, the first `done` is
      the last message. */
  lemma FirstDoneIsLast(msgs: seq<Message>)
    requires |msgs| > 0 && msgs[|msgs| - 1] == Done && NoDone(msgs[..|msgs| - 1])
    ensures DoneAt(msgs) == |msgs| - 1
  {
    forall k | 0 <= k < |msgs| - 1 ensures !ReadsDone(msgs[k]) {
      assert msgs[..|msgs| - 1][k] == msgs[k];
      if !msgs[k].Picture? {
        OnlyPlainLinesReadDone(msgs[k]);
      }
    }
    assert Rendered(Done) == "done";
  }

  /** Waiting on the reply to a single picture leaves that picture, upscaled, as the card's
      output. */
  lemma SingleImageReply(env: Environment, net: Network, req: Request, before: Option<Image>)
    requires |req.images| == 1
    ensures var reply := Reply(env, net, req);
      LastPicture(reply[..DoneAt(reply)], before) == Some(Enhance(net, WeightsOf(req.model), req.images[0]))
  {
    ReplyIsReadWhole(env, net, req);
  }

  /** A picture message that the work area can display at the given size. */
  predicate Displayable(m: Message, width: int, height: int)
  {
    m.Picture? ==> DisplaySize(width, height, m.image).Some?
  }

  /** The receive loop stops at a message that reads `done` and, when a single picture is
      upscaled, at a picture the work area cannot display (showing it divides by zero). */
  predicate Stops(m: Message, isVideo: bool, width: int, height: int)
  {
    ReadsDone(m) || (!isVideo && !Displayable(m, width, height))
  }

  /** Position of the message the receive loop stops at, or the number of messages. */
  function StopAt(inbox: seq<Message>, isVideo: bool, width: int, height: int): (r: nat)
    ensures r <= |inbox|
    ensures forall k :: 0 <= k < r ==> !Stops(inbox[k], isVideo, width, height)
    ensures r < |inbox| ==> Stops(inbox[r], isVideo, width, height)
  {
    if inbox == [] then 0
    else if Stops(inbox[0], isVideo, width, height) then 0
    else 1 + StopAt(inbox[1..], isVideo, width, height)
  }

  /** A message before the stop that does not stop the loop is not the stop either. */
  lemma StopAtStep(inbox: seq<Message>, isVideo: bool, width: int, height: int, i: nat)
    requires i < |inbox| && i <= StopAt(inbox, isVideo, width, height) && !Stops(inbox[i], isVideo, width, height)
    ensures i + 1 <= StopAt(inbox, isVideo, width, height)
  {
  }

  /** The loop never reads past the first `done`, and it stops there when it is waiting on a
      video or every picture before the `done` can be shown. */
  lemma StopAtDone(inbox: seq<Message>, isVideo: bool, width: int, height: int)
    ensures StopAt(inbox, isVideo, width, height) <= DoneAt(inbox)
    ensures (isVideo || forall k :: 0 <= k < DoneAt(inbox) ==> Displayable(inbox[k], width, height))
            ==> StopAt(inbox, isVideo, width, height) == DoneAt(inbox)
  {
  }

  /** Waiting on the reply to a video request reads it up to its final `done`, and the
      pictures buffered are the request's frames, upscaled, in order. */
  lemma VideoReplyIsBuffered(env: Environment, net: Network, req: Request, width: int, height: int)
    ensures var reply := Reply(env, net, req);
      var k := StopAt(reply, true, width, height);
      k == |reply| - 1 && Pictures(reply[..k]) == EnhanceAll(net, WeightsOf(req.model), req.images)
  {
    ReplyIsReadWhole(env, net, req);
    StopAtDone(Reply(env, net, req), true, width, height);
  }

  /** Waiting on the reply to a single picture whose upscaled version the work area can show
      reads it up to its final `done`, having received exactly that picture. */
  lemma ImageReplyIsShown(env: Environment, net: Network, req: Request, width: int, height: int)
    requires |req.images| == 1
    requires DisplaySize(width, height, Enhance(net, WeightsOf(req.model), req.images[0])).Some?
    ensures var reply := Reply(env, net, req);
      var k := StopAt(reply, false, width, height);
      k == |reply| - 1 && Pictures(reply[..k]) == [Enhance(net, WeightsOf(req.model), req.images[0])]
  {
    ReplyIsReadWhole(env, net, req);
    assert EnhanceAll(net, WeightsOf(req.model), req.images) == [Enhance(net, WeightsOf(req.model), req.images[0])];
    StopsAtDoneWhenShown(Reply(env, net, req), width, height, Enhance(net, WeightsOf(req.model), req.images[0]));
  }

  /** When the only picture before the first `done` is one the work area can show, the loop
      waiting on a single picture stops at that `done`. */
  lemma StopsAtDoneWhenShown(msgs: seq<Message>, width: int, height: int, p: Image)
    requires Pictures(msgs[..DoneAt(msgs)]) == [p] && DisplaySize(width, height, p).Some?
    ensures StopAt(msgs, false, width, height) == DoneAt(msgs)
  {
    var k := DoneAt(msgs);
    forall j | 0 <= j < k ensures Displayable(msgs[j], width, height) {
      if msgs[j].Picture? {
        PictureIsAmongPictures(msgs[..k], j);
        assert msgs[..k][j] == msgs[j];
      }
    }
    StopAtDone(msgs, false, width, height);
  }

  /** A picture message of `msgs` is one of its pictures. */
  lemma {:induction false} PictureIsAmongPictures(msgs: seq<Message>, j: nat)
    requires j < |msgs| && msgs[j].Picture?
    ensures msgs[j].image in Pictures(msgs)
  {
    var init := msgs[..|msgs| - 1];
    if j < |msgs| - 1 {
      PictureIsAmongPictures(init, j);
      assert init[j] == msgs[j];
    }
  }

  /** The exception the `done` of a video raises before anything is saved, if any: an image
      card has no frame rate (`AttributeError`), an empty start or end entry does not convert
      to a number (`ValueError`) and a frame rate of zero cannot divide the audio's start and
      end (`ZeroDivisionError`). */
  function SaveFailure(card: Card, start: Option<int>, end: Option<int>): (r: Option<Failure>)
    ensures r.None? <==> !card.IsImage() && start.Some? && end.Some? && card.source.video.fps != 0.0
  {
    if card.IsImage() then Some(AttributeError)
    else if start.None? || end.None? then Some(ValueError)
    else if card.source.video.fps == 0.0 then Some(ZeroDivisionError)
    else None
  }

  // ---------------------------------------------------------------------------------------
  // The window

  class MainApplication {
    const footer: Footer
    const workArea: WorkArea
    const panel: ControlPanel
    /** The decoders the cards load files with. */
    const storage: Storage
    const imageExtensions: seq<string>
    const videoExtensions: seq<string>
    /** The chosen model name, GPU number, output format and output folder. */
    var model: string
    var gpuId: nat
    var outputFormat: string
    var outputFolder: string
    /** The requests sent to the worker, in order. */
    var requests: seq<Request>
    /** The lines written to the progress window. */
    var log: seq<string>
    /** The files written, in order. */
    var saved: seq<Saved>
    /** Whether the save button is shown. */
    var saveShown: bool

    ghost predicate Valid()
      reads footer`cards
    {
      footer.Valid()
    }

    /** The window as built: model `BSRGAN`, the given GPU, format `png`, the default output
        folder, empty panels, nothing sent, logged or saved, and no save button. */
    constructor (gpu: nat, defaultOutputFolder: string, storage: Storage,
                 imageExtensions: seq<string>, videoExtensions: seq<string>,
                 footerWidth: int, areaWidth: int, areaHeight: int)
      ensures Valid()
      ensures model == "BSRGAN" && gpuId == gpu && outputFormat == "png" && outputFolder == defaultOutputFolder
      ensures footer.cards == [] && footer.indexSelected == None && footer.width == footerWidth
      ensures workArea.card == null && workArea.showing == None
      ensures panel.models == ModelNames && panel.modelIndex == 0 && panel.models[panel.modelIndex] == model
      ensures panel.startEntry == Some(0) && panel.endEntry == None
      ensures requests == [] && log == [] && saved == [] && !saveShown
      ensures this.storage == storage && this.imageExtensions == imageExtensions && this.videoExtensions == videoExtensions
    {
      model := "BSRGAN";
      gpuId := gpu;
      outputFormat := "png";
      outputFolder := defaultOutputFolder;
      footer := new Footer(footerWidth);
      workArea := new WorkArea(areaWidth, areaHeight);
      panel := new ControlPanel(defaultOutputFolder);
      this.storage := storage;
      this.imageExtensions := imageExtensions;
      this.videoExtensions := videoExtensions;
      requests := [];
      log := [];
      saved := [];
      saveShown := false;
    }

    /** `save_image`: without a card in the work area, `AttributeError`; a card without
        output writes nothing; otherwise the output is written as
        `<stem>_upscaled_.<format>` in the output folder. */
    method SaveImage() returns (r: Outcome)
      modifies this`saved
      ensures workArea.card == null ==> r == Fail(AttributeError) && saved == old(saved)
      ensures workArea.card != null && workArea.card.output.None? ==> r == Pass && saved == old(saved)
      ensures workArea.card != null && workArea.card.output.Some? ==>
        var card := workArea.card;
        r == Pass && saved == old(saved) + [SavedImage(OutputPath(outputFolder, card.path, outputFormat), card.output.value)]
    {
      var upscaled := workArea.IsUpscaled();
      if upscaled.Err? {
        return Fail(upscaled.error);
      }
      if !upscaled.value {
        return Pass;
      }
      var card := workArea.card;
      saved := saved + [SavedImage(OutputPath(outputFolder, card.path, outputFormat), card.output.value)];
      r := Pass;
    }

    /** The window's state outside the footer (see `Screen`). */
    ghost function OnScreen(): Screen
      reads panel`startEntry, panel`endEntry, workArea`card, workArea`showing, workArea`resized, workArea`placed, this`saveShown
    {
      Screen(panel.startEntry, panel.endEntry, workArea.card, workArea.showing, workArea.resized, workArea.placed, saveShown)
    }

    /** `select_card_by_index(index)`: select the card in the footer (see `SelectFlags`), then
        show it (see `ShowCard`); without cards the footer returns nothing and reading it
        raises `AttributeError`. */
    method SelectCardByIndex(index: nat) returns (r: Outcome)
      requires Valid()
      modifies footer`indexSelected, footer.cards`selected, panel`startEntry, panel`endEntry
      modifies workArea`card, workArea`showing, workArea`resized, workArea`placed, this`saveShown
      ensures Valid() && footer.cards == old(footer.cards) && footer.Numbers() == old(footer.Numbers())
      ensures Selected(index, old(footer.Flags()), old(footer.indexSelected), old(OnScreen()), r)
    {
      var status, card := footer.SelectCardByIndex(index);
      assert OnScreen() == old(OnScreen());
      if status == NoCards {
        return Fail(AttributeError);
      }
      if status == OutOfRange {
        return Fail(IndexError);
      }
      r := ShowChosen(index, card, old(footer.Flags()), old(footer.indexSelected), old(OnScreen()));
    }

    /** The end of `select_card_by_index(index)` once the footer chose `card`: show it. */
    method ShowChosen(index: nat, card: Card, ghost flags: seq<bool>, ghost selected: Option<nat>, ghost s0: Screen)
      returns (r: Outcome)
      requires SelectFlags(flags, selected, index).status == Chosen
      requires footer.Flags() == SelectFlags(flags, selected, index).flags
      requires footer.indexSelected == SelectFlags(flags, selected, index).selected
      requires index < |footer.cards| && footer.cards[index] == card && OnScreen() == s0
      modifies panel`startEntry, panel`endEntry, workArea`card, workArea`showing, workArea`resized, workArea`placed, this`saveShown
      ensures Selected(index, flags, selected, s0, r)
    {
      r := ShowCard(card);
      assert footer.Flags() == old(footer.Flags());
    }

    /** What `select_card_by_index(index)` leaves behind, from the footer's flags `flags`, its
        cursor `selected` and the window `s0` (see `SelectFlags` and `Shown`): an error leaves
        the window as it was. */
    ghost predicate Selected(index: nat, flags: seq<bool>, selected: Option<nat>, s0: Screen, r: Outcome)
      reads footer`cards, footer`indexSelected, footer.cards`selected, footer.cards`output, footer.cards`file
      reads this`saveShown, panel`startEntry, panel`endEntry, workArea`card, workArea`showing, workArea`resized, workArea`placed
      reads workArea`width, workArea`height
    {
      var s := SelectFlags(flags, selected, index);
      && footer.Flags() == s.flags && footer.indexSelected == s.selected
      && (s.status == NoCards ==> r == Fail(AttributeError) && OnScreen() == s0)
      && (s.status == OutOfRange ==> r == Fail(IndexError) && OnScreen() == s0)
      && (s.status == Chosen ==> index < |footer.cards| && Shown(footer.cards[index], s0, r))
    }

    /** What showing `card` leaves behind, `s0` being the window before. The save button
        follows the card's output. An image card leaves the range entries alone. For a video
        the range is set to its frame count, which raises `ValueError` on an empty start entry
        and then leaves the rest of the window alone. Otherwise the card is in the work area,
        showing its output if it has one; the picture is placed at its fitted size, or, when
        it cannot be fitted, `ZeroDivisionError` leaves the size and the placement as they
        were. */
    ghost predicate Shown(card: Card, s0: Screen, r: Outcome)
      reads this`saveShown, card`output, card`file, panel`startEntry, panel`endEntry
      reads workArea`card, workArea`showing, workArea`resized, workArea`placed, workArea`width, workArea`height
    {
      var fit := DisplaySize(workArea.width, workArea.height, Preferred(card.file, card.output).image);
      && saveShown == card.output.Some?
      && (card.IsImage() ==> panel.startEntry == s0.start && panel.endEntry == s0.end)
      && (!card.IsImage() && s0.start.None? ==>
            && r == Fail(ValueError) && panel.startEntry == s0.start && panel.endEntry == s0.end
            && workArea.card == s0.card && workArea.showing == s0.showing
            && workArea.resized == s0.resized && workArea.placed == s0.placed)
      && (!card.IsImage() && s0.start.Some? ==>
            var frames := |card.source.video.frames|;
            panel.endEntry == Some(frames) && panel.startEntry == Some(ClampStart(s0.start.value, frames)))
      && (card.IsImage() || s0.start.Some? ==>
            && workArea.card == card && workArea.showing == Some(Preferred(card.file, card.output))
            && (fit.Some? ==> r == Pass && workArea.placed && workArea.resized == fit)
            && (fit.None? ==> r == Fail(ZeroDivisionError) && workArea.placed == s0.placed && workArea.resized == s0.resized))
    }

    /** The part of `select_card_by_index` after the footer returned `card`. */
    method ShowCard(card: Card) returns (r: Outcome)
      modifies panel`startEntry, panel`endEntry, workArea`card, workArea`showing, workArea`resized, workArea`placed, this`saveShown
      ensures Shown(card, old(OnScreen()), r)
    {
      saveShown := card.output.Some?;
      if !card.IsImage() {
        r := panel.SetVideoLength(|card.source.video.frames|);
        if r.Fail? {
          return;
        }
      }
      r := workArea.UpdateImage(card);
      if r.Fail? {
        return;
      }
      r := workArea.ShowImage();
    }

    /** `open_file(paths)`: nothing when no file was chosen; otherwise a card for each of the
        first `MaxFilesOpen` paths, in order, until one fails to load, whose exception ends
        the flow with the window as it was; when all load, the grid is laid out and the
        footer's first card is selected. */
    method OpenFile(paths: seq<string>) returns (r: Outcome)
      requires Valid()
      modifies footer`cards, footer`indexSelected, footer.cards`selected, footer.cards`cell
      modifies panel`startEntry, panel`endEntry, workArea`card, workArea`showing, workArea`resized, workArea`placed, this`saveShown
      ensures Valid()
      ensures paths == [] ==>
        && r == Pass && footer.cards == old(footer.cards) && footer.indexSelected == old(footer.indexSelected)
        && footer.Flags() == old(footer.Flags()) && footer.Numbers() == old(footer.Numbers())
        && OnScreen() == old(OnScreen())
      ensures paths != [] ==>
        var chosen := FirstFiles(paths);
        var count := LoadablePrefix(chosen, storage, imageExtensions, videoExtensions);
        && footer.Extended(old(footer.cards), old(footer.Paths()), old(footer.Numbers()), chosen, count)
        && (old(Consistent(footer.Flags(), footer.indexSelected)) ==> Consistent(footer.Flags(), footer.indexSelected))
        && (count < |chosen| ==>
              && r == Fail(Load(chosen[count], storage, imageExtensions, videoExtensions).error)
              && footer.Flags() == old(footer.Flags()) + Falses(count)
              && footer.indexSelected == old(footer.indexSelected)
              && OnScreen() == old(OnScreen()))
        && (count == |chosen| ==>
              && footer.LaidOut()
              && Selected(0, old(footer.Flags()) + Falses(count), old(footer.indexSelected), old(OnScreen()), r))
    {
      if paths == [] {
        return Pass;
      }
      var chosen := FirstFiles(paths);
      var count;
      r, count := footer.CreateCards(chosen, storage, imageExtensions, videoExtensions);
      if r.Fail? {
        return;
      }
      r := LayOutAndSelectFirst(old(footer.Flags()) + Falses(count), old(footer.indexSelected), old(OnScreen()));
    }

    /** The end of `open_file` once every file loaded: lay out the grid, then select the
        first card. */
    method LayOutAndSelectFirst(ghost flags: seq<bool>, ghost selected: Option<nat>, ghost s0: Screen) returns (r: Outcome)
      requires Valid()
      requires footer.Flags() == flags && footer.indexSelected == selected && OnScreen() == s0
      modifies footer`indexSelected, footer.cards`selected, footer.cards`cell
      modifies panel`startEntry, panel`endEntry, workArea`card, workArea`showing, workArea`resized, workArea`placed, this`saveShown
      ensures Valid() && footer.cards == old(footer.cards) && footer.Numbers() == old(footer.Numbers())
      ensures footer.LaidOut()
      ensures Selected(0, flags, selected, s0, r)
      ensures old(Consistent(footer.Flags(), footer.indexSelected)) && |footer.cards| > 0 ==> Consistent(footer.Flags(), footer.indexSelected)
    {
      footer.UpdateGrid();
      r := SelectFirst(flags, selected, s0);
    }

    /** `select_card_by_index(0)`, from the footer's flags `flags`, its cursor `selected` and
        the window `s0`. */
    method SelectFirst(ghost flags: seq<bool>, ghost selected: Option<nat>, ghost s0: Screen) returns (r: Outcome)
      requires Valid()
      requires footer.Flags() == flags && footer.indexSelected == selected && OnScreen() == s0
      modifies footer`indexSelected, footer.cards`selected
      modifies panel`startEntry, panel`endEntry, workArea`card, workArea`showing, workArea`resized, workArea`placed, this`saveShown
      ensures Valid() && footer.cards == old(footer.cards) && footer.Numbers() == old(footer.Numbers())
      ensures Selected(0, flags, selected, s0, r)
      ensures Consistent(flags, selected) && |footer.cards| > 0 ==> Consistent(footer.Flags(), footer.indexSelected)
      ensures old(footer.LaidOut()) ==> footer.LaidOut()
    {
      if Consistent(flags, selected) && |footer.cards| > 0 {
        SelectKeepsConsistent(flags, selected, 0);
      }
      r := SelectCardByIndex(0);
    }

    /** The card under the footer's cursor, as a set: empty when there is none. */
    function CurrentCards(): set<Card>
      reads footer`cards, footer`indexSelected
    {
      var c := footer.GetCurrentCard();
      if c.Ok? then {c.value} else {}
    }

    /** `close_file`: empty the work area, remove the card under the cursor (a missing cursor
        raises `TypeError`, one past the end `IndexError`, and either leaves the footer and the
        rest of the window as they were), then select the first card if any remain (see
        `Closed`). */
    method CloseFile() returns (r: Outcome)
      requires Valid()
      modifies footer`cards, footer`indexSelected, footer.cards`selected, footer.cards`index, footer.cards`cell
      modifies panel`startEntry, panel`endEntry, workArea`card, workArea`showing, workArea`resized, workArea`placed, this`saveShown
      ensures Valid()
      ensures var emptied := old(OnScreen()).(card := null, placed := false);
        && (old(footer.indexSelected).None? ==>
              && r == Fail(TypeError) && footer.cards == old(footer.cards) && footer.indexSelected == None
              && footer.Flags() == old(footer.Flags()) && footer.Numbers() == old(footer.Numbers()) && OnScreen() == emptied)
        && (old(footer.indexSelected).Some? && old(footer.indexSelected).value >= |old(footer.cards)| ==>
              && r == Fail(IndexError) && footer.cards == old(footer.cards) && footer.indexSelected == old(footer.indexSelected)
              && footer.Flags() == old(footer.Flags()) && footer.Numbers() == old(footer.Numbers()) && OnScreen() == emptied)
        && (old(footer.indexSelected).Some? && old(footer.indexSelected).value < |old(footer.cards)| ==>
              Closed(old(footer.cards), old(footer.Flags()), old(footer.indexSelected).value, emptied, r))
      ensures old(Consistent(footer.Flags(), footer.indexSelected)) ==> Consistent(footer.Flags(), footer.indexSelected)
    {
      EmptyWorkArea();
      var index := footer.indexSelected;
      if index.None? {
        return Fail(TypeError);
      }
      r := CloseCard(index.value);
    }

    /** `close_file` once the work area is emptied and the cursor is on `index`. */
    method CloseCard(index: nat) returns (r: Outcome)
      requires Valid() && footer.indexSelected == Some(index)
      modifies footer`cards, footer`indexSelected, footer.cards`selected, footer.cards`index, footer.cards`cell
      modifies panel`startEntry, panel`endEntry, workArea`card, workArea`showing, workArea`resized, workArea`placed, this`saveShown
      ensures Valid()
      ensures index >= |old(footer.cards)| ==>
        && r == Fail(IndexError) && footer.cards == old(footer.cards) && footer.indexSelected == Some(index)
        && footer.Flags() == old(footer.Flags()) && footer.Numbers() == old(footer.Numbers()) && OnScreen() == old(OnScreen())
      ensures index < |old(footer.cards)| ==> Closed(old(footer.cards), old(footer.Flags()), index, old(OnScreen()), r)
      ensures old(Consistent(footer.Flags(), footer.indexSelected)) ==> Consistent(footer.Flags(), footer.indexSelected)
    {
      var ok := footer.RemoveCardByIndex(index);
      if !ok {
        return Fail(IndexError);
      }
      r := SelectFirstRemaining(old(footer.cards), old(footer.Flags()), index, old(OnScreen()));
    }

    /** `work_area.close_file()`, which leaves the footer and the rest of the window as they
        are. */
    method EmptyWorkArea()
      modifies workArea`card, workArea`placed
      ensures OnScreen() == old(OnScreen()).(card := null, placed := false)
      ensures footer.Flags() == old(footer.Flags()) && footer.Numbers() == old(footer.Numbers())
    {
      workArea.CloseFile();
    }

    /** What closing the card at `index` of `cards0`, whose flags were `flags0`, leaves behind,
        `s0` being the window before: the other cards in their order, numbered by position;
        the window as it was when none remain; otherwise the first card selected, and it is
        the only highlighted card when `flags0` had only the closed card highlighted. */
    ghost predicate Closed(cards0: seq<Card>, flags0: seq<bool>, index: nat, s0: Screen, r: Outcome)
      reads footer`cards, footer`indexSelected, footer.cards`selected, footer.cards`index, footer.cards`output, footer.cards`file
      reads this`saveShown, panel`startEntry, panel`endEntry, workArea`card, workArea`showing, workArea`resized, workArea`placed
      reads workArea`width, workArea`height
    {
      && index < |cards0| && index < |flags0|
      && footer.cards == cards0[..index] + cards0[index + 1..]
      && footer.Numbers() == Positions(|footer.cards|)
      && (footer.cards == [] ==> r == Pass && footer.indexSelected == None && OnScreen() == s0)
      && (footer.cards != [] ==> Selected(0, RemoveFlags(flags0, Some(index), index).0, None, s0, r))
    }

    /** The end of `close_file`, after the card at `index` of `cards0` was removed: select the
        first card, if any. */
    method SelectFirstRemaining(ghost cards0: seq<Card>, ghost flags0: seq<bool>, ghost index: nat, ghost s0: Screen)
      returns (r: Outcome)
      requires Valid() && index < |cards0| && index < |flags0|
      requires footer.cards == cards0[..index] + cards0[index + 1..] && footer.Numbers() == Positions(|footer.cards|)
      requires footer.Flags() == RemoveFlags(flags0, Some(index), index).0 && footer.indexSelected == None
      requires OnScreen() == s0
      modifies footer`indexSelected, footer.cards`selected
      modifies panel`startEntry, panel`endEntry, workArea`card, workArea`showing, workArea`resized, workArea`placed, this`saveShown
      ensures Valid() && Closed(cards0, flags0, index, s0, r)
      ensures Consistent(flags0, Some(index)) ==> Consistent(footer.Flags(), footer.indexSelected)
    {
      if |footer.cards| == 0 {
        return Pass;
      }
      if Consistent(flags0, Some(index)) {
        RemoveAtOrAfterSelectionKeepsConsistent(flags0, Some(index), index);
        SelectKeepsConsistent(footer.Flags(), None, 0);
      }
      r := SelectCardByIndex(0);
    }

    /** What moving the slider to `value` leaves behind for the current video `card`, whose
        picture was `file0`, the entries being `start0` and `end0` and the work area holding
        `area0` showing `showing0` at size `resized0`: an image card has no video and raises
        `AttributeError`; a video card takes frame `value` as its picture when it can be read;
        the end entry becomes `value` with the start clamped below it (`ValueError` on an empty
        start); then the work area shows the card at its fitted size, or keeps its size when
        the picture cannot be fitted (`ZeroDivisionError`). */
    ghost predicate SlidTo(value: int, card: Card, file0: Image, start0: Option<int>, end0: Option<int>,
                           area0: Card?, showing0: Option<Shown>, resized0: Option<Size>, r: Outcome)
      reads card`file, card`output, panel`startEntry, panel`endEntry, workArea`card, workArea`showing, workArea`resized
      reads workArea`width, workArea`height
    {
      var untouched := && panel.startEntry == start0 && panel.endEntry == end0
                       && workArea.card == area0 && workArea.showing == showing0 && workArea.resized == resized0;
      if card.IsImage() then r == Fail(AttributeError) && card.file == file0 && untouched
      else
        var frame := ReadAt(card.source.video, Seek(value - 1));
        && card.file == (if frame.Some? then frame.value else file0)
        && (start0.None? ==> r == Fail(ValueError) && untouched)
        && (start0.Some? ==>
              && panel.startEntry == Some(ClampStart(start0.value, value)) && panel.endEntry == Some(value)
              && workArea.card == card && workArea.showing == Some(Preferred(card.file, card.output))
              && (r.Pass? <==> DisplaySize(workArea.width, workArea.height, Preferred(card.file, card.output).image).Some?)
              && (r.Pass? ==> workArea.resized == DisplaySize(workArea.width, workArea.height, Preferred(card.file, card.output).image))
              && (r.Fail? ==> r.error == ZeroDivisionError && workArea.resized == resized0))
    }

    /** `slider_change(value)`, the value already rounded: show frame `value` of the current
        card (see `SlidTo`); without a current card, the footer's error. */
    method SliderChange(value: int) returns (r: Outcome)
      modifies CurrentCards()`file, panel`startEntry, panel`endEntry, workArea`card, workArea`showing, workArea`resized
      ensures var c := old(footer.GetCurrentCard());
        && (c.Err? ==> r == Fail(c.error) && panel.startEntry == old(panel.startEntry) && panel.endEntry == old(panel.endEntry)
                       && workArea.card == old(workArea.card) && workArea.showing == old(workArea.showing)
                       && workArea.resized == old(workArea.resized))
        && (c.Ok? ==> SlidTo(value, c.value, old(c.value.file), old(panel.startEntry), old(panel.endEntry),
                             old(workArea.card), old(workArea.showing), old(workArea.resized), r))
    {
      var current := footer.GetCurrentCard();
      if current.Err? {
        return Fail(current.error);
      }
      var card := current.value;
      if card.IsImage() {
        return Fail(AttributeError);
      }
      var frame := card.SelectVideoFrame(value);
      r := panel.SetVideoLength(value);
      if r.Fail? {
        return;
      }
      r := workArea.UpdateImage(card);
    }

    /** `video_end_change`: an empty end entry is filled with 1, then the slider moves to the
        end entry's value. */
    method VideoEndChange() returns (r: Outcome)
      modifies CurrentCards()`file, panel`startEntry, panel`endEntry, workArea`card, workArea`showing, workArea`resized
      ensures var c := old(footer.GetCurrentCard());
        var end := if old(panel.endEntry).None? then 1 else old(panel.endEntry).value;
        && (c.Err? ==> r == Fail(c.error) && panel.startEntry == old(panel.startEntry) && panel.endEntry == Some(end)
                       && workArea.card == old(workArea.card) && workArea.showing == old(workArea.showing)
                       && workArea.resized == old(workArea.resized))
        && (c.Ok? ==> SlidTo(end, c.value, old(c.value.file), old(panel.startEntry), Some(end),
                             old(workArea.card), old(workArea.showing), old(workArea.resized), r))
    {
      if panel.endEntry.None? {
        panel.endEntry := Some(1);
      }
      r := SliderChange(panel.endEntry.value);
    }

    /** `upscale(path, images)`: send `[model, gpu_id, path, images]` to the worker. The reply
        is then awaited as a video exactly when more than one picture was sent, which is
        returned. */
    method Upscale(path: string, images: seq<Image>) returns (isVideo: bool)
      modifies this`requests
      ensures requests == old(requests) + [Request(model, gpuId, path, images)]
      ensures isVideo <==> |images| > 1
    {
      requests := requests + [Request(model, gpuId, path, images)];
      isVideo := |images| > 1;
    }

    /** `upscale_image`: nothing without cards; otherwise the current card's picture is sent
        alone, so its reply is awaited as a single picture. */
    method UpscaleImage() returns (r: Outcome)
      modifies this`requests
      ensures var c := footer.GetCurrentCard();
        && (!footer.IsCardLoaded() ==> r == Pass && requests == old(requests))
        && (footer.IsCardLoaded() && c.Err? ==> r == Fail(c.error) && requests == old(requests))
        && (footer.IsCardLoaded() && c.Ok? ==>
              r == Pass && requests == old(requests) + [Request(model, gpuId, c.value.path, [c.value.file])])
    {
      if !footer.IsCardLoaded() {
        return Pass;
      }
      var current := footer.GetCurrentCard();
      if current.Err? {
        return Fail(current.error);
      }
      var card := current.value;
      var isVideo := Upscale(card.path, [card.file]);
      r := Pass;
    }

    /** `upscale_and_save_video`: read the start and end entries (`ValueError` when empty),
        take the current card (the footer's error without one; `AttributeError` for an image,
        which has no video) and send the frames of its sub-clip from start to end. */
    method UpscaleAndSaveVideo() returns (r: Outcome)
      modifies this`requests
      ensures var c := footer.GetCurrentCard();
        var entries := panel.startEntry.Some? && panel.endEntry.Some?;
        && (!entries ==> r == Fail(ValueError))
        && (entries && c.Err? ==> r == Fail(c.error))
        && (entries && c.Ok? && c.value.IsImage() ==> r == Fail(AttributeError))
        && (r.Fail? ==> requests == old(requests))
        && (entries && c.Ok? && !c.value.IsImage() ==>
              var clip := Subclip(c.value.source.video, panel.startEntry.value, panel.endEntry.value);
              r == Pass && requests == old(requests) + [Request(model, gpuId, c.value.path, clip)])
    {
      if panel.startEntry.None? || panel.endEntry.None? {
        return Fail(ValueError);
      }
      var start, end := panel.startEntry.value, panel.endEntry.value;
      var current := footer.GetCurrentCard();
      if current.Err? {
        return Fail(current.error);
      }
      var card := current.value;
      if card.IsImage() {
        return Fail(AttributeError);
      }
      var clip := card.SelectSubclip(start, end);
      var isVideo := Upscale(card.path, clip);
      r := Pass;
    }

    /** The card's output and the work area after the messages `msgs` were taken in: the
        card's output is the last picture among them (`output0` without any); a single
        picture's output is shown in the work area, which a video leaves as it was (`area0`
        showing `showing0` at `resized0`); for an image the area keeps the size `LastSize`
        gives. */
    ghost predicate Took(msgs: seq<Message>, isVideo: bool, card: Card, output0: Option<Image>, area0: Card?, showing0: Option<Shown>, resized0: Option<Size>)
      reads card`output, workArea`card, workArea`showing, workArea`resized, workArea`width, workArea`height
    {
      && card.output == LastPicture(msgs, output0)
      && workArea.resized == (if isVideo then resized0 else LastSize(Pictures(msgs), workArea.width, workArea.height, resized0))
      && (isVideo || Pictures(msgs) == [] ==> workArea.card == area0 && workArea.showing == showing0)
      && (!isVideo && Pictures(msgs) != [] ==> workArea.card == card && workArea.showing == Some(Upscaled(card.output.value)))
    }

    /** What `wait_for_upscaled_images` leaves behind for the current `card` after the messages
        `inbox`, from the log `log0`, the files `saved0`, the save button `save0` and the state
        `Took` starts from. The loop reads up to `StopAt`, logging the text of every message
        that is not a picture; the stopping message is taken in too. Without one the wait goes
        on; a picture the work area cannot show raises `ZeroDivisionError`; at `done` see
        `Ended`. */
    ghost predicate Received(inbox: seq<Message>, isVideo: bool, card: Card, output0: Option<Image>,
                             log0: seq<string>, saved0: seq<Saved>, save0: bool, area0: Card?, showing0: Option<Shown>, resized0: Option<Size>, r: Wait)
      reads this`log, this`saved, this`saveShown, this`outputFolder, card`output, panel`startEntry, panel`endEntry
      reads workArea`card, workArea`showing, workArea`resized, workArea`width, workArea`height
    {
      var k := StopAt(inbox, isVideo, workArea.width, workArea.height);
      var seen := inbox[..k];
      && Took(if k < |inbox| then inbox[..k + 1] else inbox, isVideo, card, output0, area0, showing0, resized0)
      && if k == |inbox| then r == Pending && log == log0 + Texts(inbox) && saved == saved0 && saveShown == save0
         else if !ReadsDone(inbox[k]) then
           r == Raised(ZeroDivisionError) && log == log0 + Texts(seen) && saved == saved0 && saveShown == save0
         else Ended(isVideo, card, if isVideo then Pictures(seen) else [], log0 + Texts(seen), saved0, save0, r)
    }

    /** What the `done` ending a wait leaves behind, `frames` being the pictures received and
        `log0` the log so far. A single picture ends with `Done!` and shows the save button for
        an image card. A video is first saved as `<stem>_upscaled_.mp4` with the card's frame
        rate, announced in the log, unless `SaveFailure` raises first. */
    ghost predicate Ended(isVideo: bool, card: Card, frames: seq<Image>, log0: seq<string>, saved0: seq<Saved>, save0: bool, r: Wait)
      reads this`log, this`saved, this`saveShown, this`outputFolder, panel`startEntry, panel`endEntry
    {
      if !isVideo then r == Finished && log == log0 + ["Done!"] && saved == saved0 && saveShown == (save0 || card.IsImage())
      else
        var failure := SaveFailure(card, panel.startEntry, panel.endEntry);
        var path := OutputPath(outputFolder, card.path, "mp4");
        && (failure.Some? ==> r == Raised(failure.value) && log == log0 && saved == saved0 && saveShown == save0)
        && (failure.None? ==>
              && r == Finished && log == log0 + ["Saving video:", path, "Done!"] && saveShown == save0
              && saved == saved0 + [SavedVideo(path, frames, card.source.video.fps)])
    }

    /** `wait_for_upscaled_images(is_video)`, the messages received being `inbox`: take the
        footer's cursor and current card (the footer's error without one), read the messages
        (see `Received`). The footer keeps its cards. */
    method WaitForUpscaledImages(inbox: seq<Message>, isVideo: bool) returns (r: Wait)
      requires Valid()
      modifies this`log, this`saved, this`saveShown, CurrentCards()`output, footer`cards
      modifies workArea`card, workArea`showing, workArea`resized
      ensures Valid() && footer.cards == old(footer.cards)
      ensures var c := old(footer.GetCurrentCard());
        && (c.Err? ==> r == Raised(c.error) && log == old(log) && saved == old(saved) && saveShown == old(saveShown)
                       && workArea.card == old(workArea.card) && workArea.showing == old(workArea.showing)
                       && workArea.resized == old(workArea.resized))
        && (c.Ok? ==> Received(inbox, isVideo, c.value, old(c.value.output), old(log), old(saved), old(saveShown),
                               old(workArea.card), old(workArea.showing), old(workArea.resized), r))
    {
      var index := footer.indexSelected;
      var current := footer.GetCurrentCard();
      if current.Err? {
        return Raised(current.error);
      }
      r := Await(current.value, index.value, inbox, isVideo);
    }

    /** `wait_for_upscaled_images` once the current `card` and its position `index` are
        taken. */
    method Await(card: Card, index: nat, inbox: seq<Message>, isVideo: bool) returns (r: Wait)
      requires Valid() && index < |footer.cards| && footer.cards[index] == card
      modifies this`log, this`saved, this`saveShown, card`output, footer`cards
      modifies workArea`card, workArea`showing, workArea`resized
      ensures Valid() && footer.cards == old(footer.cards)
      ensures Received(inbox, isVideo, card, old(card.output), old(log), old(saved), old(saveShown),
                       old(workArea.card), old(workArea.showing), old(workArea.resized), r)
    {
      var i, frames := Receive(card, index, inbox, isVideo);
      if i == |inbox| {
        assert inbox[..i] == inbox;
        return Pending;
      }
      if !ReadsDone(inbox[i]) {
        return Raised(ZeroDivisionError);
      }
      r := Finish(card, isVideo, frames, old(log) + Texts(inbox[..i]), old(saved), old(saveShown));
      assert Took(inbox[..i + 1], isVideo, card, old(card.output), old(workArea.card), old(workArea.showing), old(workArea.resized));
    }

    /** The `done` that ends a wait for `card`, `frames` being the pictures buffered. */
    method Finish(card: Card, isVideo: bool, frames: seq<Image>, ghost log0: seq<string>, ghost saved0: seq<Saved>, ghost save0: bool)
      returns (r: Wait)
      requires log == log0 && saved == saved0 && saveShown == save0
      modifies this`log, this`saved, this`saveShown
      ensures Ended(isVideo, card, frames, log0, saved0, save0, r)
    {
      if isVideo {
        var saving := SaveVideo(card, frames);
        if saving.Fail? {
          return Raised(saving.error);
        }
        assert log + ["Done!"] == log0 + ["Saving video:", OutputPath(outputFolder, card.path, "mp4"), "Done!"];
      }
      log := log + ["Done!"];
      // The footer's current card is still `card`.
      if card.IsImage() {
        saveShown := true;
      }
      r := Finished;
    }

    /** The loop of `wait_for_upscaled_images` for `card`, at position `index` of the footer:
        it stops at `StopAt` and returns that position and the frames buffered, which are the
        pictures read when waiting on a video and none otherwise. */
    method Receive(card: Card, index: nat, inbox: seq<Message>, isVideo: bool) returns (i: nat, buffer: seq<Image>)
      requires Valid() && index < |footer.cards| && footer.cards[index] == card
      modifies this`log, card`output, footer`cards, workArea`card, workArea`showing, workArea`resized
      ensures Valid() && footer.cards == old(footer.cards)
      ensures i == StopAt(inbox, isVideo, workArea.width, workArea.height)
      ensures log == old(log) + Texts(inbox[..i])
      ensures buffer == if isVideo then Pictures(inbox[..i]) else []
      ensures Took(if i < |inbox| then inbox[..i + 1] else inbox, isVideo, card, old(card.output), old(workArea.card), old(workArea.showing), old(workArea.resized))
    {
      i, buffer := 0, [];
      while i < |inbox|
        invariant footer.cards == old(footer.cards)
        invariant i <= StopAt(inbox, isVideo, workArea.width, workArea.height)
        invariant log == old(log) + Texts(inbox[..i])
        invariant buffer == if isVideo then Pictures(inbox[..i]) else []
        invariant Took(inbox[..i], isVideo, card, old(card.output), old(workArea.card), old(workArea.showing), old(workArea.resized))
      {
        var stop;
        stop, buffer := ReceiveOne(card, index, inbox, i, isVideo, buffer, old(log), old(card.output), old(workArea.card), old(workArea.showing), old(workArea.resized));
        if stop {
          return;
        }
        i := i + 1;
      }
      assert inbox[..i] == inbox;
    }

    /** One round of `Receive`: take in message `i`, and say whether the loop stops there. */
    method ReceiveOne(card: Card, index: nat, inbox: seq<Message>, i: nat, isVideo: bool, buffer: seq<Image>,
                      ghost log0: seq<string>, ghost output0: Option<Image>, ghost area0: Card?, ghost showing0: Option<Shown>, ghost resized0: Option<Size>)
      returns (stop: bool, buffer': seq<Image>)
      requires Valid() && index < |footer.cards| && footer.cards[index] == card && i < |inbox|
      requires i <= StopAt(inbox, isVideo, workArea.width, workArea.height)
      requires log == log0 + Texts(inbox[..i])
      requires buffer == if isVideo then Pictures(inbox[..i]) else []
      requires Took(inbox[..i], isVideo, card, output0, area0, showing0, resized0)
      modifies this`log, card`output, footer`cards, workArea`card, workArea`showing, workArea`resized
      ensures Valid() && footer.cards == old(footer.cards)
      ensures Took(inbox[..i + 1], isVideo, card, output0, area0, showing0, resized0)
      ensures stop <==> i == StopAt(inbox, isVideo, workArea.width, workArea.height)
      ensures stop ==> log == old(log) && buffer' == buffer
      ensures !stop ==> i + 1 <= StopAt(inbox, isVideo, workArea.width, workArea.height)
      ensures !stop ==> log == log0 + Texts(inbox[..i + 1])
      ensures !stop ==> buffer' == if isVideo then Pictures(inbox[..i + 1]) else []
    {
      ReceiveStep(inbox, i);
      if inbox[i].Picture? {
        stop, buffer' := ReceivePicture(card, index, inbox, i, isVideo, buffer, output0, area0, showing0, resized0);
      } else {
        stop := ReceiveText(card, inbox, i, isVideo, log0, output0, area0, showing0, resized0);
        buffer' := buffer;
      }
    }

    /** `ReceiveOne` on a picture: it never reads `done`; when a single picture is awaited the
        loop stops if the work area cannot show it. */
    method ReceivePicture(card: Card, index: nat, inbox: seq<Message>, i: nat, isVideo: bool, buffer: seq<Image>,
                          ghost output0: Option<Image>, ghost area0: Card?, ghost showing0: Option<Shown>, ghost resized0: Option<Size>)
      returns (stop: bool, buffer': seq<Image>)
      requires Valid() && index < |footer.cards| && footer.cards[index] == card && i < |inbox| && inbox[i].Picture?
      requires i <= StopAt(inbox, isVideo, workArea.width, workArea.height)
      requires buffer == if isVideo then Pictures(inbox[..i]) else []
      requires Took(inbox[..i], isVideo, card, output0, area0, showing0, resized0)
      modifies card`output, footer`cards, workArea`card, workArea`showing, workArea`resized
      ensures Valid() && footer.cards == old(footer.cards)
      ensures Took(inbox[..i + 1], isVideo, card, output0, area0, showing0, resized0)
      ensures stop <==> i == StopAt(inbox, isVideo, workArea.width, workArea.height)
      ensures stop ==> buffer' == buffer
      ensures !stop ==> i + 1 <= StopAt(inbox, isVideo, workArea.width, workArea.height)
      ensures !stop ==> buffer' == if isVideo then Pictures(inbox[..i + 1]) else []
    {
      ReceiveStep(inbox, i);
      stop := TakeMessage(card, index, inbox, i, isVideo, output0, area0, showing0, resized0);
      buffer' := if isVideo then buffer + [inbox[i].image] else buffer;
      if !stop {
        StopAtStep(inbox, isVideo, workArea.width, workArea.height, i);
      }
    }

    /** `TakePicture` on picture message `i`, with what it means for `Took`: it fails exactly
        when a single picture is awaited and the work area cannot show it. */
    method TakeMessage(card: Card, index: nat, inbox: seq<Message>, i: nat, isVideo: bool,
                       ghost output0: Option<Image>, ghost area0: Card?, ghost showing0: Option<Shown>, ghost resized0: Option<Size>)
      returns (failed: bool)
      requires Valid() && index < |footer.cards| && footer.cards[index] == card && i < |inbox| && inbox[i].Picture?
      requires Took(inbox[..i], isVideo, card, output0, area0, showing0, resized0)
      modifies card`output, footer`cards, workArea`card, workArea`showing, workArea`resized
      ensures Valid() && footer.cards == old(footer.cards)
      ensures Took(inbox[..i + 1], isVideo, card, output0, area0, showing0, resized0)
      ensures failed <==> !isVideo && DisplaySize(workArea.width, workArea.height, inbox[i].image).None?
    {
      ReceiveStep(inbox, i);
      LastPictureStep(inbox, i, output0);
      LastSizeStep(inbox, i, workArea.width, workArea.height, resized0);
      failed := TakePicture(card, index, inbox[i].image, isVideo);
    }

    /** `ReceiveOne` on a text: the loop stops at `done` and logs any other text. */
    method ReceiveText(card: Card, inbox: seq<Message>, i: nat, isVideo: bool,
                       ghost log0: seq<string>, ghost output0: Option<Image>, ghost area0: Card?, ghost showing0: Option<Shown>, ghost resized0: Option<Size>)
      returns (stop: bool)
      requires i < |inbox| && !inbox[i].Picture?
      requires i <= StopAt(inbox, isVideo, workArea.width, workArea.height)
      requires log == log0 + Texts(inbox[..i])
      requires Took(inbox[..i], isVideo, card, output0, area0, showing0, resized0)
      modifies this`log
      ensures Took(inbox[..i + 1], isVideo, card, output0, area0, showing0, resized0)
      ensures stop <==> i == StopAt(inbox, isVideo, workArea.width, workArea.height)
      ensures stop ==> log == old(log)
      ensures !stop ==> i + 1 <= StopAt(inbox, isVideo, workArea.width, workArea.height)
      ensures !stop ==> log == log0 + Texts(inbox[..i + 1])
    {
      TookText(inbox, i, isVideo, card, output0, area0, showing0, resized0);
      ReceiveStep(inbox, i);
      stop := ReadsDone(inbox[i]);
      if !stop {
        log := log + [Rendered(inbox[i])];
        StopAtStep(inbox, isVideo, workArea.width, workArea.height, i);
      }
    }

    /** Taking in a message that is not a picture changes nothing `Took` speaks of. */
    lemma TookText(inbox: seq<Message>, i: nat, isVideo: bool, card: Card, output0: Option<Image>, area0: Card?, showing0: Option<Shown>, resized0: Option<Size>)
      requires i < |inbox| && !inbox[i].Picture? && Took(inbox[..i], isVideo, card, output0, area0, showing0, resized0)
      ensures Took(inbox[..i + 1], isVideo, card, output0, area0, showing0, resized0)
    {
      ReceiveStep(inbox, i);
      LastPictureStep(inbox, i, output0);
      assert Pictures(inbox[..i + 1]) == Pictures(inbox[..i]);
    }

    /** A picture received: it becomes the card's output. When a single picture is awaited,
        `update_card(card, index)` puts the card back where it is and the work area shows the
        output, which fails (`failed`) when it cannot be displayed. */
    method TakePicture(card: Card, index: nat, image: Image, isVideo: bool) returns (failed: bool)
      requires Valid() && index < |footer.cards| && footer.cards[index] == card
      modifies card`output, footer`cards, workArea`card, workArea`showing, workArea`resized
      ensures Valid() && footer.cards == old(footer.cards) && card.output == Some(image)
      ensures isVideo ==> !failed && workArea.card == old(workArea.card) && workArea.showing == old(workArea.showing)
      ensures !isVideo ==> workArea.card == card && workArea.showing == Some(Upscaled(image))
      ensures !isVideo ==> (failed <==> DisplaySize(workArea.width, workArea.height, image).None?)
      ensures isVideo || failed ==> workArea.resized == old(workArea.resized)
      ensures !isVideo && !failed ==> workArea.resized == DisplaySize(workArea.width, workArea.height, image)
    {
      card.output := Some(image);
      if isVideo {
        return false;
      }
      var ok := footer.UpdateCard(card, index);
      assert footer.cards == old(footer.cards);
      var shown := workArea.UpdateImage(card);
      failed := shown.Fail?;
    }

    /** The `done` of a video: the output path is `<stem>_upscaled_.mp4` in the output folder;
        unless `SaveFailure` raises, `Saving video:` and the path are logged and `frames` are
        saved there at the card's frame rate. */
    method SaveVideo(card: Card, frames: seq<Image>) returns (r: Outcome)
      modifies this`log, this`saved
      ensures var failure := SaveFailure(card, panel.startEntry, panel.endEntry);
        var path := OutputPath(outputFolder, card.path, "mp4");
        && (failure.Some? ==> r == Fail(failure.value) && log == old(log) && saved == old(saved))
        && (failure.None? ==>
              r == Pass && log == old(log) + ["Saving video:", path] && saved == old(saved) + [SavedVideo(path, frames, card.source.video.fps)])
    {
      if card.IsImage() {
        return Fail(AttributeError);
      }
      var fps := card.source.video.fps;
      var path := OutputPath(outputFolder, card.path, "mp4");
      if panel.startEntry.None? || panel.endEntry.None? {
        return Fail(ValueError);
      }
      if fps == 0.0 {
        return Fail(ZeroDivisionError);
      }
      log := log + ["Saving video:", path];
      saved := saved + [SavedVideo(path, frames, fps)];
      r := Pass;
    }
  }
}
