# Ceibo-Lab super-resolution GUI: a Dafny model of its core

Ceibo-Lab is a desktop application for upscaling pictures and video clips with
super-resolution networks. The user opens up to 18 image or video files. Each file becomes a
*card* in the *footer*, a row of thumbnails under the work area. Selecting a card highlights
it and shows it in the *work area*, fitted to the area. The *control panel* holds the chosen
model and output settings, plus the start and end entries of a video range. "Upscale" sends a
request `[model, gpu, path, images]` to a *worker* process over a pipe. The worker answers
with information lines, an `Upscaling:` line, a progress line per video frame, one upscaled
picture per input picture, and a final `done`. The application reads that reply, shows the
upscaled picture or buffers the video frames, and writes the video as
`<stem>_upscaled_.mp4`.

The model has one module per source file:

- `Media` (`media.dfy`): pictures, sizes, failures, Python's `round` and the fit-to-box
  arithmetic shared by thumbnails and the work area.
- `Text` (`text.dfy`): `split('/')[-1]`, `split('.')[0]`, `os.path.join` and `str(n)`.
- `Cards` (`card.py`): the `Card` class, file loading, video seeking and sub-clips.
- `Footers` (`footer.py`): the `Footer` class. Pure functions over the list of highlight flags
  say what selecting and removing do; the class methods are proved to follow them.
- `WorkAreas` (`work_area.py`): the `WorkArea` class and the original/upscaled toggle.
- `ControlPanels` (`control_panel.py`): the `ControlPanel` state the application reads.
- `Worker` (`ai.py`): the worker loop, as methods that append to the sequence of messages sent.
  The sequence is tied to a reference function `Reply`.
- `App` (`run.py`): the `MainApplication` class, covering opening and closing files,
  selection, the video range, sending requests and reading the reply.

Python exceptions are modelled as values:

- `Failure` names the exception raised.
- `Outcome` is `Pass` or `Fail(error)`.
- `Result<T>` is `Ok(value)` or `Err(error)`.

Each method states both its normal result and its exception cases.

## Model

| member | source | states |
|---|---|---|
| Media.Resize | ai.py:87 | Resizing a picture gives it exactly the requested width and height. |
| Media.RoundHalfEven | card.py:85 | `round(n / d)` is the nearest integer, within half a unit; a tie goes to the even integer. |
| Media.RoundAtMost | work_area.py:88 | A quotient at most `k` rounds to at most `k`. |
| Media.RoundAtLeast | work_area.py:90 | A quotient at least `k` rounds to at least `k`. |
| Media.RoundMonotone | ai.py:70 | Rounding is monotone in the numerator. |
| Media.FitToBox | card.py:84-88 | Fitting a picture into a box fails (a division by zero) exactly when a side of the picture is 0. |
| Media.FitInsideBox | work_area.py:86-91 | A fitted picture lies inside the box and fills it in width or in height. The other side keeps the aspect ratio within half a pixel. |
| Text.AfterLastIsLastPiece | run.py:110 | `split(c)[-1]` is a suffix without `c`. Unless it is the whole text, it is preceded by `c`. |
| Text.BeforeFirstIsFirstPiece | run.py:111 | `split(c)[0]` is a prefix without `c`. Unless it is the whole text, it is followed by `c`. |
| Text.NoSeparatorIsWhole | run.py:110-111 | A text without the separator is its own first and last piece. |
| Text.AfterLastOfSuffix | run.py:110 | The last piece of `a + b` is `b` when `a` ends with the separator and `b` has none. |
| Text.BeforeFirstOfPrefix | run.py:111 | The first piece of `a + b` is `a` when `a` has no separator and `b` starts with one. |
| Text.PathJoin | run.py:112 | `os.path.join(a, b)` ends with `b`. It is `b` when `b` is absolute, and otherwise starts with `a`. |
| Text.NatToString | ai.py:70 | `str(n)` of a natural number is a non-empty string of decimal digits. |
| Cards.Classify | card.py:27-41 | The extension is the text after the last `.`. An image extension loads an image and is checked first; otherwise a video extension loads a video; exactly the extensions in neither list are rejected. |
| Cards.Seek | card.py:60 | A seek lands on the position asked for, and on the first frame when that position is negative. |
| Cards.ReadAt | card.py:61 | A read gives the frame at the reader's position, and fails past the last frame. |
| Cards.Reads | card.py:72-73 | `n` consecutive reads from position `pos` give the frames at `pos`, `pos + 1` and so on, with one result per read. |
| Cards.Present | card.py:75-79 | Keeping the successful reads never gives more frames than reads. |
| Cards.PresentComesFromReads | card.py:75-79 | Every kept frame is one of the successful reads. |
| Cards.PresentStep | card.py:72-79 | One more read appends its frame exactly when that read succeeds. |
| Cards.Subclip | card.py:68-81 | A sub-clip has no more frames than there are reads: `end - start`, or none when `end <= start`. |
| Cards.SubclipBounds | card.py:68-81 | `select_subclip(start, end)` is empty when `end <= start`. It has at most `end - start` frames, all taken from the video. |
| Cards.SubclipOfIntactVideo | card.py:68-81 | On a video whose every read succeeds, the sub-clip of `start ..= end - 1` (any `start >= 0`) has `end - start` frames. They are consecutive frames of the video, in order, starting at the frame the seek to `start - 1` lands on. |
| Cards.SubclipFromZero | card.py:68-81 | A sub-clip from 0 is the sub-clip from 1 followed by the frame at `end - 1`, if that frame reads. The seek to `-1` lands on the first frame. |
| Cards.PresentOfSuccesses | card.py:75-79 | When every read succeeds, all the frames are kept, in order. |
| Cards.Load | card.py:27-43 | Loading a card gives: `ValueError` for an unknown extension; `KeyError` for a video whose first frame does not read. An image file loads as the still picture the storage opens for its path, a video as the opened clip with its first frame. Either loads exactly when that picture has two non-zero sides, and otherwise raises `ZeroDivisionError`. |
| Cards.LoadVideo | card.py:34-41 | A video card opens on its first frame. A failing first read raises `KeyError`, and a zero-sized first frame raises `ZeroDivisionError`. |
| Cards.Opened | card.py:43 | Making the thumbnail fails with `ZeroDivisionError` exactly when the picture has a zero side. Otherwise the card keeps its source and picture. |
| Cards.Thumbnail | card.py:83-91 | A thumbnail fits in 75 × 75 and has one side of exactly 75 pixels. |
| Cards.Card.constructor | card.py:15-43 | A new card keeps its path and number. It is not highlighted, has no output and is not placed on the grid. It shows the loaded picture, with its thumbnail. |
| Cards.Card.ToggleBorder | card.py:93-96 | Toggling the border flips the highlight flag. |
| Cards.Card.SelectVideoFrame | card.py:59-66 | Selecting frame `p` reads the frame after seeking to `p - 1`. The card's picture becomes that frame if the read succeeds, and is otherwise kept. |
| Cards.Card.SelectSubclip | card.py:68-81 | The sub-clip returned is the one `Subclip` specifies. |
| Cards.ReadNext | card.py:73-79 | One read of the loop keeps its frame after the frames kept so far exactly when the read succeeds. |
| Footers.Flip | card.py:93-96 | Toggling one card's border changes that card's flag and no other. |
| Footers.SelectFlags | footer.py:38-48 | Selecting without cards changes nothing (`NoCards`). Selecting succeeds exactly when the index, and any previous cursor, lie in the list. It then moves the cursor to the index, and changes no flag but those of the old and new cards. A failed selection keeps the cursor. |
| Footers.SelectKeepsConsistent | footer.py:38-49 | Selecting a card of a consistent footer returns it. Afterwards exactly that card is highlighted and the cursor is on it. |
| Footers.AppendKeepsConsistent | footer.py:30-36 | Appending an unhighlighted card keeps the selection consistent. |
| Footers.Falses | card.py:19 | A run of new cards is all unhighlighted. |
| Footers.AppendManyKeepsConsistent | run.py:129-130 | Appending any number of new cards keeps the selection consistent. |
| Footers.SelectTouchesTwoCards | footer.py:43-47 | Selecting changes the flags of only the previously selected card and the newly selected card. |
| Footers.RemoveFlags | footer.py:63-68 | Removing card `index` removes its flag and keeps the others in order. |
| Footers.RemoveAtOrAfterSelectionKeepsConsistent | footer.py:63-68 | Removing the selected card, or one after it, keeps the selection consistent. Removing the selected card leaves nothing highlighted. |
| Footers.RemoveBeforeSelectionBreaksConsistency | footer.py:63-68 | Removing a card before the selected one leaves the cursor one place too far: the highlighted card is then no longer the one under the cursor. |
| Footers.NumColumns | footer.py:86-87 | The grid has at least one column: exactly one below 800 pixels, and `width // 400` for a footer at least 800 pixels wide. |
| Footers.GridCell | footer.py:89-90 | Card `i` is never below row `i`. With one column it sits in row `i`; in the first `columns` cards it sits in row 0, column `i`. |
| Footers.GridCellInverse | footer.py:89-90 | Card `i`'s cell is inside the grid, and `row * columns + column` gives `i` back. |
| Footers.GridIsRowMajor | footer.py:80-90 | A later card sits in a later row, or further right in the same row. |
| Footers.Positions | footer.py:75-76 | Renumbering gives each card its position. |
| Footers.ReopenRepeatsNumbers | run.py:129-130 | Opening files a second time numbers the new cards from 0 again, after old cards numbered by position, so the first old card and the first new card both get 0. |
| Footers.LoadablePrefix | run.py:129-130 | The number of chosen files that load before the first failure. The file after them, if any, fails to load. |
| Footers.LoadablePrefixStop | run.py:129-130 | A count that reaches the end, or stops at a failing file, is that prefix length. |
| Footers.Footer.constructor | footer.py:12-19 | A new footer has no cards and no cursor. |
| Footers.Footer.GetCurrentCard | footer.py:60-61 | The current card is the card under the cursor. Without a cursor it raises `TypeError`; with a cursor past the end, `IndexError`. |
| Footers.Footer.CreateCard | footer.py:30-36 | A card is appended exactly when its file loads, numbered as given or by its position. On a failure the loader's exception is raised and the footer is unchanged. |
| Footers.Footer.CreateCards | run.py:129-130 | The cards for the files before the first one that fails to load are appended. That file's exception is raised. A consistent selection stays consistent. |
| Footers.Footer.CreateEach | run.py:129-130 | The loop appends, in order, one new card for each file that loads, and stops at the first failure. |
| Footers.Footer.CreateNext | run.py:130 | One step of the loop: the next file either gives a new card or raises its load error. |
| Footers.Footer.AppendCard | footer.py:34-36 | The new card goes at the end, unhighlighted. The cards already there keep their flags and numbers. |
| Footers.Footer.SelectCardByIndex | footer.py:38-49 | The flags, cursor and outcome are those of `SelectFlags`. On success the selected card is returned. The cards and their numbers are unchanged. |
| Footers.Footer.Pick | footer.py:48 | The cursor moves to `index`, and no flag changes. |
| Footers.Footer.ClearHighlight | footer.py:43-44 | The card under the cursor is un-highlighted. A cursor past the end fails and changes nothing. |
| Footers.Footer.ToggleCard | footer.py:44 | Toggling card `k` flips its flag only. |
| Footers.Footer.UpdateCard | footer.py:57-58 | Storing a card replaces the entry at `index`. An index past the end fails and changes nothing. |
| Footers.Footer.UpdateGrid | footer.py:79-90 | Every card is placed at its row-major cell for the footer's width. Flags and numbers are unchanged. |
| Footers.Footer.RemoveCardByIndex | footer.py:63-77 | The card is removed and taken off the grid. Flags and cursor follow `RemoveFlags`. The remaining cards are numbered by position and re-laid out. An index past the end fails and changes nothing. |
| Footers.Footer.DetachCard | footer.py:64-68 | The removed card leaves the list and the grid. The cursor is cleared if it was on that card. |
| Footers.Footer.Renumber | footer.py:75-76 | Each card's number becomes its position in the footer. |
| WorkAreas.ViewBox | work_area.py:79-84 | The fitting box is the area less 50 pixels of padding, and never below 50 pixels on a side: a side narrower than 100 pixels gets exactly 50. |
| WorkAreas.DisplaySize | work_area.py:75-99 | A picture has a display size exactly when neither of its sides is 0. |
| WorkAreas.DisplayFitsView | work_area.py:75-91 | A picture with two non-zero sides fits inside the view box and fills one side of it. A picture with a zero side cannot be displayed. |
| WorkAreas.ToggleTwiceRestores | work_area.py:38-48 | With an output, toggling alternates between original and output: every toggle changes the view, and two toggles restore it. |
| WorkAreas.ToggleWithoutOutput | work_area.py:38-45 | Without an output, toggling from the original shows nothing, and toggling from anything else shows the original. |
| WorkAreas.Toggled | work_area.py:38-48 | Toggling shows the original exactly when it was not already shown. It shows nothing exactly when the original was shown and there is no output; any other picture it shows is the output. |
| WorkAreas.Preferred | work_area.py:104 | A card is shown by its output when it has one, and by its original otherwise. |
| WorkAreas.WorkArea.constructor | work_area.py:20-25 | A new work area is empty and shows nothing. |
| WorkAreas.WorkArea.IsUpscaled | work_area.py:35-36 | Whether the card has an output. Without a card it raises `AttributeError`. |
| WorkAreas.WorkArea.ResizeImage | work_area.py:75-99 | The shown picture gets its fitted size. A picture with a zero side raises `ZeroDivisionError` and nothing changes. |
| WorkAreas.WorkArea.ToggleImage | work_area.py:38-48 | The view switches as `Toggled` says. A shown picture is resized to its fitted size. Without a card it raises `AttributeError`; every failure keeps the old size. |
| WorkAreas.WorkArea.ResetImage | work_area.py:50-53 | The original is shown again, at its fitted size. Without a card it raises `AttributeError`; every failure keeps the old size. |
| WorkAreas.WorkArea.CloseFile | work_area.py:55-61 | The card is dropped and the picture is hidden. |
| WorkAreas.WorkArea.ShowImage | work_area.py:63-73 | With a card, the picture is placed at its fitted size. With nothing to show, nothing happens. A failure keeps the old size. |
| WorkAreas.WorkArea.UpdateImage | work_area.py:102-106 | The area takes the card and shows its preferred picture at its fitted size. It fails, with `ZeroDivisionError` and the old size kept, only if that picture cannot be fitted. |
| ControlPanels.ClampKeepsRangeOrdered | control_panel.py:93-97 | After a new range end, the start lies in `0 ..= end`. It never moves forward, and stays put when already inside the range. |
| ControlPanels.ClampStart | control_panel.py:93-97 | A start within the range is kept. A start after the end moves to `end - 1`, or to 0 when the end is below 1. |
| ControlPanels.ControlPanel.constructor | control_panel.py:24-72 | The panel starts on the first of the seven models (BSRGAN), the first format and the default folder. The start entry is 0 and the end entry is empty. |
| ControlPanels.ControlPanel.SetVideoLength | control_panel.py:93-100 | The end entry becomes the length and the start is clamped into the range. An empty start entry raises `ValueError` and nothing changes. |
| ControlPanels.ControlPanel.StartNoEmpty | control_panel.py:111-113 | An empty start entry becomes 0; any other value is kept. |
| Worker.ProgressPercent | ai.py:70 | The progress percentage is at most 100, and is the rounded share of frames done. |
| Worker.OnlyPlainLinesReadDone | ai.py:28-50 | Only a line without a caption can read `done`: captioned, upscaling and progress lines never do. |
| Worker.ScaleFactor | ai.py:33-40 | The scale factor is 2 exactly for BSRGANx2, and 4 for every other model. |
| Worker.ModelPathInZoo | ai.py:45 | The weights of model `name` are `model_zoo/<name>.pth`. |
| Worker.InfoLines | ai.py:28-50 | The set-up announces 6 lines, or 7 when CUDA is available. |
| Worker.InfoLinesAreText | ai.py:28-50 | The set-up lines hold no picture and no `done`. |
| Worker.Enhance | ai.py:83-87 | An upscaled picture is resized back to its input's size. |
| Worker.EnhanceAll | ai.py:61-92 | Upscaling a list upscales each picture, in order. |
| Worker.EnhanceAllKeepsSizes | ai.py:87 | Every output has its input's width and height. |
| Worker.Percent | ai.py:70 | The percentage for frame `i` of `n` is at most 100, and exactly 100 at the last frame. |
| Worker.PercentMonotone | ai.py:70 | Progress never goes backwards. |
| Worker.Heading | ai.py:62-70 | The `Upscaling:` line comes before the first frame only. A progress line `i + 1 / n` comes before each frame of a video. |
| Worker.FrameBlock | ai.py:61-92 | Each frame's messages end with its upscaled picture. |
| Worker.BlockContents | ai.py:61-92 | A frame's messages hold exactly its upscaled picture and no `done`. |
| Worker.FramesAreNotDone | ai.py:61-92 | No frame message is `done`. |
| Worker.FramesPictures | ai.py:61-92 | The pictures sent for the first `k` frames are those frames upscaled, in order. |
| Worker.FramesLength | ai.py:61-70 | `k` frames take `k` pictures, one `Upscaling:` line and, for a video, `k` progress lines. |
| Worker.Frames | ai.py:61-92 | After `k > 0` frames, the last message sent is frame `k`'s upscaled picture. |
| Worker.ReplyPictures | ai.py:20-93 | The pictures of a reply are the request's images upscaled, in order, one per image. |
| Worker.Reply | ai.py:20-93 | A reply starts with the set-up lines, has more messages than those, and ends with `done`. |
| Worker.PicturesBeforeText | ai.py:93 | A text at the end adds no picture. |
| Worker.ReplyEndsWithDone | ai.py:20-93 | Every reply ends with `done`, and `done` appears nowhere earlier. |
| Worker.UpscalingLineFirst | ai.py:66-67 | Right after the set-up lines comes `Upscaling: <path>`. |
| Worker.FirstFrameBlock | ai.py:66-67 | The frame messages start with the `Upscaling:` line. |
| Worker.UpscaleProcess | ai.py:13-93 | The worker's messages are the replies to the requests, in order. |
| Worker.Transcript | ai.py:13-93 | The worker sends at least one message per request, and after any request its last message is `done`. |
| Worker.Serve | ai.py:21-93 | Each request reloads the model and GPU it names and sends exactly its reply. |
| Worker.TranscriptStep | ai.py:20-93 | The transcript of one more request is the previous transcript followed by that request's reply. |
| Worker.Reload | ai.py:24-59 | Loading a model sends the set-up lines. |
| Worker.Upscale | ai.py:61-92 | The picture loop sends the messages of every frame, in order. |
| Worker.SendFrame | ai.py:62-92 | One frame sends its heading lines, then its upscaled picture. |
| App.Stem | run.py:110-111 | The stem is the file name up to its first `.`, and holds no `/` or `.`. |
| App.OutputPath | run.py:110-112 | An output path ends with `<stem>_upscaled_.<extension>`. |
| App.StemOfPlainPath | run.py:110-111 | The stem of `dir/name.ext` is `name`. |
| App.FirstFiles | run.py:127 | At most 18 files are opened: the first ones chosen, or all of them when there are few enough. |
| App.CloseSelectsFirst | run.py:176-182 | Closing the selected card of several clears the cursor, and then selects the first card: only it is highlighted. |
| App.DoneAt | run.py:266-306 | The position of the first message that reads `done`. |
| App.Texts | run.py:305-306 | Every message is logged as text or taken as a picture. |
| App.LastPicture | run.py:270-272 | A card's output is the last picture received, or is unchanged when none arrived. |
| App.LastPictureStep | run.py:270-272 | A received picture becomes the output. |
| App.LastSize | run.py:270-278 | Showing pictures one after another leaves the area at the fitted size of the last picture that can be shown, or at the old size when none can. |
| App.LastSizeStep | run.py:270-278 | A received picture that can be shown sets the size; any other message keeps it. |
| App.ReceiveStep | run.py:266-306 | One more message adds either its picture or its text. |
| App.ReplyIsReadWhole | run.py:266-304 | The reader reaches the worker's final `done`. Before it, it receives exactly the upscaled images. |
| App.FirstDoneIsLast | run.py:284 | When `done` ends the messages and does not occur earlier, it is the first `done` read. |
| App.SingleImageReply | run.py:270-278 | For a single picture, the output after the reply is that picture upscaled. |
| App.StopAt | run.py:266-306 | The wait stops at the first `done`, or at a picture that cannot be shown. |
| App.StopAtStep | run.py:266-306 | A message that does not stop the wait moves it past that message. |
| App.StopAtDone | run.py:266-306 | The wait never passes the first `done`. It reaches it for a video, or when every picture can be shown. |
| App.VideoReplyIsBuffered | run.py:279-282 | For a video, the whole reply is read and every upscaled frame is buffered. |
| App.ImageReplyIsShown | run.py:274-278 | For an image whose output can be displayed, the reply is read up to `done` and its one picture is taken. |
| App.StopsAtDoneWhenShown | run.py:274-278 | A single displayable picture does not stop the wait early. |
| App.SaveFailure | run.py:288-296 | Saving a video needs a video card, both range entries and a non-zero frame rate. Each missing condition raises its own exception. |
| App.MainApplication.constructor | run.py:39-53 | The window starts on BSRGAN and `png`. The footer and work area are empty, no request has been sent and the save button is hidden. |
| App.MainApplication.SaveImage | run.py:106-115 | The output is saved as `<stem>_upscaled_.<format>` in the output folder. Without an output nothing is saved. Without a card it raises `AttributeError`. |
| App.MainApplication.SelectCardByIndex | run.py:140-163 | The footer's selection follows `SelectFlags`. The selected card is shown; for a video, its range is set to its frame count. Without cards, or with an index past the end, it raises and the window is unchanged. |
| App.MainApplication.ShowChosen | run.py:144-163 | Shows the card the footer has just selected, as `ShowCard` does, leaving the footer as the selection left it. |
| App.MainApplication.ShowCard | run.py:144-163 | The save button follows the card's output. An image card leaves the range entries alone. A video's range ends at its length and its start is clamped into it; an empty start entry raises `ValueError` and leaves the window as it was. The work area shows the preferred picture at its fitted size; a picture that cannot be fitted raises `ZeroDivisionError` and keeps the old size and placement. |
| App.MainApplication.OpenFile | run.py:117-135 | No files changes nothing. Otherwise, cards are added for the first files up to the first failure, which raises and leaves the window as it was. On success the grid is laid out and the first card is selected and shown. |
| App.MainApplication.LayOutAndSelectFirst | run.py:132-135 | Lays out the grid, then selects and shows the first card, as `SelectCardByIndex(0)` does from the window as it was. |
| App.MainApplication.SelectFirst | run.py:135 | Selects and shows the first card, as `SelectCardByIndex(0)` does, keeping the selection consistent. |
| App.MainApplication.CloseFile | run.py:176-182 | The work area is emptied, and the selected card is removed. The cards left are renumbered and the first is selected and shown. Without a cursor, or with a cursor past the end, it raises; the footer is then unchanged and the window differs only by the emptied work area. |
| App.MainApplication.CloseCard | run.py:178-182 | Removes the selected card and selects the first remaining one. A cursor past the end raises `IndexError` and changes nothing. |
| App.MainApplication.EmptyWorkArea | run.py:177 | The work area drops its card and hides its picture. Everything else in the window and the footer is unchanged. |
| App.MainApplication.SelectFirstRemaining | run.py:180-182 | Selects and shows the first remaining card. An empty footer stays unselected and the window stays as it was. |
| App.MainApplication.SliderChange | run.py:165-171 | The current video card shows frame `value`; the range ends there and the work area shows it at its fitted size. An image card raises `AttributeError`; this and every other failure keep the old size. |
| App.MainApplication.VideoEndChange | run.py:194-197 | An empty end entry becomes 1, and the current video shows that frame at its fitted size. Every failure keeps the old size. |
| App.MainApplication.Upscale | run.py:216-252 | A request with the current model, GPU, path and images is sent. It counts as a video exactly when there is more than one image. |
| App.MainApplication.UpscaleImage | run.py:199-205 | With cards loaded, the current card's picture is sent. Without cards, nothing is sent. Without a current card, the footer's error is raised. |
| App.MainApplication.UpscaleAndSaveVideo | run.py:207-213 | The current video's sub-clip for the entered range is sent. Empty entries raise `ValueError`; an image card raises `AttributeError`. |
| App.MainApplication.WaitForUpscaledImages | run.py:255-311 | For the current card: texts are logged, pictures are taken or buffered, and the wait ends at `done` or at a failure. An image card's area is left at the size `LastSize` gives for the pictures read. A video is saved. Without a current card, the footer's error is raised and the size is kept. |
| App.MainApplication.Await | run.py:262-311 | Reads the messages for a given card, then finishes at `done`. The size after reading is the one `LastSize` gives for an image, and the old size for a video. |
| App.MainApplication.Finish | run.py:284-311 | `done` saves a video, unless `SaveFailure` raises, and logs `Done!`. After a single picture, an image card shows the save button. |
| App.MainApplication.Receive | run.py:266-306 | The loop reads up to where the wait stops, logging texts and buffering a video's pictures. The size is the one `LastSize` gives for the pictures read. |
| App.MainApplication.ReceiveOne | run.py:267-306 | Reads one message and says whether it stops the wait. The size follows `LastSize` over the messages read so far. |
| App.MainApplication.ReceivePicture | run.py:270-282 | A picture becomes the card's output. For an image it is shown at its fitted size, and it stops the wait if it cannot be fitted. |
| App.MainApplication.TakeMessage | run.py:270-282 | Taking the picture at position `i` extends what has been taken to the first `i + 1` messages, including the size. It fails exactly for an image whose picture cannot be fitted. |
| App.MainApplication.ReceiveText | run.py:284-306 | A text stops the wait if it is `done`, and is logged otherwise. |
| App.MainApplication.TookText | run.py:305-306 | A text message leaves the card and the work area as they were. |
| App.MainApplication.TakePicture | run.py:270-282 | The picture becomes the card's output and is stored back in the footer. For an image it is shown at its fitted size, failing exactly when it cannot be fitted. A video, or a failure, keeps the old size. |
| App.MainApplication.SaveVideo | run.py:285-302 | The video is saved as `<stem>_upscaled_.mp4` with the card's frame rate, and logged. Otherwise it raises what `SaveFailure` names. |

## Left out

- Widgets and layout: geometry, colours, fonts, icons, the progress window and its scroll bar are not modelled. The model keeps only what these widgets decide: what is placed, and which picture is shown at which size. `slider.py` is not part of this model; the slider's rounded value is a parameter of `SliderChange`.
- Threads and the pipe: the worker is a separate process, and `wait_for_upscaled_images` runs in a thread. The model reads a given sequence of received messages in one step. `Pending` stands for waiting forever on a reply that never completes. Interleavings with user actions during the wait are not modelled.
- Numbers in entries: an entry holds a whole number or is empty. Non-numeric text, and the float conversions of the slider value, are not modelled.
- Floating point: ratios are exact rationals rounded half to even, so float rounding error is ignored. The frame rate is a `real`; a zero frame rate stands for a division by zero when the video is written.
- Decoding and encoding: `cv2`, `PIL` and `moviepy` become a `Storage` of decoder functions. A video's frame count is taken to be its number of readable frames plus failed reads. Writing a file is recorded in `saved`, with no audio and no encoder errors. Creating the output folders (ai.py:14-15) is not modelled.
- The network: `torch`, CUDA and the network architecture become a parameter: a function from weights and a scale factor to a picture. Versions and device names are parameters of `Environment`.
- Simple setters and bindings are not modelled: `change_model`, `change_gpu`, `output_format_change`, `change_output_folder`, `select_folder`, the `on_*` binders, `card_selected` and the file dialogs. `update_footer` is `Footer.UpdateGrid`. `current_card_index` and `is_card_loaded` are read directly (`indexSelected`, `IsCardLoaded`).
- `reset_image` and `see_original` in `run.py` (run.py:184-192): only their work-area parts are modelled (`WorkArea.ResetImage`, `WorkArea.ToggleImage`). Hiding the save button on reset is not modelled.
- Seeking before the first frame: `Cards.Seek` takes a seek to a negative position, such as the `start - 1` of a range starting at 0, to land on the first frame. This is an assumption about the video decoder.
- Zero-sided resizing: PIL refuses to resize a picture to a side of 0 pixels. A very thin picture, such as 1000 × 1 pixels, rounds to a 75 × 0 thumbnail (card.py:90) or a zero-height display size (work_area.py:93). There the application raises, but the model accepts the card and the size.
- Python negative indexing: card indices are natural numbers, since the application never passes a negative one.
- WorkAreas.Toggled: decides whether the original is shown by comparing pictures by value. `toggle_image` (work_area.py:40) compares `PhotoImage` objects by identity. The two differ when the original held by the work area is stale but equal in pixels to the card's current one. Example: the slider moves a video card to a frame that looks the same as the shown one, so `select_video_frame` (card.py:64-65) makes a new `PhotoImage`. Then `set_video_length` raises `ValueError` on an empty start entry (control_panel.py:94) before `update_image` runs. On the next toggle the application shows the original, but the model shows the output, or nothing when there is no output.
- WorkAreas.WorkArea.ToggleImage: follows `Toggled`, so in the stale-original case above it shows the output where the application shows the original.
- Footers.Footer.UpdateCard: requires that a card already in the footer is stored back at its own place. This keeps the footer's cards distinct; the application only stores back the card it took from that place.
- Card numbers after a second `open_file`: the application numbers each batch of new cards from 0 (run.py:129-130), so numbers repeat until a card is closed and the footer renumbers. The model keeps this behaviour (`Footers.ReopenRepeatsNumbers`).
