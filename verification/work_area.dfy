/** The work area: the large view of the selected card, which shows either the card's original
    picture or its upscaled output, resized to fit the area. */
module WorkAreas {
  import opened Media
  import opened Cards

  /** What the view shows: the card's original picture or its upscaled output. The two are
      different picture objects in the application, so a shown output never passes for the
      original. */
  datatype Shown = Original(image: Image) | Upscaled(image: Image)

  /** Padding kept free around the picture, in pixels. */
  const Padding := 50

  /** The box a picture is fitted into: the area's size less the padding, but never less than
      the padding itself on either side. */
  function ViewBox(width: int, height: int): (r: Size)
    ensures r.width >= Padding && r.height >= Padding
    ensures width >= 2 * Padding ==> r.width == width - Padding
    ensures height >= 2 * Padding ==> r.height == height - Padding
    ensures width < 2 * Padding ==> r.width == Padding
    ensures height < 2 * Padding ==> r.height == Padding
  {
    Size(if width - Padding > Padding then width - Padding else Padding,
         if height - Padding > Padding then height - Padding else Padding)
  }

  /** The size `resize_image` gives the shown picture in an area of `width` by `height`. */
  function DisplaySize(width: int, height: int, img: Image): (r: Option<Size>)
    ensures r.None? <==> img.width == 0 || img.height == 0
  {
    var box := ViewBox(width, height);
    FitToBox(box.width, box.height, img.width, img.height)
  }

  /** A picture with two non-zero sides is displayed inside the view box, filling it in width
      or in height; a picture with a zero side cannot be displayed (a division by zero). */
  lemma {:induction false} DisplayFitsView(width: int, height: int, img: Image)
    ensures DisplaySize(width, height, img).None? <==> img.width == 0 || img.height == 0
    ensures DisplaySize(width, height, img).Some? ==>
      var s, box := DisplaySize(width, height, img).value, ViewBox(width, height);
      && 0 <= s.width <= box.width && 0 <= s.height <= box.height
      && (s.width == box.width || s.height == box.height)
  {
    if img.width > 0 && img.height > 0 {
      var box := ViewBox(width, height);
      FitInsideBox(box.width, box.height, img.width, img.height);
    }
  }

  /** What `toggle_image` shows next: the output when the original is showing, the original
      in every other case. */
  function Toggled(showing: Option<Shown>, original: Image, output: Option<Image>): (r: Option<Shown>)
    ensures r == Some(Original(original)) <==> showing != Some(Original(original))
    ensures r.None? <==> showing == Some(Original(original)) && output.None?
    ensures r.Some? && r.value.Upscaled? ==> output == Some(r.value.image)
  {
    if showing == Some(Original(original)) then (if output.Some? then Some(Upscaled(output.value)) else None)
    else Some(Original(original))
  }

  /** With an output present, toggling alternates between the original and the output: two
      toggles from either return to it, and a toggle always changes the view. */
  lemma ToggleTwiceRestores(original: Image, output: Image, showing: Option<Shown>)
    requires showing == Some(Original(original)) || showing == Some(Upscaled(output))
    ensures Toggled(showing, original, Some(output)) != showing
    ensures Toggled(Toggled(showing, original, Some(output)), original, Some(output)) == showing
  {
  }

  /** Without an output, toggling from the original shows nothing, and toggling again shows
      the original. */
  lemma ToggleWithoutOutput(original: Image, showing: Option<Shown>)
    ensures showing == Some(Original(original)) ==> Toggled(showing, original, None) == None
    ensures showing != Some(Original(original)) ==> Toggled(showing, original, None) == Some(Original(original))
  {
  }

  /** The picture `update_image` shows for a card: its output when it has one, its original
      otherwise. */
  function Preferred(original: Image, output: Option<Image>): (r: Shown)
    ensures output.Some? <==> r.Upscaled?
    ensures r.image == if output.Some? then output.value else original
  {
    if output.Some? then Upscaled(output.value) else Original(original)
  }

  class WorkArea {
    /** The card on show, or `null`. */
    var card: Card?
    /** `image_showing`. */
    var showing: Option<Shown>
    /** Size of the resized picture on the label, once one was made. */
    var resized: Option<Size>
    /** Whether the picture label (with its buttons) is placed, rather than the open button. */
    var placed: bool
    /** The area's size on screen. */
    var width: int
    var height: int

    /** An empty area of the given size. */
    constructor (width: int, height: int)
      ensures card == null && showing == None && resized == None && !placed
      ensures this.width == width && this.height == height
    {
      card := null;
      showing := None;
      resized := None;
      placed := false;
      this.width := width;
      this.height := height;
    }

    /** `is_upscaled`: whether the card has an output; without a card it raises
        `AttributeError`. */
    function IsUpscaled(): (r: Result<bool>)
      reads this`card, card
      ensures card == null <==> r == Err(AttributeError)
      ensures card != null ==> r == Ok(card.output.Some?)
    {
      if card == null then Err(AttributeError) else Ok(card.output.Some?)
    }

    /** `resize_image`: nothing to do when nothing is showing; otherwise fit the shown picture
        into the view box. */
    method ResizeImage() returns (r: Outcome)
      modifies this`resized
      ensures showing.None? ==> r == Pass && resized == old(resized)
      ensures showing.Some? ==> var size := DisplaySize(width, height, showing.value.image);
        && (r == Pass <==> size.Some?)
        && (r.Fail? ==> r.error == ZeroDivisionError && resized == old(resized))
        && (r.Pass? ==> resized == size)
    {
      if showing.None? {
        return Pass;
      }
      var size := DisplaySize(width, height, showing.value.image);
      if size.None? {
        return Fail(ZeroDivisionError);
      }
      resized := size;
      r := Pass;
    }

    /** `toggle_image`: switch the view (see `Toggled`) and resize it. */
    method ToggleImage() returns (r: Outcome)
      modifies this`showing, this`resized
      ensures old(card) == null ==> r == Fail(AttributeError) && showing == old(showing) && resized == old(resized)
      ensures card != null ==> showing == Toggled(old(showing), card.file, card.output)
      ensures card != null && showing.None? ==> r == Pass && resized == old(resized)
      ensures card != null && showing.Some? ==> (r.Pass? <==> DisplaySize(width, height, showing.value.image).Some?)
      ensures card != null && showing.Some? && r.Pass? ==> resized == DisplaySize(width, height, showing.value.image)
      ensures r.Fail? ==> resized == old(resized)
    {
      if card == null {
        return Fail(AttributeError);
      }
      showing := Toggled(showing, card.file, card.output);
      r := ResizeImage();
    }

    /** `reset_image`: show the original again. */
    method ResetImage() returns (r: Outcome)
      modifies this`showing, this`resized
      ensures card == null ==> r == Fail(AttributeError) && showing == old(showing) && resized == old(resized)
      ensures card != null ==> showing == Some(Original(card.file))
      ensures card != null ==> (r.Pass? <==> DisplaySize(width, height, card.file).Some?)
      ensures card != null && r.Pass? ==> resized == DisplaySize(width, height, card.file)
      ensures r.Fail? ==> resized == old(resized)
    {
      if card == null {
        return Fail(AttributeError);
      }
      showing := Some(Original(card.file));
      r := ResizeImage();
    }

    /** `close_file`: hide the picture and forget the card; the shown picture is kept. */
    method CloseFile()
      modifies this`card, this`placed
      ensures card == null && !placed
    {
      placed := false;
      card := null;
    }

    /** `show_image`: nothing without a card; otherwise place the picture and resize it. */
    method ShowImage() returns (r: Outcome)
      modifies this`placed, this`resized
      ensures card == null ==> r == Pass && placed == old(placed) && resized == old(resized)
      ensures card != null ==> placed
      ensures r.Fail? ==> r.error == ZeroDivisionError
      ensures card != null && showing.Some? ==> (r.Pass? <==> DisplaySize(width, height, showing.value.image).Some?)
      ensures showing.None? ==> r == Pass && resized == old(resized)
      ensures r.Pass? && card != null && showing.Some? ==> resized == DisplaySize(width, height, showing.value.image)
      ensures r.Fail? ==> resized == old(resized)
    {
      if card == null {
        return Pass;
      }
      placed := true;
      r := ResizeImage();
    }

    /** `update_image(card)`: take the card and show its output if it has one, its original
        otherwise (see `Preferred`). */
    method UpdateImage(c: Card) returns (r: Outcome)
      modifies this`card, this`showing, this`resized
      ensures card == c && showing == Some(Preferred(c.file, c.output))
      ensures r.Pass? <==> DisplaySize(width, height, Preferred(c.file, c.output).image).Some?
      ensures r.Fail? ==> r.error == ZeroDivisionError && resized == old(resized)
      ensures r.Pass? ==> resized == DisplaySize(width, height, Preferred(c.file, c.output).image)
    {
      card := c;
      showing := Some(Preferred(c.file, c.output));
      r := ResizeImage();
    }
  }
}
