/** The footer: the row of loaded cards under the work area, with a cursor on the selected one.
    The selection is meant to be mirrored by the cards' highlight flags: exactly the card at
    `indexSelected` is highlighted. The pure functions over the list of flags state what each
    operation does to that picture; the `Footer` class is proved to follow them. */
module Footers {
  import opened Media
  import opened Cards

  // ---------------------------------------------------------------------------------------
  // The selection, as a list of highlight flags and a cursor

  /** Exactly the card under the cursor is highlighted, and the cursor is inside the list. */
  predicate Consistent(flags: seq<bool>, selected: Option<nat>)
  {
    && (selected.Some? ==> selected.value < |flags|)
    && forall k :: 0 <= k < |flags| ==> (flags[k] <==> selected == Some(k))
  }

  function Flip(flags: seq<bool>, k: nat): (r: seq<bool>)
    requires k < |flags|
    ensures |r| == |flags| && r[k] == !flags[k]
    ensures forall j :: 0 <= j < |flags| && j != k ==> r[j] == flags[j]
  {
    flags[k := !flags[k]]
  }

  /** How `select_card_by_index` ended: on an empty footer (returns `None`), with a card
      returned, or with an `IndexError` from a cursor or an index outside the list. */
  datatype SelectStatus = NoCards | Chosen | OutOfRange

  datatype Selection = Selection(flags: seq<bool>, selected: Option<nat>, status: SelectStatus)

  /** `select_card_by_index(index)` on the flags: nothing on an empty footer; otherwise flip
      the card under the cursor (if any), then flip card `index` and move the cursor there. An
      index error can strike after the first flip. */
  function SelectFlags(flags: seq<bool>, selected: Option<nat>, index: nat): (r: Selection)
    ensures |r.flags| == |flags|
    ensures r.status == NoCards <==> flags == []
    ensures r.status == Chosen <==> flags != [] && index < |flags| && (selected.None? || selected.value < |flags|)
    ensures r.status == Chosen ==> r.selected == Some(index)
    ensures r.status != Chosen ==> r.selected == selected
    ensures r.status != OutOfRange ==> forall k :: 0 <= k < |flags| && Some(k) != selected && k != index ==> r.flags[k] == flags[k]
  {
    if |flags| == 0 then Selection(flags, selected, NoCards)
    else if selected.Some? && selected.value >= |flags| then Selection(flags, selected, OutOfRange)
    else
      var cleared := if selected.Some? then Flip(flags, selected.value) else flags;
      if index >= |flags| then Selection(cleared, selected, OutOfRange)
      else Selection(Flip(cleared, index), Some(index), Chosen)
  }

  /** Selecting a card of a consistent footer returns it and leaves the footer consistent, with
      exactly the new card highlighted; this includes selecting the card already selected. */
  lemma SelectKeepsConsistent(flags: seq<bool>, selected: Option<nat>, index: nat)
    requires Consistent(flags, selected) && index < |flags|
    ensures var r := SelectFlags(flags, selected, index);
      r.status == Chosen && r.selected == Some(index) && Consistent(r.flags, r.selected)
  {
    var r := SelectFlags(flags, selected, index);
    forall k | 0 <= k < |flags| ensures r.flags[k] <==> k == index {
      if selected.Some? {
        var cleared := Flip(flags, selected.value);
        assert forall j :: 0 <= j < |flags| ==> !cleared[j];
      }
    }
  }

  /** Appending an unselected card keeps the footer consistent. */
  lemma AppendKeepsConsistent(flags: seq<bool>, selected: Option<nat>)
    requires Consistent(flags, selected)
    ensures Consistent(flags + [false], selected)
  {
    var grown := flags + [false];
    forall k | 0 <= k < |grown| ensures grown[k] <==> selected == Some(k) {
      if k < |flags| {
        assert grown[k] == flags[k];
      }
    }
  }

  /** `n` unselected flags. */
  function Falses(n: nat): (r: seq<bool>)
    ensures |r| == n && forall k :: 0 <= k < n ==> !r[k]
  {
    if n == 0 then [] else Falses(n - 1) + [false]
  }

  /** Appending any number of unselected cards keeps the footer consistent. */
  lemma {:induction false} AppendManyKeepsConsistent(flags: seq<bool>, selected: Option<nat>, n: nat)
    requires Consistent(flags, selected)
    ensures Consistent(flags + Falses(n), selected)
  {
    if n > 0 {
      AppendManyKeepsConsistent(flags, selected, n - 1);
      AppendKeepsConsistent(flags + Falses(n - 1), selected);
      assert flags + Falses(n) == (flags + Falses(n - 1)) + [false];
    }
  }

  /** Selecting only touches the previously selected card and the new one. */
  lemma SelectTouchesTwoCards(flags: seq<bool>, selected: Option<nat>, index: nat, k: nat)
    requires k < |flags| && k != index && selected != Some(k)
    ensures SelectFlags(flags, selected, index).flags[k] == flags[k]
  {
  }

  /** `del cards[index]` on the flags, and what happens to the cursor: it is cleared when it
      pointed at the removed card and left as it was otherwise. */
  function RemoveFlags(flags: seq<bool>, selected: Option<nat>, index: nat): (r: (seq<bool>, Option<nat>))
    requires index < |flags|
    ensures |r.0| == |flags| - 1
    ensures forall k :: 0 <= k < index ==> r.0[k] == flags[k]
    ensures forall k :: index <= k < |r.0| ==> r.0[k] == flags[k + 1]
  {
    (flags[..index] + flags[index + 1..], if selected == Some(index) then None else selected)
  }

  /** Removing the selected card, or a card after it, keeps the footer consistent; removing the
      selected card leaves nothing highlighted. */
  lemma RemoveAtOrAfterSelectionKeepsConsistent(flags: seq<bool>, selected: Option<nat>, index: nat)
    requires Consistent(flags, selected) && index < |flags|
    requires selected.None? || index >= selected.value
    ensures Consistent(RemoveFlags(flags, selected, index).0, RemoveFlags(flags, selected, index).1)
    ensures selected == Some(index) ==> forall k :: 0 <= k < |flags| - 1 ==> !RemoveFlags(flags, selected, index).0[k]
  {
  }

  /** Removing a card before the selected one leaves the cursor stale: the highlighted card has
      moved one place down while the cursor still names the old position, which now holds
      another card or lies past the end. */
  lemma {:induction false} RemoveBeforeSelectionBreaksConsistency(flags: seq<bool>, selected: nat, index: nat)
    requires Consistent(flags, Some(selected)) && index < selected
    ensures var (rest, cursor) := RemoveFlags(flags, Some(selected), index);
      && cursor == Some(selected)
      && rest[selected - 1]
      && !Consistent(rest, cursor)
  {
    var (rest, cursor) := RemoveFlags(flags, Some(selected), index);
    assert rest[selected - 1] == flags[selected];
  }

  // ---------------------------------------------------------------------------------------
  // The grid

  /** `max(floor(width / 400), 1)`: one column per 400 pixels of footer width, at least one. */
  function NumColumns(width: int): (r: nat)
    ensures r >= 1
    ensures width >= 800 ==> r == width / 400
    ensures width < 800 ==> r == 1
  {
    if width / 400 < 1 then 1 else width / 400
  }

  /** Row `floor(i / columns)`, column `i % columns`. */
  function GridCell(i: nat, columns: nat): (r: Cell)
    requires columns >= 1
    ensures r.row <= i
    ensures columns == 1 ==> r == Cell(i, 0)
    ensures i < columns ==> r == Cell(0, i)
  {
    Cell(i / columns, i % columns)
  }

  /** Every card gets a column inside the grid, and reading the grid row by row gives back the
      card's position. */
  lemma GridCellInverse(i: nat, columns: nat)
    requires columns >= 1
    ensures GridCell(i, columns).column < columns
    ensures GridCell(i, columns).row * columns + GridCell(i, columns).column == i
  {
  }

  /** The grid is filled in row-major order: a later card sits on a later row, or on the same
      row further right. In particular no two cards share a cell. */
  lemma {:induction false} GridIsRowMajor(i: nat, j: nat, columns: nat)
    requires columns >= 1 && i < j
    ensures var a, b := GridCell(i, columns), GridCell(j, columns);
      a.row < b.row || (a.row == b.row && a.column < b.column)
  {
    var a, b := GridCell(i, columns), GridCell(j, columns);
    GridCellInverse(i, columns);
    GridCellInverse(j, columns);
    // A later card cannot sit on an earlier row: that row would end before the earlier card.
    var x := a.row - b.row;
    assert a.row * columns == b.row * columns + x * columns;
    ScaleAtLeastOnce(x, columns);
  }

  // ---------------------------------------------------------------------------------------
  // Opening several files

  /** The numbers `0, 1, ..., n - 1`. */
  function Positions(n: nat): (r: seq<int>)
    ensures |r| == n && forall k :: 0 <= k < n ==> r[k] == k
  {
    seq(n, k => k)
  }

  // One more round of `CreateCards`, on the footer's flags, paths and numbers.

  lemma FalsesStep(base: seq<bool>, n: nat)
    ensures base + Falses(n + 1) == (base + Falses(n)) + [false]
  {
    assert Falses(n + 1) == Falses(n) + [false];
  }

  lemma TakeStep<T>(base: seq<T>, s: seq<T>, n: nat)
    requires n < |s|
    ensures base + s[..n + 1] == (base + s[..n]) + [s[n]]
  {
    assert s[..n + 1] == s[..n] + [s[n]];
  }

  lemma PositionsStep(base: seq<int>, n: nat)
    ensures base + Positions(n + 1) == (base + Positions(n)) + [n]
  {
    assert Positions(n + 1) == Positions(n) + [n];
  }

  /** A second `open_file` numbers its cards from 0 again: when the footer already holds cards
      numbered by position, each new card repeats the number of the old card at the same
      position, so card numbers no longer identify a card. */
  lemma ReopenRepeatsNumbers(numbers0: seq<int>, count: nat, numbers: seq<int>)
    requires numbers0 == Positions(|numbers0|) && numbers == numbers0 + Positions(count)
    ensures forall k :: 0 <= k < |numbers0| ==> numbers[k] == k
    ensures forall j :: |numbers0| <= j < |numbers| ==> numbers[j] == j - |numbers0|
    ensures numbers0 != [] && count > 0 ==> numbers[0] == numbers[|numbers0|] == 0
  {
    forall j | |numbers0| <= j < |numbers| ensures numbers[j] == j - |numbers0| {
      assert numbers[j] == Positions(count)[j - |numbers0|];
    }
  }

  /** The cards of `s` after the first `|before|` were all allocated since the old state. */
  twostate predicate FreshAfter(before: seq<Card>, new s: seq<Card>)
  {
    forall j :: |before| <= j < |s| ==> fresh(s[j])
  }

  /** Appending a card allocated since the old state keeps `FreshAfter`. */
  twostate lemma FreshAfterStep(before: seq<Card>, new s: seq<Card>, new c: Card)
    requires FreshAfter(before, s) && fresh(c)
    ensures FreshAfter(before, s + [c])
  {
  }

  /** How many of `paths`, from the first, load before one fails. */
  function LoadablePrefix(paths: seq<string>, storage: Storage, imageExtensions: seq<string>, videoExtensions: seq<string>): (r: nat)
    ensures r <= |paths|
    ensures forall k :: 0 <= k < r ==> Load(paths[k], storage, imageExtensions, videoExtensions).Loaded?
    ensures r < |paths| ==> Load(paths[r], storage, imageExtensions, videoExtensions).LoadFailed?
  {
    if paths == [] || Load(paths[0], storage, imageExtensions, videoExtensions).LoadFailed? then 0
    else 1 + LoadablePrefix(paths[1..], storage, imageExtensions, videoExtensions)
  }

  /** A path past a prefix of the loadable ones that loads extends it. */
  lemma LoadablePrefixStep(paths: seq<string>, storage: Storage, imageExtensions: seq<string>, videoExtensions: seq<string>, n: nat)
    requires n < |paths| && n <= LoadablePrefix(paths, storage, imageExtensions, videoExtensions)
    requires Load(paths[n], storage, imageExtensions, videoExtensions).Loaded?
    ensures n + 1 <= LoadablePrefix(paths, storage, imageExtensions, videoExtensions)
  {
  }

  /** A prefix of the loadable ones that ends the paths or is followed by a path that fails
      to load is all of them. */
  lemma LoadablePrefixStop(paths: seq<string>, storage: Storage, imageExtensions: seq<string>, videoExtensions: seq<string>, n: nat)
    requires n <= |paths| && n <= LoadablePrefix(paths, storage, imageExtensions, videoExtensions)
    requires n < |paths| ==> Load(paths[n], storage, imageExtensions, videoExtensions).LoadFailed?
    ensures n == LoadablePrefix(paths, storage, imageExtensions, videoExtensions)
  {
  }

  // ---------------------------------------------------------------------------------------
  // The footer widget

  /** The flags of a list of cards. */
  ghost function FlagsOf(cs: seq<Card>): (r: seq<bool>)
    reads cs`selected
    ensures |r| == |cs|
    ensures forall k :: 0 <= k < |cs| ==> r[k] == cs[k].selected
  {
    if cs == [] then [] else FlagsOf(cs[..|cs| - 1]) + [cs[|cs| - 1].selected]
  }

  /** The paths of a list of cards. */
  function PathsOf(cs: seq<Card>): (r: seq<string>)
    ensures |r| == |cs|
    ensures forall k :: 0 <= k < |cs| ==> r[k] == cs[k].path
  {
    seq(|cs|, k requires 0 <= k < |cs| => cs[k].path)
  }

  /** The numbers of a list of cards. */
  ghost function NumbersOf(cs: seq<Card>): (r: seq<int>)
    reads cs`index
    ensures |r| == |cs|
    ensures forall k :: 0 <= k < |cs| ==> r[k] == cs[k].index
  {
    if cs == [] then [] else NumbersOf(cs[..|cs| - 1]) + [cs[|cs| - 1].index]
  }

  class Footer {
    /** The loaded cards, in footer order. */
    var cards: seq<Card>
    /** `index_selected`: the cursor, or `None`. */
    var indexSelected: Option<nat>
    /** The width the footer currently has on screen. */
    var width: int

    /** No card object appears twice in the footer. */
    ghost predicate Valid()
      reads this`cards
    {
      forall a, b :: 0 <= a < b < |cards| ==> cards[a] != cards[b]
    }

    ghost function Flags(): (r: seq<bool>)
      reads this`cards, cards`selected
    {
      FlagsOf(cards)
    }

    ghost function Paths(): (r: seq<string>)
      reads this`cards
    {
      PathsOf(cards)
    }

    ghost function Numbers(): (r: seq<int>)
      reads this`cards, cards`index
    {
      NumbersOf(cards)
    }

    /** An empty footer with no selection. */
    constructor (width: int)
      ensures Valid() && cards == [] && indexSelected == None && this.width == width
    {
      cards := [];
      indexSelected := None;
      this.width := width;
    }

    /** `is_card_loaded`. */
    predicate IsCardLoaded()
      reads this`cards
    {
      |cards| > 0
    }

    /** `get_current_card`: the card under the cursor; `TypeError` without a cursor and
        `IndexError` with a cursor past the end. */
    function GetCurrentCard(): (r: Result<Card>)
      reads this`cards, this`indexSelected
      ensures r.Ok? <==> indexSelected.Some? && indexSelected.value < |cards|
      ensures r.Ok? ==> r.value == cards[indexSelected.value]
      ensures r.Err? ==> r.error == (if indexSelected.None? then TypeError else IndexError)
    {
      if indexSelected.None? then Err(TypeError)
      else if indexSelected.value < |cards| then Ok(cards[indexSelected.value])
      else Err(IndexError)
    }

    /** `create_card(filepath, index)`: load the file and append a new card numbered `index`,
        or `len(cards)` when no index is given. A file that cannot be loaded raises before the
        list changes. */
    method CreateCard(path: string, index: Option<int>, storage: Storage,
                      imageExtensions: seq<string>, videoExtensions: seq<string>) returns (r: Outcome)
      requires Valid()
      modifies this`cards
      ensures Valid()
      ensures var loading := Load(path, storage, imageExtensions, videoExtensions);
        && (r.Pass? <==> loading.Loaded?)
        && (r.Fail? ==> r.error == loading.error && cards == old(cards))
      ensures r.Pass? ==> Appended(old(cards), old(Flags()), old(Paths()), old(Numbers()), path,
                                   if index.Some? then index.value else |old(cards)|)
      ensures r.Pass? ==> fresh(cards[|cards| - 1]) && cards == old(cards) + [cards[|cards| - 1]]
    {
      var loading := Load(path, storage, imageExtensions, videoExtensions);
      if loading.LoadFailed? {
        return Fail(loading.error);
      }
      var number := if index.Some? then index.value else |cards|;
      AppendCard(path, number, loading);
      r := Pass;
    }

    /** The footer holds the cards `before` (whose paths and numbers were `paths0` and
        `numbers0`), then one card for each of `paths[..count]`, numbered by its position
        there. */
    ghost predicate Extended(before: seq<Card>, paths0: seq<string>, numbers0: seq<int>, paths: seq<string>, count: nat)
      reads this`cards, cards`index
    {
      && count <= |paths| && |cards| == |before| + count
      && (forall j :: 0 <= j < |before| ==> cards[j] == before[j])
      && Paths() == paths0 + paths[..count]
      && Numbers() == numbers0 + Positions(count)
    }

    /** After `count` rounds of `CreateCards`: `Extended`, and the new cards are unselected
        while the old ones keep their flags `flags0`. */
    ghost predicate Grown(before: seq<Card>, flags0: seq<bool>, paths0: seq<string>, numbers0: seq<int>,
                          paths: seq<string>, count: nat)
      reads this`cards, cards`index, cards`selected
    {
      Extended(before, paths0, numbers0, paths, count) && Flags() == flags0 + Falses(count)
    }

    /** The loop of the application's `open_file`: `create_card(paths[i], i)` for each path in
        turn, stopping at the first that fails to load, whose exception ends the loop. The
        footer keeps its cards and gains one new, unselected card per loaded path, numbered by
        its position in `paths`. */
    method CreateCards(paths: seq<string>, storage: Storage, imageExtensions: seq<string>, videoExtensions: seq<string>)
      returns (r: Outcome, count: nat)
      requires Valid()
      modifies this`cards
      ensures Valid()
      ensures count == LoadablePrefix(paths, storage, imageExtensions, videoExtensions)
      ensures r.Fail? <==> count < |paths|
      ensures r.Fail? ==> r.error == Load(paths[count], storage, imageExtensions, videoExtensions).error
      ensures Grown(old(cards), old(Flags()), old(Paths()), old(Numbers()), paths, count)
      ensures forall j :: 0 <= j < |cards| ==> cards[j] in old(cards) || fresh(cards[j])
      ensures old(Consistent(Flags(), indexSelected)) ==> Consistent(Flags(), indexSelected)
    {
      ghost var flags0 := Flags();
      r, count := CreateEach(paths, storage, imageExtensions, videoExtensions);
      assert Flags() == flags0 + Falses(count);
      if Consistent(flags0, indexSelected) {
        AppendManyKeepsConsistent(flags0, indexSelected, count);
      }
    }

    /** The loop of `CreateCards`, one `CreateNext` per round. */
    method CreateEach(paths: seq<string>, storage: Storage, imageExtensions: seq<string>, videoExtensions: seq<string>)
      returns (r: Outcome, count: nat)
      requires Valid()
      modifies this`cards
      ensures Valid()
      ensures count == LoadablePrefix(paths, storage, imageExtensions, videoExtensions)
      ensures r.Fail? <==> count < |paths|
      ensures r.Fail? ==> r.error == Load(paths[count], storage, imageExtensions, videoExtensions).error
      ensures Grown(old(cards), old(Flags()), old(Paths()), old(Numbers()), paths, count)
      ensures FreshAfter(old(cards), cards)
    {
      r := Pass;
      count := 0;
      while count < |paths|
        invariant Valid() && r == Pass && Grown(old(cards), old(Flags()), old(Paths()), old(Numbers()), paths, count)
        invariant count <= LoadablePrefix(paths, storage, imageExtensions, videoExtensions)
        invariant FreshAfter(old(cards), cards)
      {
        ghost var previous := cards;
        r := CreateNext(paths, count, storage, imageExtensions, videoExtensions, old(cards), old(Flags()), old(Paths()), old(Numbers()));
        if r.Fail? {
          break;
        }
        FreshAfterStep(old(cards), previous, cards[|cards| - 1]);
        count := count + 1;
      }
      LoadablePrefixStop(paths, storage, imageExtensions, videoExtensions, count);
    }

    /** One round of `CreateCards`: the card for `paths[count]`. */
    method CreateNext(paths: seq<string>, count: nat, storage: Storage, imageExtensions: seq<string>, videoExtensions: seq<string>,
                      ghost before: seq<Card>, ghost flags0: seq<bool>, ghost paths0: seq<string>, ghost numbers0: seq<int>)
      returns (r: Outcome)
      requires Valid() && count < |paths| && Grown(before, flags0, paths0, numbers0, paths, count)
      requires count <= LoadablePrefix(paths, storage, imageExtensions, videoExtensions)
      modifies this`cards
      ensures Valid()
      ensures r.Pass? <==> Load(paths[count], storage, imageExtensions, videoExtensions).Loaded?
      ensures r.Fail? ==> r.error == Load(paths[count], storage, imageExtensions, videoExtensions).error && cards == old(cards)
      ensures r.Pass? ==> Grown(before, flags0, paths0, numbers0, paths, count + 1)
      ensures r.Pass? ==> count + 1 <= LoadablePrefix(paths, storage, imageExtensions, videoExtensions)
      ensures r.Pass? ==> fresh(cards[|cards| - 1]) && cards == old(cards) + [cards[|cards| - 1]]
    {
      r := CreateCard(paths[count], Some(count), storage, imageExtensions, videoExtensions);
      if r.Pass? {
        LoadablePrefixStep(paths, storage, imageExtensions, videoExtensions, count);
        FalsesStep(flags0, count);
        TakeStep(paths0, paths, count);
        PositionsStep(numbers0, count);
      }
    }

    /** The footer holds the cards it held before, then one new card for `path`, numbered
        `number`, unselected, without output and not yet placed. */
    ghost predicate Appended(before: seq<Card>, flagsBefore: seq<bool>, pathsBefore: seq<string>,
                             numbersBefore: seq<int>, path: string, number: int)
      reads this`cards, cards`index, cards`selected, cards`output, cards`cell
    {
      var n := |before|;
      && |cards| == n + 1 && (forall k :: 0 <= k < n ==> cards[k] == before[k])
      && cards[n].path == path && cards[n].index == number
      && !cards[n].selected && cards[n].output == None && cards[n].cell == None
      && Flags() == flagsBefore + [false] && Paths() == pathsBefore + [path] && Numbers() == numbersBefore + [number]
    }

    method AppendCard(path: string, number: int, loading: Loading)
      requires Valid() && loading.Loaded? && loading.file.width > 0 && loading.file.height > 0
      modifies this`cards
      ensures Valid()
      ensures Appended(old(cards), old(Flags()), old(Paths()), old(Numbers()), path, number) && fresh(cards[|cards| - 1])
      ensures cards[|cards| - 1].source == loading.source && cards[|cards| - 1].file == loading.file
      ensures cards == old(cards) + [cards[|cards| - 1]]
    {
      var card := new Card(path, number, loading);
      assert FlagsOf(cards) == old(Flags()) && NumbersOf(cards) == old(Numbers());
      cards := cards + [card];
      assert Flags() == old(Flags()) + [false];
      assert Numbers() == old(Numbers()) + [number];
      assert Paths() == old(Paths()) + [path];
    }

    /** `select_card_by_index(index)`, on the cards' highlight flags (see `SelectFlags`); the
        chosen card is returned. */
    method SelectCardByIndex(index: nat) returns (status: SelectStatus, card: Card?)
      requires Valid()
      modifies this`indexSelected, cards`selected
      ensures Valid() && cards == old(cards)
      ensures var s := SelectFlags(old(Flags()), old(indexSelected), index);
        Flags() == s.flags && indexSelected == s.selected && status == s.status
      ensures Numbers() == old(Numbers())
      ensures status == Chosen ==> card == cards[index]
      ensures status != Chosen ==> card == null
    {
      if |cards| == 0 {
        return NoCards, null;
      }
      var cleared := ClearHighlight();
      if !cleared || index >= |cards| {
        return OutOfRange, null;
      }
      ToggleCard(index);
      Pick(index);
      return Chosen, cards[index];
    }

    /** Move the cursor to `index`. */
    method Pick(index: nat)
      modifies this`indexSelected
      ensures indexSelected == Some(index) && Flags() == old(Flags()) && Numbers() == old(Numbers())
    {
      indexSelected := Some(index);
    }

    /** The first step of `select_card_by_index`: take the highlight off the card under the
        cursor; a cursor past the end raises `IndexError` (`ok` is false) before anything
        changes. */
    method ClearHighlight() returns (ok: bool)
      requires Valid()
      modifies cards`selected
      ensures ok <==> indexSelected.None? || indexSelected.value < |cards|
      ensures Flags() == if ok && indexSelected.Some? then Flip(old(Flags()), indexSelected.value) else old(Flags())
      ensures Numbers() == old(Numbers())
    {
      if indexSelected.Some? {
        if indexSelected.value >= |cards| {
          return false;
        }
        ToggleCard(indexSelected.value);
      }
      ok := true;
    }

    /** `cards[k].toggle_border()`: only card `k` changes its highlight. */
    method ToggleCard(k: nat)
      requires Valid() && k < |cards|
      modifies cards`selected
      ensures Flags() == Flip(old(Flags()), k) && Numbers() == old(Numbers())
    {
      cards[k].ToggleBorder();
      assert forall j :: 0 <= j < |cards| && j != k ==> cards[j] != cards[k];
    }

    /** `update_card(card, index)`: put `card` at position `index` (`IndexError` outside the
        list). The card is either new to the footer or already at that position. */
    method UpdateCard(card: Card, index: nat) returns (ok: bool)
      requires Valid()
      requires card in cards ==> index < |cards| && cards[index] == card
      modifies this`cards
      ensures Valid()
      ensures ok <==> index < |old(cards)|
      ensures cards == if ok then old(cards)[index := card] else old(cards)
    {
      if index >= |cards| {
        return false;
      }
      cards := cards[index := card];
      ok := true;
    }

    /** Every card sits in the grid cell of its position, for the current width. */
    ghost predicate LaidOut()
      reads this`cards, this`width, cards`cell
    {
      forall k :: 0 <= k < |cards| ==> cards[k].cell == Some(GridCell(k, NumColumns(width)))
    }

    /** `update_grid`: place card `i` on row `i / columns`, column `i % columns`. */
    method UpdateGrid()
      requires Valid()
      modifies cards`cell
      ensures LaidOut()
      ensures Flags() == old(Flags()) && Numbers() == old(Numbers())
    {
      var columns := NumColumns(width);
      for i := 0 to |cards|
        invariant forall k :: 0 <= k < i ==> cards[k].cell == Some(GridCell(k, columns))
      {
        cards[i].cell := Some(GridCell(i, columns));
      }
    }

    /** `remove_card_by_index(index)`: take the card off the grid and out of the list, clear
        the cursor if it pointed at that card (and only then), renumber the remaining cards by
        position and lay them out again. `IndexError` outside the list changes nothing. */
    method RemoveCardByIndex(index: nat) returns (ok: bool)
      requires Valid()
      modifies this`cards, this`indexSelected, cards`index, cards`cell
      ensures Valid()
      ensures ok <==> index < |old(cards)|
      ensures !ok ==> cards == old(cards) && indexSelected == old(indexSelected)
      ensures !ok ==> forall k :: 0 <= k < |cards| ==> cards[k].index == old(cards[k].index) && cards[k].cell == old(cards[k].cell)
      ensures ok ==> cards == old(cards[..index] + cards[index + 1..])
      ensures ok ==> (Flags(), indexSelected) == RemoveFlags(old(Flags()), old(indexSelected), index)
      ensures ok ==> old(cards[index]).cell == None
      ensures ok ==> Numbers() == Positions(|cards|) && LaidOut()
    {
      if index >= |cards| {
        return false;
      }
      var gone := DetachCard(index);
      if |cards| > 0 {
        Renumber();
        UpdateGrid();
      }
      ok := true;
    }

    /** The first steps of `remove_card_by_index`: clear the card's cell, delete it from the
        list and clear the cursor if it pointed at it. */
    method DetachCard(index: nat) returns (gone: Card)
      requires Valid() && index < |cards|
      modifies this`cards, this`indexSelected, cards`cell
      ensures Valid() && gone == old(cards[index]) && gone !in cards && gone.cell == None
      ensures cards == old(cards[..index] + cards[index + 1..])
      ensures (Flags(), indexSelected) == RemoveFlags(old(Flags()), old(indexSelected), index)
    {
      gone := cards[index];
      gone.cell := None;
      var rest := cards[..index] + cards[index + 1..];
      assert forall k :: 0 <= k < |rest| ==> rest[k] != gone;
      cards := rest;
      if indexSelected == Some(index) {
        indexSelected := None;
      }
      assert Flags() == old(Flags())[..index] + old(Flags())[index + 1..];
    }

    /** The renumbering loop of `remove_card_by_index`: every card gets its position. */
    method Renumber()
      requires Valid()
      modifies cards`index
      ensures forall k :: 0 <= k < |cards| ==> cards[k].index == k
      ensures Flags() == old(Flags())
    {
      for i := 0 to |cards|
        invariant forall k :: 0 <= k < i ==> cards[k].index == k
      {
        cards[i].index := i;
      }
    }
  }
}
