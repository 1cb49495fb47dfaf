/**
 * The Atari front end's toolbar: a fixed row of navigation buttons, a URL
 * area and a throbber, laid out onto the shared AES object tree.
 *
 * The engine's availability predicates (browser_window_back_available, ...)
 * are an input record; "schedule a redraw of this rectangle" is recorded in a
 * ghost log.  The AES object indices come from the resource header, which is
 * not part of this model: the constants below are distinct stand-ins.
 */
module AtariToolbar {
  import opened Wrappers
  import opened AtariAes

  // Object indices in the TOOLBAR resource tree (stand-ins; the root is 0).
  const ROOT := 0
  const TOOLBAR_NAVIGATION_AREA := 1
  const TOOLBAR_BT_BACK := 2
  const TOOLBAR_BT_HOME := 3
  const TOOLBAR_BT_FORWARD := 4
  const TOOLBAR_BT_STOP := 5
  const TOOLBAR_BT_RELOAD := 6
  const TOOLBAR_URL_AREA := 7
  const TOOLBAR_THROBBER_AREA := 8
  const TREE_SIZE := 9

  const THROBBER_MIN_INDEX := 1
  const THROBBER_MAX_INDEX := 12
  const THROBBER_INACTIVE_INDEX := 13

  const TOOLBAR_URL_MARGIN_TOP := 2
  const TOOLBAR_URL_MARGIN_BOTTOM := 2

  /** Initial size of the URL text area and the height set_dimensions gives it. */
  const URL_INITIAL_WIDTH := 300
  const URL_RESIZE_HEIGHT := 20

  datatype ButtonState = ButtonOn | ButtonOff

  /** One toolbar button (s_tb_button); the click callback is identified by rscId. */
  datatype Button = Button(rscId: int, owner: Toolbar?, state: ButtonState, index: int, area: Grect)

  /** The static button table; the last entry (rscId 0) is the sentinel that ends it. */
  const TB_BUTTONS: seq<Button> := [
    Button(TOOLBAR_BT_BACK, null, ButtonOn, 0, Grect(0, 0, 0, 0)),
    Button(TOOLBAR_BT_HOME, null, ButtonOn, 0, Grect(0, 0, 0, 0)),
    Button(TOOLBAR_BT_FORWARD, null, ButtonOn, 0, Grect(0, 0, 0, 0)),
    Button(TOOLBAR_BT_STOP, null, ButtonOn, 0, Grect(0, 0, 0, 0)),
    Button(TOOLBAR_BT_RELOAD, null, ButtonOn, 0, Grect(0, 0, 0, 0)),
    Button(0, null, ButtonOn, 0, Grect(0, 0, 0, 0))
  ]

  /** Number of buttons before the sentinel of TB_BUTTONS. */
  const NUM_BUTTONS := 5

  datatype ToolbarStyle = ToolbarStyle(fontHeightPt: int, height: int, iconWidth: int, iconHeight: int,
                                       buttonHMargin: int, buttonVMargin: int)

  /** small, medium (the default), large and custom. */
  const TOOLBAR_STYLES: seq<ToolbarStyle> := [
    ToolbarStyle(9, 18, 16, 16, 0, 0),
    ToolbarStyle(14, 26, 24, 24, 1, 4),
    ToolbarStyle(18, 34, 64, 64, 2, 0),
    ToolbarStyle(18, 34, 64, 64, 2, 0)
  ]

  const DEFAULT_STYLE := 1

  /** What the engine says about the browser window the toolbar belongs to. */
  datatype Availability = Availability(back: bool, forward: bool, reload: bool, stop: bool)

  /** The buttons toolbar_update_buttons refreshes from the engine (HOME is not one of them). */
  predicate Refreshed(id: int)
  {
    id == TOOLBAR_BT_BACK || id == TOOLBAR_BT_FORWARD || id == TOOLBAR_BT_RELOAD || id == TOOLBAR_BT_STOP
  }

  /** The engine predicate that governs button `id`. */
  function Available(avail: Availability, id: int): bool
    requires Refreshed(id)
  {
    if id == TOOLBAR_BT_BACK then avail.back
    else if id == TOOLBAR_BT_FORWARD then avail.forward
    else if id == TOOLBAR_BT_RELOAD then avail.reload
    else avail.stop
  }

  /** Whether a call for `button` (0 or less meaning "all") refreshes the button with id `id`. */
  predicate Selects(button: int, id: int)
  {
    Refreshed(id) && (button == id || button <= 0)
  }

  /** One button after toolbar_update_buttons(button): a selected button is on iff its engine predicate holds. */
  function RefreshedButton(b: Button, button: int, avail: Availability): Button
  {
    if Selects(button, b.rscId)
    then b.(state := if Available(avail, b.rscId) then ButtonOn else ButtonOff)
    else b
  }

  /** The button row after toolbar_update_buttons(button), element by element. */
  function UpdatedButtons(bs: seq<Button>, button: int, avail: Availability): (r: seq<Button>)
    ensures |r| == |bs|
    ensures forall k :: 0 <= k < |bs| && Selects(button, bs[k].rscId) ==>
      r[k] == bs[k].(state := r[k].state) && (r[k].state == ButtonOn <==> Available(avail, bs[k].rscId))
    ensures forall k :: 0 <= k < |bs| && !Selects(button, bs[k].rscId) ==> r[k] == bs[k]
  {
    seq(|bs|, k requires 0 <= k < |bs| => RefreshedButton(bs[k], button, avail))
  }

  /** One refresh block applied to row `k`: when the call selects that button, it follows its engine predicate. */
  function RefreshRow(bs: seq<Button>, k: int, button: int, avail: Availability): seq<Button>
    requires 0 <= k < |bs|
  {
    bs[k := RefreshedButton(bs[k], button, avail)]
  }

  /** The blocks for BACK, FORWARD, RELOAD and STOP, in source order, together give UpdatedButtons. */
  lemma RefreshBlocksUpdate(bs: seq<Button>, button: int, avail: Availability)
    requires |bs| == NUM_BUTTONS
    requires bs[0].rscId == TOOLBAR_BT_BACK && bs[1].rscId == TOOLBAR_BT_HOME && bs[2].rscId == TOOLBAR_BT_FORWARD
    requires bs[3].rscId == TOOLBAR_BT_STOP && bs[4].rscId == TOOLBAR_BT_RELOAD
    ensures RefreshRow(RefreshRow(RefreshRow(RefreshRow(bs, 0, button, avail), 2, button, avail), 4, button, avail),
                       3, button, avail) == UpdatedButtons(bs, button, avail)
  {
    var r := RefreshRow(RefreshRow(RefreshRow(RefreshRow(bs, 0, button, avail), 2, button, avail), 4, button, avail),
                        3, button, avail);
    var u := UpdatedButtons(bs, button, avail);
    assert r[0] == u[0] && r[1] == u[1] && r[2] == u[2] && r[3] == u[3] && r[4] == u[4];
  }

  // ---------------------------------------------------------------------------
  // The throbber

  /** The throbber sub-record: its area, the frame shown, the last frame, and whether it runs. */
  datatype Throbber = Throbber(area: Grect, index: int, maxIndex: int, running: bool)

  /** Running frames are 1..12; a stopped throbber shows the inactive frame 13. */
  ghost predicate ThrobberOk(t: Throbber)
  {
    t.maxIndex == THROBBER_MAX_INDEX &&
    if t.running then THROBBER_MIN_INDEX <= t.index <= THROBBER_MAX_INDEX
    else t.index == THROBBER_INACTIVE_INDEX
  }

  /** The frame after `index`: one more, wrapping from the last frame back to the first. */
  function NextFrame(index: int): (r: int)
    ensures THROBBER_MIN_INDEX <= index ==> THROBBER_MIN_INDEX <= r <= THROBBER_MAX_INDEX
    ensures index == THROBBER_MAX_INDEX ==> r == THROBBER_MIN_INDEX
    ensures THROBBER_MIN_INDEX <= index < THROBBER_MAX_INDEX ==> r == index + 1
  {
    if index + 1 > THROBBER_MAX_INDEX then THROBBER_MIN_INDEX else index + 1
  }

  /** The frame shown after `n` progress ticks from `index`. */
  function FrameAfter(index: int, n: nat): int
  {
    if n == 0 then index else NextFrame(FrameAfter(index, n - 1))
  }

  /** Ticking walks the running frames cyclically. */
  lemma {:induction false} FrameAfterCycles(index: int, n: nat)
    requires THROBBER_MIN_INDEX <= index <= THROBBER_MAX_INDEX
    ensures FrameAfter(index, n) == (index - THROBBER_MIN_INDEX + n) % THROBBER_MAX_INDEX + THROBBER_MIN_INDEX
  {
    if n > 0 {
      FrameAfterCycles(index, n - 1);
    }
  }

  /** Twelve ticks bring a running throbber back to the frame it started on, never passing the inactive frame. */
  lemma ThrobberPeriod(index: int)
    requires THROBBER_MIN_INDEX <= index <= THROBBER_MAX_INDEX
    ensures FrameAfter(index, THROBBER_MAX_INDEX) == index
    ensures forall n: nat :: FrameAfter(index, n) != THROBBER_INACTIVE_INDEX
  {
    FrameAfterCycles(index, THROBBER_MAX_INDEX);
    forall n: nat ensures FrameAfter(index, n) != THROBBER_INACTIVE_INDEX {
      FrameAfterCycles(index, n);
    }
  }

  // ---------------------------------------------------------------------------
  // Layout of the AES tree

  /** The button ids are positive object indices of the tree and pairwise distinct. */
  ghost predicate ButtonIdsOk(bs: seq<Button>)
  {
    (forall k :: 0 <= k < |bs| ==> TOOLBAR_NAVIGATION_AREA < bs[k].rscId < TOOLBAR_URL_AREA) &&
    (forall k, l :: 0 <= k < l < |bs| ==> bs[k].rscId != bs[l].rscId)
  }

  /** The geometry part of toolbar_reflow: root area, throbber position, URL width. */
  function ReflowGeometry(t: seq<AesObject>, area: Grect): seq<AesObject>
    requires |t| == TREE_SIZE
  {
    var t1 := t[ROOT := t[ROOT].(x := area.x, y := area.y, width := area.w, height := area.h)];
    var thr := t1[TOOLBAR_THROBBER_AREA];
    var t2 := t1[TOOLBAR_THROBBER_AREA := thr.(x := Wrap16(area.w - thr.width))];
    var url := t2[TOOLBAR_URL_AREA];
    t2[TOOLBAR_URL_AREA := url.(width := Wrap16(area.w -
      (t2[TOOLBAR_NAVIGATION_AREA].width + t2[TOOLBAR_THROBBER_AREA].width + 1)))]
  }

  /** The button part of toolbar_reflow: each button's object takes or loses OS_DISABLED, in row order. */
  function ApplyButtonStates(t: seq<AesObject>, bs: seq<Button>): (r: seq<AesObject>)
    requires forall k :: 0 <= k < |bs| ==> 0 <= bs[k].rscId < |t|
    ensures |r| == |t|
    decreases |bs|
  {
    if bs == [] then t
    else
      var last := bs[|bs| - 1];
      var t' := ApplyButtonStates(t, bs[..|bs| - 1]);
      t'[last.rscId := t'[last.rscId].(state := WithDisabled(t'[last.rscId].state, last.state == ButtonOff))]
  }

  /** toolbar_reflow's effect on the toolbar tree. */
  function ReflowTree(t: seq<AesObject>, area: Grect, bs: seq<Button>): seq<AesObject>
    requires |t| == TREE_SIZE
    requires forall k :: 0 <= k < |bs| ==> 0 <= bs[k].rscId < TREE_SIZE
  {
    ApplyButtonStates(ReflowGeometry(t, area), bs)
  }

  /** toolbar_reflow's effect on the throbber form: the current frame is centred in the throbber area. */
  function PlaceThrobber(f: seq<AesObject>, g: seq<AesObject>, area: Grect, index: int): seq<AesObject>
    requires |g| == TREE_SIZE && 0 <= index < |f|
  {
    var o := f[index];
    var thr := g[TOOLBAR_THROBBER_AREA];
    f[index := o.(x := Wrap16(area.x + thr.x + Half(thr.width - o.width)),
                  y := Wrap16(area.y + Half(thr.height - o.height)))]
  }

  /** The object of the k-th button gets OS_DISABLED iff that button is off; no other flag changes. */
  lemma {:induction false} ApplyButtonStatesHit(t: seq<AesObject>, bs: seq<Button>, k: int)
    requires ButtonIdsOk(bs) && |t| == TREE_SIZE && 0 <= k < |bs|
    ensures ApplyButtonStates(t, bs)[bs[k].rscId] ==
      t[bs[k].rscId].(state := WithDisabled(t[bs[k].rscId].state, bs[k].state == ButtonOff))
    decreases |bs|
  {
    var n := |bs| - 1;
    if k < n {
      ApplyButtonStatesHit(t, bs[..n], k);
    } else {
      ApplyButtonStatesMiss(t, bs[..n], bs[k].rscId);
    }
  }

  /** Objects that belong to no button keep their record. */
  lemma {:induction false} ApplyButtonStatesMiss(t: seq<AesObject>, bs: seq<Button>, j: int)
    requires ButtonIdsOk(bs) && |t| == TREE_SIZE && 0 <= j < |t|
    requires forall k :: 0 <= k < |bs| ==> bs[k].rscId != j
    ensures ApplyButtonStates(t, bs)[j] == t[j]
    decreases |bs|
  {
    if bs != [] {
      ApplyButtonStatesMiss(t, bs[..|bs| - 1], j);
    }
  }

  /** Applying button states changes only ob_state flags, never a position or a size. */
  lemma {:induction false} ApplyButtonStatesKeepsGeometry(t: seq<AesObject>, bs: seq<Button>, j: int)
    requires forall k :: 0 <= k < |bs| ==> 0 <= bs[k].rscId < |t|
    requires 0 <= j < |t|
    ensures ApplyButtonStates(t, bs)[j] == t[j].(state := ApplyButtonStates(t, bs)[j].state)
    decreases |bs|
  {
    if bs != [] {
      ApplyButtonStatesKeepsGeometry(t, bs[..|bs| - 1], j);
    }
  }

  /** toolbar_reflow puts the root at the toolbar's area, the throbber at the right edge, and gives the URL the rest. */
  lemma ReflowLayout(t: seq<AesObject>, area: Grect, bs: seq<Button>)
    requires |t| == TREE_SIZE && ButtonIdsOk(bs)
    ensures var r := ReflowTree(t, area, bs);
      && r[ROOT] == t[ROOT].(x := area.x, y := area.y, width := area.w, height := area.h)
      && r[TOOLBAR_THROBBER_AREA] == t[TOOLBAR_THROBBER_AREA].(x := Wrap16(area.w - t[TOOLBAR_THROBBER_AREA].width))
      && r[TOOLBAR_URL_AREA] == t[TOOLBAR_URL_AREA].(width := Wrap16(area.w -
           (t[TOOLBAR_NAVIGATION_AREA].width + t[TOOLBAR_THROBBER_AREA].width + 1)))
      && r[TOOLBAR_NAVIGATION_AREA] == t[TOOLBAR_NAVIGATION_AREA]
  {
    var g := ReflowGeometry(t, area);
    ApplyButtonStatesMiss(g, bs, ROOT);
    ApplyButtonStatesMiss(g, bs, TOOLBAR_THROBBER_AREA);
    ApplyButtonStatesMiss(g, bs, TOOLBAR_URL_AREA);
    ApplyButtonStatesMiss(g, bs, TOOLBAR_NAVIGATION_AREA);
  }

  /** After toolbar_reflow a button's object is disabled iff the button is off, every other flag and the geometry kept. */
  lemma ReflowButtonState(t: seq<AesObject>, area: Grect, bs: seq<Button>, k: int)
    requires |t| == TREE_SIZE && ButtonIdsOk(bs) && 0 <= k < |bs|
    ensures var o := ReflowTree(t, area, bs)[bs[k].rscId];
      && ((o.state & OS_DISABLED != 0) <==> bs[k].state == ButtonOff)
      && o.state & !OS_DISABLED == t[bs[k].rscId].state & !OS_DISABLED
      && o == t[bs[k].rscId].(state := o.state)
  {
    ApplyButtonStatesHit(ReflowGeometry(t, area), bs, k);
  }

  /** toolbar_reflow touches no object other than the root, the throbber area, the URL area and the buttons. */
  lemma ReflowUntouched(t: seq<AesObject>, area: Grect, bs: seq<Button>, j: int)
    requires |t| == TREE_SIZE && ButtonIdsOk(bs) && 0 <= j < TREE_SIZE
    requires j != ROOT && j != TOOLBAR_THROBBER_AREA && j != TOOLBAR_URL_AREA
    requires forall k :: 0 <= k < |bs| ==> bs[k].rscId != j
    ensures ReflowTree(t, area, bs)[j] == t[j]
  {
    ApplyButtonStatesMiss(ReflowGeometry(t, area), bs, j);
  }

  /** The throbber frame is centred: its left and right margins in the throbber area differ by at most one. */
  lemma ThrobberCentred(f: seq<AesObject>, g: seq<AesObject>, area: Grect, index: int)
    requires |g| == TREE_SIZE && 0 <= index < |f|
    requires var thr := g[TOOLBAR_THROBBER_AREA];
      -0x8000 <= area.x + thr.x + Half(thr.width - f[index].width) < 0x8000
    ensures var thr := g[TOOLBAR_THROBBER_AREA];
      var left := PlaceThrobber(f, g, area, index)[index].x - (area.x + thr.x);
      var right := thr.width - f[index].width - left;
      left <= right <= left + 1
  {
  }

  /** The concrete table: five buttons with distinct ids, BACK, HOME, FORWARD, STOP and RELOAD in that order. */
  lemma TableFacts()
    ensures |TB_BUTTONS| == NUM_BUTTONS + 1 && TB_BUTTONS[NUM_BUTTONS].rscId <= 0
    ensures forall k :: 0 <= k < NUM_BUTTONS ==> TB_BUTTONS[k].rscId > 0
    ensures ButtonIdsOk(TB_BUTTONS[..NUM_BUTTONS])
    ensures TB_BUTTONS[0].rscId == TOOLBAR_BT_BACK && TB_BUTTONS[1].rscId == TOOLBAR_BT_HOME
    ensures TB_BUTTONS[2].rscId == TOOLBAR_BT_FORWARD && TB_BUTTONS[3].rscId == TOOLBAR_BT_STOP
    ensures TB_BUTTONS[4].rscId == TOOLBAR_BT_RELOAD
  {
  }

  /** The number of table entries before the first one whose rscId is not positive. */
  method CountButtons(table: seq<Button>) returns (n: int)
    requires exists s :: 0 <= s < |table| && table[s].rscId <= 0
    ensures 0 <= n < |table| && table[n].rscId <= 0
    ensures forall k :: 0 <= k < n ==> table[k].rscId > 0
  {
    ghost var s :| 0 <= s < |table| && table[s].rscId <= 0;
    n := 0;
    while table[n].rscId > 0
      invariant 0 <= n <= s
      invariant forall k :: 0 <= k < n ==> table[k].rscId > 0
      decreases s - n
    {
      n := n + 1;
    }
  }

  // ---------------------------------------------------------------------------
  // Redraw requests of the URL text area

  /**
   * A rectangle the URL text area reports through its redraw callback, in
   * `int` coordinates relative to the field.  The text area itself is not part
   * of this model, so the rectangles it reports are inputs.
   */
  datatype TextDirty = TextDirty(x: int, y: int, w: int, h: int)

  /** The rectangle tb_txt_request_redraw schedules: the URL area moved by the report, with the report's size. */
  function TextRedrawRect(tree: seq<AesObject>, d: TextDirty): Grect
    requires WellFormed(tree) && TOOLBAR_URL_AREA < |tree|
  {
    var u := ObjectRect(tree, TOOLBAR_URL_AREA);
    Grect(Wrap16(u.x + d.x), Wrap16(u.y + d.y), Wrap16(d.w), Wrap16(d.h))
  }

  /** The rectangles scheduled for a series of reports, in order. */
  function TextRedrawRects(tree: seq<AesObject>, ds: seq<TextDirty>): seq<Grect>
    requires WellFormed(tree) && TOOLBAR_URL_AREA < |tree|
  {
    seq(|ds|, i requires 0 <= i < |ds| => TextRedrawRect(tree, ds[i]))
  }

  /** A report that lies within the field, on a URL area clear of 16-bit overflow, schedules a part of the URL area. */
  lemma TextRedrawInsideUrlArea(tree: seq<AesObject>, d: TextDirty)
    requires WellFormed(tree) && TOOLBAR_URL_AREA < |tree|
    requires 0 <= d.x && 0 <= d.y && 0 <= d.w && 0 <= d.h
    requires d.x + d.w <= tree[TOOLBAR_URL_AREA].width && d.y + d.h <= tree[TOOLBAR_URL_AREA].height
    requires ObjectRect(tree, TOOLBAR_URL_AREA).x + tree[TOOLBAR_URL_AREA].width < 0x8000
    requires ObjectRect(tree, TOOLBAR_URL_AREA).y + tree[TOOLBAR_URL_AREA].height < 0x8000
    ensures var r := TextRedrawRect(tree, d); var u := ObjectRect(tree, TOOLBAR_URL_AREA);
      && u.x <= r.x && r.x + r.w <= u.x + u.w
      && u.y <= r.y && r.y + r.h <= u.y + u.h
  {
    var u := ObjectRect(tree, TOOLBAR_URL_AREA);
    assert -0x8000 <= u.x + d.x < 0x8000 && -0x8000 <= u.y + d.y < 0x8000;
  }

  // ---------------------------------------------------------------------------
  // The toolbar object

  /** s_toolbar: one per browser root window; the AES trees are shared globals. */
  class Toolbar {
    const owner: int
    const style: int
    const btcnt: int
    const buttons: array<Button>
    /** the global aes_toolbar tree */
    const aes: array<AesObject>
    /** the global throbber_form tree, one object per frame */
    const throbberForm: array<AesObject>

    var area: Grect
    var throbber: Throbber
    var reflow: bool
    var attached: bool
    /** dimensions last given to the URL text area */
    var urlWidth: int
    var urlHeight: int
    /** every rectangle passed to window_schedule_redraw_grect, oldest first */
    ghost var redraws: seq<Grect>

    ghost predicate Valid()
      reads this, buttons, aes, throbberForm
    {
      && btcnt == buttons.Length == NUM_BUTTONS
      && (forall k :: 0 <= k < btcnt ==> buttons[k].rscId == TB_BUTTONS[k].rscId)
      && aes.Length == TREE_SIZE && WellFormed(aes[..])
      && throbberForm.Length > THROBBER_INACTIVE_INDEX
      && aes != throbberForm
      && style == DEFAULT_STYLE
      && ThrobberOk(throbber)
    }

    lemma IdsOk()
      requires Valid()
      ensures ButtonIdsOk(buttons[..])
      ensures buttons[0].rscId == TOOLBAR_BT_BACK && buttons[1].rscId == TOOLBAR_BT_HOME
      ensures buttons[2].rscId == TOOLBAR_BT_FORWARD && buttons[3].rscId == TOOLBAR_BT_STOP
      ensures buttons[4].rscId == TOOLBAR_BT_RELOAD
    {
      TableFacts();
    }

    /** toolbar_create: count the table, copy each entry in, and start with a stopped throbber. */
    constructor (owner: int, aes: array<AesObject>, throbberForm: array<AesObject>)
      requires aes.Length == TREE_SIZE && WellFormed(aes[..])
      requires throbberForm.Length > THROBBER_INACTIVE_INDEX && aes != throbberForm
      ensures Valid() && fresh(buttons)
      ensures this.owner == owner && this.aes == aes && this.throbberForm == throbberForm
      ensures btcnt == NUM_BUTTONS
      ensures forall k :: 0 <= k < btcnt ==>
        buttons[k] == TB_BUTTONS[k].(owner := this, area := TB_BUTTONS[k].area.(w := 32))
      ensures area == Grect(0, 0, 0, 26)
      ensures throbber == Throbber(Grect(0, 0, 32, 26), THROBBER_INACTIVE_INDEX, THROBBER_MAX_INDEX, false)
      ensures !reflow && !attached
      ensures urlWidth == URL_INITIAL_WIDTH && urlHeight == 22
      ensures redraws == []
    {
      TableFacts();
      this.owner := owner;
      this.aes := aes;
      this.throbberForm := throbberForm;
      style := DEFAULT_STYLE;
      var st := TOOLBAR_STYLES[DEFAULT_STYLE];
      var n := CountButtons(TB_BUTTONS);
      assert n == NUM_BUTTONS;
      btcnt := n;
      buttons := new Button[n];
      new;
      var i := 0;
      while i < n
        invariant 0 <= i <= n
        invariant forall k :: 0 <= k < i ==>
          buttons[k] == TB_BUTTONS[k].(owner := this, area := TB_BUTTONS[k].area.(w := 32))
      {
        ButtonInit(i);
        i := i + 1;
      }
      area := Grect(0, 0, 0, Wrap16(st.height));
      urlWidth := URL_INITIAL_WIDTH;
      urlHeight := st.height - (TOOLBAR_URL_MARGIN_TOP + TOOLBAR_URL_MARGIN_BOTTOM);
      throbber := Throbber(Grect(0, 0, Wrap16(st.iconWidth + 2 * st.buttonVMargin), Wrap16(st.height)),
                           THROBBER_INACTIVE_INDEX, THROBBER_MAX_INDEX, false);
      reflow := false;
      attached := false;
      redraws := [];
    }

    /** button_init: entry `index` of the table, owned by this toolbar, as wide as an icon plus its margins. */
    method ButtonInit(index: int)
      requires 0 <= index < buttons.Length && index < |TB_BUTTONS| && 0 <= style < |TOOLBAR_STYLES|
      modifies buttons
      ensures buttons[index] == TB_BUTTONS[index].(owner := this, area := TB_BUTTONS[index].area.(
        w := Wrap16(TOOLBAR_STYLES[style].iconWidth + TOOLBAR_STYLES[style].buttonVMargin * 2)))
      ensures forall k :: 0 <= k < buttons.Length && k != index ==> buttons[k] == old(buttons[k])
    {
      var b := TB_BUTTONS[index];
      b := b.(owner := this);
      b := b.(area := b.area.(w := Wrap16(TOOLBAR_STYLES[style].iconWidth + TOOLBAR_STYLES[style].buttonVMargin * 2)));
      buttons[index] := b;
    }

    /** find_button: the first of the btcnt buttons with id `rscId`, or -1 (NULL) when none has it. */
    method FindButton(rscId: int) returns (i: int)
      requires 0 <= btcnt <= buttons.Length
      ensures -1 <= i < btcnt
      ensures i == -1 <==> forall k :: 0 <= k < btcnt ==> buttons[k].rscId != rscId
      ensures 0 <= i ==> buttons[i].rscId == rscId && forall k :: 0 <= k < i ==> buttons[k].rscId != rscId
    {
      i := 0;
      while i < btcnt
        invariant 0 <= i <= btcnt
        invariant forall k :: 0 <= k < i ==> buttons[k].rscId != rscId
      {
        if buttons[i].rscId == rscId {
          return;
        }
        i := i + 1;
      }
      i := -1;
    }

    /** toolbar_reflow: lay the tree out for the current area, place the throbber frame, mirror button states. */
    method Reflow()
      requires Valid()
      modifies aes, throbberForm, this`reflow
      ensures Valid() && !reflow
      ensures aes[..] == ReflowTree(old(aes[..]), area, buttons[..])
      ensures throbberForm[..] ==
        PlaceThrobber(old(throbberForm[..]), ReflowGeometry(old(aes[..]), area), area, throbber.index)
    {
      IdsOk();
      ghost var t0 := aes[..];
      LayOutAreas();
      ghost var g := aes[..];
      PositionThrobberFrame();
      MirrorButtonStates();
      reflow := false;
      assert WellFormed(aes[..]) by {
        forall j | 0 <= j < TREE_SIZE ensures aes[..][j].parent == t0[j].parent {
          ApplyButtonStatesKeepsGeometry(g, buttons[..], j);
        }
      }
    }

    /** The first part of toolbar_reflow: root, throbber area and URL area geometry. */
    method LayOutAreas()
      requires aes.Length == TREE_SIZE
      modifies aes
      ensures aes[..] == ReflowGeometry(old(aes[..]), area)
    {
      var root := aes[ROOT];
      aes[ROOT] := root.(x := area.x, y := area.y, width := area.w, height := area.h);
      var thr := aes[TOOLBAR_THROBBER_AREA];
      aes[TOOLBAR_THROBBER_AREA] := thr.(x := Wrap16(area.w - thr.width));
      var url := aes[TOOLBAR_URL_AREA];
      aes[TOOLBAR_URL_AREA] := url.(width := Wrap16(area.w -
        (aes[TOOLBAR_NAVIGATION_AREA].width + aes[TOOLBAR_THROBBER_AREA].width + 1)));
    }

    /** The second part of toolbar_reflow: centre the current throbber frame in the throbber area. */
    method PositionThrobberFrame()
      requires aes.Length == TREE_SIZE && 0 <= throbber.index < throbberForm.Length && aes != throbberForm
      modifies throbberForm
      ensures throbberForm[..] == PlaceThrobber(old(throbberForm[..]), aes[..], area, throbber.index)
    {
      var idx := throbber.index;
      var thr := aes[TOOLBAR_THROBBER_AREA];
      var frame := throbberForm[idx];
      throbberForm[idx] := frame.(x := Wrap16(area.x + thr.x));
      frame := throbberForm[idx];
      throbberForm[idx] := frame.(x := Wrap16(area.x + thr.x + Half(thr.width - frame.width)));
      frame := throbberForm[idx];
      throbberForm[idx] := frame.(y := Wrap16(area.y + Half(thr.height - frame.height)));
    }

    /** One pass of the loop at the end of toolbar_reflow: OS_DISABLED on button i's object follows its state. */
    method MirrorButton(i: int)
      requires aes.Length == TREE_SIZE && 0 <= i < buttons.Length && 0 <= buttons[i].rscId < TREE_SIZE
      modifies aes
      ensures var id := buttons[i].rscId; var o := old(aes[id]);
        aes[..] == old(aes[..])[id := o.(state := WithDisabled(o.state, buttons[i].state == ButtonOff))]
    {
      var b := buttons[i];
      var o := aes[b.rscId];
      ghost var before := aes[..];
      ghost var v := o.(state := WithDisabled(o.state, b.state == ButtonOff));
      if b.state == ButtonOff {
        assert v.state == o.state | OS_DISABLED;
        aes[b.rscId] := o.(state := o.state | OS_DISABLED);
        assert aes[b.rscId] == v;
      } else if b.state == ButtonOn {
        assert v.state == o.state & !OS_DISABLED;
        aes[b.rscId] := o.(state := o.state & !OS_DISABLED);
        assert aes[b.rscId] == v;
      }
      assert forall k :: 0 <= k < aes.Length && k != b.rscId ==> aes[k] == before[k];
    }

    /** The last part of toolbar_reflow: OS_DISABLED on each button's object follows the button's state. */
    method MirrorButtonStates()
      requires aes.Length == TREE_SIZE && btcnt == buttons.Length && ButtonIdsOk(buttons[..])
      modifies aes
      ensures aes[..] == ApplyButtonStates(old(aes[..]), buttons[..])
    {
      ghost var g := aes[..];
      var i := 0;
      while i < btcnt
        invariant 0 <= i <= btcnt
        invariant aes[..] == ApplyButtonStates(g, buttons[..i])
      {
        var b := buttons[i];
        assert buttons[..i + 1][..i] == buttons[..i];
        assert buttons[..i + 1][i] == b;
        ghost var before := aes[..];
        assert before[b.rscId := before[b.rscId].(state := WithDisabled(before[b.rscId].state, b.state == ButtonOff))]
          == ApplyButtonStates(g, buttons[..i + 1]);
        MirrorButton(i);
        i := i + 1;
      }
      assert buttons[..btcnt] == buttons[..];
    }

    /** toolbar_get_grect: reflow if one is pending, then report object `which`'s absolute rectangle. */
    method GetGrect(which: int) returns (r: Grect)
      requires Valid() && 0 <= which < TREE_SIZE
      modifies aes, throbberForm, this`reflow
      ensures Valid() && !reflow
      ensures old(reflow) ==> (aes[..] == ReflowTree(old(aes[..]), area, buttons[..]) && throbberForm[..] ==
        PlaceThrobber(old(throbberForm[..]), ReflowGeometry(old(aes[..]), area), area, throbber.index))
      ensures !old(reflow) ==> aes[..] == old(aes[..]) && throbberForm[..] == old(throbberForm[..])
      ensures r == ObjectRect(aes[..], which)
    {
      if reflow {
        Reflow();
      }
      var (x, y) := ObjcOffset(aes[..], which);
      r := Grect(x, y, aes[which].width, aes[which].height);
    }

    /** toolbar_get_grect followed by window_schedule_redraw_grect on the owner. */
    method ScheduleRedraw(which: int)
      requires Valid() && 0 <= which < TREE_SIZE
      modifies aes, throbberForm, this`reflow, this`redraws
      ensures Valid() && !reflow
      ensures old(reflow) ==> (aes[..] == ReflowTree(old(aes[..]), area, buttons[..]) && throbberForm[..] ==
        PlaceThrobber(old(throbberForm[..]), ReflowGeometry(old(aes[..]), area), area, throbber.index))
      ensures !old(reflow) ==> aes[..] == old(aes[..]) && throbberForm[..] == old(throbberForm[..])
      ensures redraws == old(redraws) + [ObjectRect(aes[..], which)]
    {
      var r := GetGrect(which);
      redraws := redraws + [r];
    }

    /** One block of toolbar_update_buttons: find the button with id `id` (at row `k`) and switch it on iff `enable`. */
    method RefreshButton(id: int, ghost k: int, enable: bool)
      requires Valid() && 0 <= k < btcnt && buttons[k].rscId == id
      modifies buttons
      ensures Valid()
      ensures buttons[..] == old(buttons[..])[k := old(buttons[k]).(state := if enable then ButtonOn else ButtonOff)]
    {
      IdsOk();
      var i := FindButton(id);
      assert i == k;
      buttons[i] := buttons[i].(state := if enable then ButtonOn else ButtonOff);
    }

    /** One `if (button == id || button <= 0)` block of toolbar_update_buttons, for the button at row `k`. */
    method RefreshBlock(button: int, id: int, ghost k: int, avail: Availability)
      requires Valid() && 0 <= k < btcnt && buttons[k].rscId == id && Refreshed(id)
      modifies buttons
      ensures Valid()
      ensures buttons[..] == RefreshRow(old(buttons[..]), k, button, avail)
    {
      if button == id || button <= 0 {
        RefreshButton(id, k, Available(avail, id));
      }
    }

    /** The four refresh blocks of toolbar_update_buttons, in the order BACK, (HOME), FORWARD, RELOAD, STOP. */
    method RefreshAll(button: int, avail: Availability)
      requires Valid()
      modifies buttons
      ensures Valid()
      ensures buttons[..] == UpdatedButtons(old(buttons[..]), button, avail)
    {
      IdsOk();
      ghost var b0 := buttons[..];
      RefreshBlock(button, TOOLBAR_BT_BACK, 0, avail);
      // HOME is listed but nothing is refreshed for it.
      RefreshBlock(button, TOOLBAR_BT_FORWARD, 2, avail);
      RefreshBlock(button, TOOLBAR_BT_RELOAD, 4, avail);
      RefreshBlock(button, TOOLBAR_BT_STOP, 3, avail);
      RefreshBlocksUpdate(b0, button, avail);
    }

    /** toolbar_update_buttons: copy the engine's availability into BACK, FORWARD, RELOAD and STOP (all or one). */
    method UpdateButtons(button: int, avail: Availability)
      requires Valid() && button < TREE_SIZE
      modifies buttons, aes, throbberForm, this`reflow, this`redraws
      ensures Valid()
      ensures buttons[..] == UpdatedButtons(old(buttons[..]), button, avail)
      ensures attached ==> (!reflow && redraws == old(redraws) +
        [ObjectRect(aes[..], if button > 0 then button else TOOLBAR_NAVIGATION_AREA)])
      ensures attached && old(reflow) ==> (aes[..] == ReflowTree(old(aes[..]), area, buttons[..]) &&
        throbberForm[..] ==
          PlaceThrobber(old(throbberForm[..]), ReflowGeometry(old(aes[..]), area), area, throbber.index))
      ensures !(attached && old(reflow)) ==> aes[..] == old(aes[..]) && throbberForm[..] == old(throbberForm[..])
      ensures !attached ==> reflow == old(reflow) && redraws == old(redraws)
    {
      RefreshAll(button, avail);
      if attached {
        if button > 0 {
          ScheduleRedraw(button);
        } else {
          ScheduleRedraw(TOOLBAR_NAVIGATION_AREA);
        }
      }
    }

    /** tb_txt_request_redraw: while attached, schedule a redraw of the reported part of the URL area. */
    method TextRequestRedraw(d: TextDirty)
      requires Valid()
      modifies aes, throbberForm, this`reflow, this`redraws
      ensures Valid()
      ensures !attached ==>
        && reflow == old(reflow) && redraws == old(redraws)
        && aes[..] == old(aes[..]) && throbberForm[..] == old(throbberForm[..])
      ensures attached ==> !reflow && redraws == old(redraws) + [TextRedrawRect(aes[..], d)]
      ensures attached && old(reflow) ==>
        && aes[..] == ReflowTree(old(aes[..]), area, buttons[..])
        && throbberForm[..] == PlaceThrobber(old(throbberForm[..]), ReflowGeometry(old(aes[..]), area), area, throbber.index)
      ensures !old(reflow) ==> aes[..] == old(aes[..]) && throbberForm[..] == old(throbberForm[..])
    {
      if !attached {
        return;
      }
      var u := GetGrect(TOOLBAR_URL_AREA);
      redraws := redraws + [Grect(Wrap16(u.x + d.x), Wrap16(u.y + d.y), Wrap16(d.w), Wrap16(d.h))];
    }

    /** The redraw requests the URL text area makes through tb_txt_request_redraw, one per reported rectangle. */
    method TextResizeRedraws(dirty: seq<TextDirty>)
      requires Valid() && !reflow
      modifies aes, throbberForm, this`reflow, this`redraws
      ensures Valid() && !reflow && aes[..] == old(aes[..]) && throbberForm[..] == old(throbberForm[..])
      ensures redraws == old(redraws) + if attached then TextRedrawRects(aes[..], dirty) else []
    {
      var i := 0;
      while i < |dirty|
        invariant 0 <= i <= |dirty|
        invariant Valid() && !reflow
        invariant aes[..] == old(aes[..]) && throbberForm[..] == old(throbberForm[..])
        invariant redraws == old(redraws) + if attached then TextRedrawRects(aes[..], dirty[..i]) else []
      {
        TextRequestRedraw(dirty[i]);
        assert dirty[..i + 1] == dirty[..i] + [dirty[i]];
        i := i + 1;
      }
      assert dirty[..i] == dirty;
    }

    /** The size-changed branch of toolbar_set_dimensions: store the area, reflow, then resize the URL field. */
    method Resize(a: Grect, dirty: seq<TextDirty>)
      requires Valid()
      modifies this`area, aes, throbberForm, this`reflow, this`urlWidth, this`urlHeight, this`redraws
      ensures Valid() && area == a && !reflow
      ensures aes[..] == ReflowTree(old(aes[..]), a, buttons[..])
      ensures throbberForm[..] == PlaceThrobber(old(throbberForm[..]), ReflowGeometry(old(aes[..]), a), a, throbber.index)
      ensures urlWidth == aes[TOOLBAR_URL_AREA].width && urlHeight == URL_RESIZE_HEIGHT
      ensures redraws == old(redraws) + if attached then TextRedrawRects(aes[..], dirty) else []
    {
      area := a;
      Reflow();
      urlWidth, urlHeight := aes[TOOLBAR_URL_AREA].width, URL_RESIZE_HEIGHT;
      TextResizeRedraws(dirty);
    }

    /**
     * toolbar_set_dimensions: store the new area; reflow and resize the URL
     * field now only if the size changed.  The resize makes the text area
     * report the rectangles `dirty`, each of which goes through
     * tb_txt_request_redraw.
     */
    method SetDimensions(a: Grect, dirty: seq<TextDirty>)
      requires Valid()
      modifies this`area, aes, throbberForm, this`reflow, this`urlWidth, this`urlHeight, this`redraws
      ensures Valid() && area == a && reflow
      ensures (a.w != old(area.w) || a.h != old(area.h)) && attached ==>
        redraws == old(redraws) + TextRedrawRects(aes[..], dirty)
      ensures !((a.w != old(area.w) || a.h != old(area.h)) && attached) ==> redraws == old(redraws)
      ensures (a.w != old(area.w) || a.h != old(area.h)) ==>
        && aes[..] == ReflowTree(old(aes[..]), a, buttons[..])
        && throbberForm[..] == PlaceThrobber(old(throbberForm[..]), ReflowGeometry(old(aes[..]), a), a, throbber.index)
        && urlWidth == aes[TOOLBAR_URL_AREA].width && urlHeight == URL_RESIZE_HEIGHT
      ensures !(a.w != old(area.w) || a.h != old(area.h)) ==>
        && aes[..] == old(aes[..]) && throbberForm[..] == old(throbberForm[..])
        && urlWidth == old(urlWidth) && urlHeight == old(urlHeight)
    {
      if a.w != area.w || a.h != area.h {
        Resize(a, dirty);
      } else {
        area := a;
      }
      reflow := true;
    }

    /** toolbar_set_throbber_state: start at the first frame or stop on the inactive one, then redraw the throbber. */
    method SetThrobberState(active: bool)
      requires Valid()
      modifies this`throbber, aes, throbberForm, this`reflow, this`redraws
      ensures Valid()
      ensures throbber == old(throbber).(running := active,
        index := if active then THROBBER_MIN_INDEX else THROBBER_INACTIVE_INDEX)
      ensures !reflow
      ensures aes[..] == ReflowTree(old(aes[..]), area, buttons[..])
      ensures throbberForm[..] ==
        PlaceThrobber(old(throbberForm[..]), ReflowGeometry(old(aes[..]), area), area, throbber.index)
      ensures redraws == old(redraws) + [ObjectRect(aes[..], TOOLBAR_THROBBER_AREA)]
    {
      throbber := throbber.(running := active);
      if active {
        throbber := throbber.(index := THROBBER_MIN_INDEX);
      } else {
        throbber := throbber.(index := THROBBER_INACTIVE_INDEX);
      }
      reflow := true;
      ScheduleRedraw(TOOLBAR_THROBBER_AREA);
    }

    /** toolbar_set_attached. */
    method SetAttached(attached: bool)
      modifies this`attached
      ensures this.attached == attached
    {
      this.attached := attached;
    }

    /** toolbar_throbber_progress: advance a running throbber by one frame and redraw it; a stopped one is left alone. */
    method ThrobberProgress()
      requires Valid()
      modifies this`throbber, aes, throbberForm, this`reflow, this`redraws
      ensures Valid()
      ensures !old(throbber.running) ==>
        && throbber == old(throbber) && reflow == old(reflow) && redraws == old(redraws)
        && aes[..] == old(aes[..]) && throbberForm[..] == old(throbberForm[..])
      ensures old(throbber.running) ==>
        && throbber == old(throbber).(index := NextFrame(old(throbber.index)))
        && THROBBER_MIN_INDEX <= throbber.index <= THROBBER_MAX_INDEX
        && !reflow
        && aes[..] == ReflowTree(old(aes[..]), area, buttons[..])
        && throbberForm[..] ==
          PlaceThrobber(old(throbberForm[..]), ReflowGeometry(old(aes[..]), area), area, throbber.index)
        && redraws == old(redraws) + [ObjectRect(aes[..], TOOLBAR_THROBBER_AREA)]
    {
      if !throbber.running {
        return;
      }
      throbber := throbber.(index := throbber.index + 1);
      if throbber.index > THROBBER_MAX_INDEX {
        throbber := throbber.(index := THROBBER_MIN_INDEX);
      }
      reflow := true;
      ScheduleRedraw(TOOLBAR_THROBBER_AREA);
    }

    /**
     * The button branch of toolbar_mouse_input: clicking object `obj` runs the
     * click callback of the button with that id, if there is one and it is not
     * off, and then refreshes every button from `avail`, the engine's answers
     * after the callback.  Returns the id of the button whose callback ran.
     */
    method MouseInputButton(obj: int, avail: Availability) returns (clicked: Option<int>)
      requires Valid() && obj != TOOLBAR_URL_AREA
      modifies buttons, aes, throbberForm, this`reflow, this`redraws
      ensures Valid()
      ensures clicked.Some? <==> exists k :: 0 <= k < btcnt && old(buttons[k]).rscId == obj && old(buttons[k]).state != ButtonOff
      ensures clicked.Some? ==> clicked.value == obj && buttons[..] == UpdatedButtons(old(buttons[..]), 0, avail)
      ensures clicked.Some? && attached ==>
        && !reflow && redraws == old(redraws) + [ObjectRect(aes[..], TOOLBAR_NAVIGATION_AREA)]
      ensures clicked.Some? && attached && old(reflow) ==>
        && aes[..] == ReflowTree(old(aes[..]), area, buttons[..])
        && throbberForm[..] ==
             PlaceThrobber(old(throbberForm[..]), ReflowGeometry(old(aes[..]), area), area, throbber.index)
      ensures clicked.Some? && !(attached && old(reflow)) ==>
        aes[..] == old(aes[..]) && throbberForm[..] == old(throbberForm[..])
      ensures clicked.Some? && !attached ==> reflow == old(reflow) && redraws == old(redraws)
      ensures clicked.None? ==>
        && buttons[..] == old(buttons[..]) && reflow == old(reflow) && redraws == old(redraws)
        && aes[..] == old(aes[..]) && throbberForm[..] == old(throbberForm[..])
    {
      IdsOk();
      var i := FindButton(obj);
      if i != -1 && buttons[i].state != ButtonOff {
        clicked := Some(buttons[i].rscId);
        UpdateButtons(0, avail);
      } else {
        clicked := None;
        assert forall k :: 0 <= k < btcnt && buttons[k].rscId == obj ==> k == i;
      }
    }
  }
}
