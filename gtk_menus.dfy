/**
 * The value side of the GTK scaffolding's menu bookkeeping: the per-command
 * sensitivity table and how it is pushed onto widgets, the popup menu's
 * visibility groups, the edit-action rule and the window-title rule.
 *
 * A GTK widget is identified by an integer id; "the widget is sensitive" and
 * "the widget is visible" are entries of maps from ids to booleans.  The
 * command indices come from the toolbar item header, which is not part of
 * this model: the constants below are distinct stand-ins.
 */
module GtkMenus {
  import opened Wrappers

  type WidgetId = int

  /** nsgtk_menu: up to three surfaces showing one command, and the command's sensitivity. */
  datatype MenuEntry = MenuEntry(main: Option<WidgetId>, rclick: Option<WidgetId>, popup: Option<WidgetId>,
                                 sensitivity: bool)

  // Command indices into the menus[] table (stand-ins; BACK_BUTTON is the first).
  const BACK_BUTTON := 0
  const FORWARD_BUTTON := 2
  const STOP_BUTTON := 3
  const RELOAD_BUTTON := 4
  const CLOSETAB_BUTTON := 12
  const CUT_BUTTON := 20
  const COPY_BUTTON := 21
  const PASTE_BUTTON := 22
  const NEXTTAB_BUTTON := 40
  const PREVTAB_BUTTON := 41
  /** One past the last command: the size of menus[]. */
  const PLACEHOLDER_BUTTON := 60

  /** The commands nsgtk_scaffolding_set_sensitivity pushes, in the order it pushes them. */
  const SENSITIVITY_CMDS: seq<int> := [STOP_BUTTON, RELOAD_BUTTON, CUT_BUTTON, COPY_BUTTON, PASTE_BUTTON,
                                       BACK_BUTTON, FORWARD_BUTTON, NEXTTAB_BUTTON, PREVTAB_BUTTON,
                                       CLOSETAB_BUTTON]

  /** Every command, in the order nsgtk_menu_set_sensitivity visits them. */
  function AllCommands(): (r: seq<int>)
    ensures |r| == PLACEHOLDER_BUTTON - BACK_BUTTON
    ensures forall k :: 0 <= k < |r| ==> r[k] == BACK_BUTTON + k
  {
    seq(PLACEHOLDER_BUTTON - BACK_BUTTON, k => BACK_BUTTON + k)
  }

  /** Every command index in `cmds` names an entry of `m`. */
  predicate CommandsIn(cmds: seq<int>, m: seq<MenuEntry>)
  {
    forall k :: 0 <= k < |cmds| ==> 0 <= cmds[k] < |m|
  }

  // ---------------------------------------------------------------------------
  // Pushing sensitivity onto surfaces

  /** The surfaces of an entry that are not NULL. */
  function Surfaces(e: MenuEntry): set<WidgetId>
  {
    (if e.main.Some? then {e.main.value} else {}) +
    (if e.rclick.Some? then {e.rclick.value} else {}) +
    (if e.popup.Some? then {e.popup.value} else {})
  }

  /** No widget shows two different commands. */
  ghost predicate SurfacesDistinct(m: seq<MenuEntry>)
  {
    forall i, j :: 0 <= i < |m| && 0 <= j < |m| && i != j ==> Surfaces(m[i]) !! Surfaces(m[j])
  }

  /** gtk_widget_set_sensitive on `w` when it is not NULL. */
  function SetIfPresent(s: map<WidgetId, bool>, w: Option<WidgetId>, v: bool): map<WidgetId, bool>
  {
    if w.Some? then s[w.value := v] else s
  }

  /** One entry pushed: main, then rclick, then popup, each only when present. */
  function PushEntry(s: map<WidgetId, bool>, e: MenuEntry): (r: map<WidgetId, bool>)
    ensures forall w :: w in Surfaces(e) ==> w in r && r[w] == e.sensitivity
    ensures forall w :: w !in Surfaces(e) ==> (w in r <==> w in s) && (w in s ==> r[w] == s[w])
  {
    SetIfPresent(SetIfPresent(SetIfPresent(s, e.main, e.sensitivity), e.rclick, e.sensitivity),
                 e.popup, e.sensitivity)
  }

  /** The entries named by `cmds` pushed one after the other. */
  function PushCommands(s: map<WidgetId, bool>, m: seq<MenuEntry>, cmds: seq<int>): map<WidgetId, bool>
    requires CommandsIn(cmds, m)
  {
    if cmds == [] then s
    else PushEntry(PushCommands(s, m, cmds[..|cmds| - 1]), m[cmds[|cmds| - 1]])
  }

  /** Pushing one more command is one more PushEntry. */
  lemma PushCommandsSnoc(s: map<WidgetId, bool>, m: seq<MenuEntry>, cmds: seq<int>, i: int)
    requires CommandsIn(cmds, m) && 0 <= i < |cmds|
    ensures PushCommands(s, m, cmds[..i + 1]) == PushEntry(PushCommands(s, m, cmds[..i]), m[cmds[i]])
  {
    assert cmds[..i + 1][..i] == cmds[..i];
  }

  /** Every surface of a pushed command ends up showing that command's flag. */
  lemma {:induction false} PushCommandsHit(s: map<WidgetId, bool>, m: seq<MenuEntry>, cmds: seq<int>,
                                           k: int, w: WidgetId)
    requires CommandsIn(cmds, m) && SurfacesDistinct(m)
    requires 0 <= k < |cmds| && w in Surfaces(m[cmds[k]])
    ensures w in PushCommands(s, m, cmds) && PushCommands(s, m, cmds)[w] == m[cmds[k]].sensitivity
  {
    var n := |cmds| - 1;
    var last := m[cmds[n]];
    if k < n && cmds[k] != cmds[n] {
      PushCommandsHit(s, m, cmds[..n], k, w);
      assert w !in Surfaces(last);
    }
  }

  /** A widget that is no surface of a pushed command keeps its state (or its absence). */
  lemma {:induction false} PushCommandsMiss(s: map<WidgetId, bool>, m: seq<MenuEntry>, cmds: seq<int>,
                                            w: WidgetId)
    requires CommandsIn(cmds, m)
    requires forall k :: 0 <= k < |cmds| ==> w !in Surfaces(m[cmds[k]])
    ensures w in PushCommands(s, m, cmds) <==> w in s
    ensures w in s ==> PushCommands(s, m, cmds)[w] == s[w]
  {
    if cmds != [] {
      var n := |cmds| - 1;
      assert w !in Surfaces(m[cmds[n]]);
      PushCommandsMiss(s, m, cmds[..n], w);
    }
  }

  /** Pushing the same commands twice leaves every widget as pushing them once. */
  lemma PushCommandsIdempotent(s: map<WidgetId, bool>, m: seq<MenuEntry>, cmds: seq<int>)
    requires CommandsIn(cmds, m) && SurfacesDistinct(m)
    ensures PushCommands(PushCommands(s, m, cmds), m, cmds) == PushCommands(s, m, cmds)
  {
    var once := PushCommands(s, m, cmds);
    var twice := PushCommands(once, m, cmds);
    forall w | w in once || w in twice
      ensures w in once && w in twice && twice[w] == once[w]
    {
      if k :| 0 <= k < |cmds| && w in Surfaces(m[cmds[k]]) {
        PushCommandsHit(s, m, cmds, k, w);
        PushCommandsHit(once, m, cmds, k, w);
      } else {
        PushCommandsMiss(once, m, cmds, w);
      }
    }
  }

  // ---------------------------------------------------------------------------
  // Popup menu visibility groups

  /** The right-click popup menu's items (nsgtk_popup_menu), as widget ids. */
  datatype PopupMenu = PopupMenu(file: WidgetId, edit: WidgetId, view: WidgetId, nav: WidgetId, help: WidgetId,
                                 firstSeparator: WidgetId,
                                 back: WidgetId, forward: WidgetId, stop: WidgetId, reload: WidgetId,
                                 cut: WidgetId, copy: WidgetId, paste: WidgetId,
                                 customize: WidgetId)

  function SubmenuItems(p: PopupMenu): seq<WidgetId>
  {
    [p.file, p.edit, p.view, p.nav, p.help, p.firstSeparator]
  }

  function NavItems(p: PopupMenu): seq<WidgetId>
  {
    [p.back, p.forward, p.stop, p.reload]
  }

  function CnpItems(p: PopupMenu): seq<WidgetId>
  {
    [p.cut, p.copy, p.paste]
  }

  function CustomItems(p: PopupMenu): seq<WidgetId>
  {
    [p.customize]
  }

  /** The items of the groups whose flag is set. */
  function Selected(p: PopupMenu, submenu: bool, nav: bool, cnp: bool, custom: bool): set<WidgetId>
  {
    (if submenu then set w | w in SubmenuItems(p) else {}) +
    (if nav then set w | w in NavItems(p) else {}) +
    (if cnp then set w | w in CnpItems(p) else {}) +
    (if custom then set w | w in CustomItems(p) else {})
  }

  /** No two items of the popup menu are the same widget. */
  predicate PopupItemsDistinct(p: PopupMenu)
  {
    var all := SubmenuItems(p) + NavItems(p) + CnpItems(p) + CustomItems(p);
    forall i, j :: 0 <= i < j < |all| ==> all[i] != all[j]
  }

  /** The distinctness facts the context menus rely on: customise is in no other group, and copy, cut and paste differ. */
  lemma PopupDistinctFacts(p: PopupMenu)
    requires PopupItemsDistinct(p)
    ensures p.customize !in SubmenuItems(p) + NavItems(p) + CnpItems(p)
    ensures p.copy != p.cut && p.copy != p.paste && p.cut != p.paste
  {
    var all := SubmenuItems(p) + NavItems(p) + CnpItems(p) + CustomItems(p);
    assert SubmenuItems(p) + NavItems(p) + CnpItems(p) == all[..13];
    assert all[13] == p.customize;
    assert all[10] == p.cut && all[11] == p.copy && all[12] == p.paste;
  }

  /** gtk_widget_show / gtk_widget_hide applied to each widget of `ws` in turn. */
  function SetVisible(vis: map<WidgetId, bool>, ws: seq<WidgetId>, v: bool): (r: map<WidgetId, bool>)
    ensures forall w :: w in ws ==> w in r && r[w] == v
    ensures forall w :: w !in ws ==> (w in r <==> w in vis) && (w in vis ==> r[w] == vis[w])
    decreases |ws|
  {
    if ws == [] then vis else SetVisible(vis[ws[0] := v], ws[1..], v)
  }

  /** popup_menu_hide (v false) and popup_menu_show (v true): the selected groups, in source order. */
  function GroupVisibility(vis: map<WidgetId, bool>, p: PopupMenu, submenu: bool, nav: bool, cnp: bool,
                           custom: bool, v: bool): (r: map<WidgetId, bool>)
    ensures forall w :: w in Selected(p, submenu, nav, cnp, custom) ==> w in r && r[w] == v
    ensures forall w :: w !in Selected(p, submenu, nav, cnp, custom) ==>
      (w in r <==> w in vis) && (w in vis ==> r[w] == vis[w])
  {
    var a := if submenu then SetVisible(vis, SubmenuItems(p), v) else vis;
    var b := if nav then SetVisible(a, NavItems(p), v) else a;
    var c := if cnp then SetVisible(b, CnpItems(p), v) else b;
    if custom then SetVisible(c, CustomItems(p), v) else c
  }

  // ---------------------------------------------------------------------------
  // Edit actions

  // browser_editor_flags bits.
  const BW_EDITOR_CAN_COPY: bv32 := 1
  const BW_EDITOR_CAN_CUT: bv32 := 2
  const BW_EDITOR_CAN_PASTE: bv32 := 4

  /** The sensitivities of COPY, CUT and PASTE. */
  datatype EditActions = EditActions(copy: bool, cut: bool, paste: bool)

  /**
   * nsgtk_scaffolding_update_edit_actions_sensitivity's rule: a focused editable
   * widget decides from its selection, anything else from the browser window's
   * editor flags (the C `_Bool` conversion of `flags & bit` is "nonzero").
   */
  function EditActionsFor(focusEditable: bool, hasSelection: bool, flags: bv32): EditActions
  {
    if focusEditable then EditActions(hasSelection, hasSelection, true)
    else EditActions(flags & BW_EDITOR_CAN_COPY != 0, flags & BW_EDITOR_CAN_CUT != 0,
                     flags & BW_EDITOR_CAN_PASTE != 0)
  }

  function AnyAction(a: EditActions): bool
  {
    a.copy || a.cut || a.paste
  }

  /** Some edit action is enabled iff an editable widget has focus or the editor grants one of the three bits. */
  lemma AnyEditAction(focusEditable: bool, hasSelection: bool, flags: bv32)
    ensures AnyAction(EditActionsFor(focusEditable, hasSelection, flags)) <==>
      focusEditable || flags & (BW_EDITOR_CAN_COPY | BW_EDITOR_CAN_CUT | BW_EDITOR_CAN_PASTE) != 0
  {
    if !focusEditable {
      assert flags & (BW_EDITOR_CAN_COPY | BW_EDITOR_CAN_CUT | BW_EDITOR_CAN_PASTE) ==
        (flags & BW_EDITOR_CAN_COPY) | (flags & BW_EDITOR_CAN_CUT) | (flags & BW_EDITOR_CAN_PASTE);
    }
  }

  /** Flags outside the three CAN_* bits never change the outcome. */
  lemma EditActionsIgnoreOtherBits(focusEditable: bool, hasSelection: bool, flags: bv32, other: bv32)
    requires other & (BW_EDITOR_CAN_COPY | BW_EDITOR_CAN_CUT | BW_EDITOR_CAN_PASTE) == 0
    ensures EditActionsFor(focusEditable, hasSelection, flags | other) ==
      EditActionsFor(focusEditable, hasSelection, flags)
  {
  }

  // ---------------------------------------------------------------------------
  // Window title

  const TITLE_SUFFIX := " - NetSurf"
  const DEFAULT_TITLE := "NetSurf"

  /** The buffer nsgtk_window_set_title formats: the page title followed by the suffix. */
  function DecoratedTitle(title: string): (r: string)
    ensures |r| >= |TITLE_SUFFIX| && PageTitle(r) == title && r[|r| - |TITLE_SUFFIX|..] == TITLE_SUFFIX
  {
    var r := title + TITLE_SUFFIX;
    assert r[..|r| - |TITLE_SUFFIX|] == title;
    r
  }

  /** The page title back out of a decorated window title. */
  function PageTitle(r: string): string
    requires |r| >= |TITLE_SUFFIX|
  {
    r[..|r| - |TITLE_SUFFIX|]
  }

  /**
   * The window title after nsgtk_window_set_title AS WRITTEN.  `current` is the
   * title before, `isTopLevel` is `gs->top_level == gw`, `title` None is NULL,
   * `allocOk` is whether the malloc succeeds.  An empty title resets the window
   * title only when gw is NOT the top level.
   */
  function WindowTitleAsWritten(current: string, isTopLevel: bool, title: Option<string>, allocOk: bool): string
  {
    if title.None? || title.value == "" then (if !isTopLevel then DEFAULT_TITLE else current)
    else if !isTopLevel then current
    else if !allocOk then current
    else DecoratedTitle(title.value)
  }

  /** An untitled background tab overwrites the window title of the tab the user is looking at. */
  lemma AsWrittenBackgroundTabResetsTitle(current: string, allocOk: bool)
    requires current != DEFAULT_TITLE
    ensures WindowTitleAsWritten(current, false, Some(""), allocOk) != current
    ensures WindowTitleAsWritten(current, false, None, allocOk) != current
  {
  }

  /** ... while the visible tab losing its title leaves its stale title on the window. */
  lemma AsWrittenTopLevelKeepsStaleTitle(current: string, allocOk: bool)
    ensures WindowTitleAsWritten(current, true, Some(""), allocOk) == current
  {
  }

  /** The window title after nsgtk_window_set_title with the empty-title test the other way round. */
  function WindowTitle(current: string, isTopLevel: bool, title: Option<string>, allocOk: bool): string
  {
    if !isTopLevel then current
    else if title.None? || title.value == "" then DEFAULT_TITLE
    else if !allocOk then current
    else DecoratedTitle(title.value)
  }

  /** Only the top-level browsing context ever changes the window title. */
  lemma BackgroundTabKeepsTitle(current: string, title: Option<string>, allocOk: bool)
    ensures WindowTitle(current, false, title, allocOk) == current
  {
  }

  /**
   * For the top level the window title names the page: the page title plus
   * suffix when there is one (and memory for it), "NetSurf" when there is none.
   */
  lemma TopLevelTitle(current: string, title: Option<string>, allocOk: bool)
    ensures title.Some? && title.value != "" && allocOk ==>
      PageTitle(WindowTitle(current, true, title, allocOk)) == title.value
    ensures (title.None? || title.value == "") ==> WindowTitle(current, true, title, allocOk) == DEFAULT_TITLE
    ensures title.Some? && title.value != "" && !allocOk ==> WindowTitle(current, true, title, allocOk) == current
  {
  }

  /** The two versions agree whenever the title is not empty. */
  lemma TitleVersionsAgreeOnNonEmpty(current: string, isTopLevel: bool, title: string, allocOk: bool)
    requires title != ""
    ensures WindowTitle(current, isTopLevel, Some(title), allocOk) ==
      WindowTitleAsWritten(current, isTopLevel, Some(title), allocOk)
  {
  }
}
