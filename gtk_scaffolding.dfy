/**
 * The GTK front end's scaffolding bookkeeping: the global doubly linked list
 * of browser windows ("scaffolds"), and each scaffold's menu sensitivity
 * table and popup-menu visibility.
 *
 * Everything a scaffold learns from GTK or the browser engine (which widget
 * has focus, whether it has a selection, the editor flags, the history
 * availability, whether the notebook shows its tabs, whether a download is in
 * progress) is a parameter.  Widget construction is a parameter too: a
 * scaffold is built from the widget ids the menu builder produced.
 */
module GtkScaffolding {
  import opened Wrappers
  import opened GtkMenus

  /** The nserror values these operations return. */
  datatype NsError = NsErrorOk | NsErrorInvalid

  /** `m` with command `i`'s sensitivity set to `v`. */
  function WithSensitivity(m: seq<MenuEntry>, i: int, v: bool): seq<MenuEntry>
    requires 0 <= i < |m|
  {
    m[i := m[i].(sensitivity := v)]
  }

  /** `after` differs from `before` at most in the sensitivity of the commands in `cmds`. */
  ghost predicate OnlySensitivityChanged(before: seq<MenuEntry>, after: seq<MenuEntry>, cmds: set<int>)
  {
    |after| == |before| &&
    forall i :: 0 <= i < |after| ==>
      after[i] == before[i].(sensitivity := after[i].sensitivity) && (i !in cmds ==> after[i] == before[i])
  }

  /** Two sensitivity stores change only those two commands, and only their flags. */
  lemma TwoSensitivities(m: seq<MenuEntry>, i: int, v: bool, j: int, w: bool)
    requires 0 <= i < |m| && 0 <= j < |m| && i != j
    ensures var r := WithSensitivity(WithSensitivity(m, i, v), j, w);
      OnlySensitivityChanged(m, r, {i, j}) && r[i].sensitivity == v && r[j].sensitivity == w
  {
  }

  /** Changes confined to `c1` followed by changes confined to `c2` are confined to both. */
  lemma OnlySensitivityChangedTrans(a: seq<MenuEntry>, b: seq<MenuEntry>, c: seq<MenuEntry>, c1: set<int>, c2: set<int>)
    requires OnlySensitivityChanged(a, b, c1) && OnlySensitivityChanged(b, c, c2)
    ensures OnlySensitivityChanged(a, c, c1 + c2)
  {
  }

  /** Changing a sensitivity never changes which widgets show which command. */
  lemma WithSensitivityKeepsSurfaces(m: seq<MenuEntry>, i: int, v: bool)
    requires 0 <= i < |m| && SurfacesDistinct(m)
    ensures SurfacesDistinct(WithSensitivity(m, i, v))
  {
    var m' := WithSensitivity(m, i, v);
    forall j | 0 <= j < |m|
      ensures Surfaces(m'[j]) == Surfaces(m[j])
    {
    }
  }

  /** One browser window (nsgtk_scaffolding). */
  class Scaffold {
    var next: Scaffold?
    var prev: Scaffold?
    /** the gui_window currently shown in this scaffold */
    var topLevel: int
    /** the menus[] sensitivity table, one entry per command */
    const menus: array<MenuEntry>
    const popupMenu: PopupMenu
    /** the "tabs" item of the menu bar's and of the popup's view submenu */
    const tabsBarItem: WidgetId
    const tabsPopupItem: WidgetId
    /** the menu bar's view → images item */
    const imagesItem: WidgetId
    /** gtk_widget_set_sensitive state of the widgets this scaffold has touched */
    var sensitive: map<WidgetId, bool>
    /** gtk_widget_show / hide state of the widgets this scaffold has touched */
    var visible: map<WidgetId, bool>
    var windowTitle: string

    ghost predicate Valid()
      reads menus
    {
      menus.Length == PLACEHOLDER_BUTTON && SurfacesDistinct(menus[..]) && PopupItemsDistinct(popupMenu)
    }

    /** Every non-NULL surface of command `i` shows its sensitivity. */
    ghost predicate Shows(i: int)
      reads this`sensitive, menus
      requires 0 <= i < menus.Length
    {
      forall w :: w in Surfaces(menus[i]) ==> w in sensitive && sensitive[w] == menus[i].sensitivity
    }

    /** Every command nsgtk_scaffolding_set_sensitivity pushes shows its sensitivity. */
    ghost predicate ShowsListed()
      reads this`sensitive, menus
      requires Valid()
    {
      forall k :: 0 <= k < |SENSITIVITY_CMDS| ==> Shows(SENSITIVITY_CMDS[k])
    }

    /** The widget part of nsgtk_new_scaffolding: the menus and popup the builder produced, not yet linked. */
    constructor (topLevel: int, entries: seq<MenuEntry>, popupMenu: PopupMenu,
                 tabsBarItem: WidgetId, tabsPopupItem: WidgetId, imagesItem: WidgetId, windowTitle: string)
      requires |entries| == PLACEHOLDER_BUTTON && SurfacesDistinct(entries) && PopupItemsDistinct(popupMenu)
      ensures Valid() && fresh(menus)
      ensures next == null && prev == null && this.topLevel == topLevel && menus[..] == entries
      ensures this.popupMenu == popupMenu && this.tabsBarItem == tabsBarItem
      ensures this.tabsPopupItem == tabsPopupItem && this.imagesItem == imagesItem
      ensures sensitive == map[] && visible == map[] && this.windowTitle == windowTitle
    {
      next := null;
      prev := null;
      this.topLevel := topLevel;
      menus := new MenuEntry[|entries|](i requires 0 <= i < |entries| => entries[i]);
      this.popupMenu := popupMenu;
      this.tabsBarItem := tabsBarItem;
      this.tabsPopupItem := tabsPopupItem;
      this.imagesItem := imagesItem;
      sensitive := map[];
      visible := map[];
      this.windowTitle := windowTitle;
    }

    /** `g->menus[i].sensitivity = v`. */
    method SetCommand(i: int, v: bool)
      requires Valid() && 0 <= i < menus.Length
      modifies menus
      ensures Valid()
      ensures menus[..] == WithSensitivity(old(menus[..]), i, v)
    {
      WithSensitivityKeepsSurfaces(menus[..], i, v);
      menus[i] := menus[i].(sensitivity := v);
    }

    /** The body of the push loops: command `i`'s flag onto main, rclick and popup, skipping NULL ones. */
    method PushOne(i: int)
      requires 0 <= i < menus.Length
      modifies this`sensitive
      ensures sensitive == PushEntry(old(sensitive), menus[i])
    {
      var e := menus[i];
      if e.main.Some? {
        sensitive := sensitive[e.main.value := e.sensitivity];
      }
      if e.rclick.Some? {
        sensitive := sensitive[e.rclick.value := e.sensitivity];
      }
      if e.popup.Some? {
        sensitive := sensitive[e.popup.value := e.sensitivity];
      }
    }

    /** One step of nsgtk_scaffolding_set_sensitivity: push command `i`, the `k`th of the list. */
    method PushListed(i: int, ghost s0: map<WidgetId, bool>, ghost k: int)
      requires Valid() && 0 <= k < |SENSITIVITY_CMDS| && SENSITIVITY_CMDS[k] == i
      requires sensitive == PushCommands(s0, menus[..], SENSITIVITY_CMDS[..k])
      modifies this`sensitive
      ensures sensitive == PushCommands(s0, menus[..], SENSITIVITY_CMDS[..k + 1])
    {
      PushOne(i);
      PushCommandsSnoc(s0, menus[..], SENSITIVITY_CMDS, k);
    }

    /** nsgtk_scaffolding_set_sensitivity: push the ten listed commands, in the source's order. */
    method SetSensitivity()
      requires Valid()
      modifies this`sensitive
      ensures sensitive == PushCommands(old(sensitive), menus[..], SENSITIVITY_CMDS)
      ensures ShowsListed()
    {
      ghost var s0 := sensitive;
      assert SENSITIVITY_CMDS[..0] == [];
      PushListed(STOP_BUTTON, s0, 0);
      PushListed(RELOAD_BUTTON, s0, 1);
      PushListed(CUT_BUTTON, s0, 2);
      PushListed(COPY_BUTTON, s0, 3);
      PushListed(PASTE_BUTTON, s0, 4);
      PushListed(BACK_BUTTON, s0, 5);
      PushListed(FORWARD_BUTTON, s0, 6);
      PushListed(NEXTTAB_BUTTON, s0, 7);
      PushListed(PREVTAB_BUTTON, s0, 8);
      PushListed(CLOSETAB_BUTTON, s0, 9);
      assert SENSITIVITY_CMDS[..10] == SENSITIVITY_CMDS;
      ListedShow(s0);
    }

    /** After the ten pushes every surface of a listed command shows that command's flag. */
    lemma ListedShow(s0: map<WidgetId, bool>)
      requires Valid() && sensitive == PushCommands(s0, menus[..], SENSITIVITY_CMDS)
      ensures ShowsListed()
    {
      var m := menus[..];
      forall k | 0 <= k < |SENSITIVITY_CMDS|
        ensures Shows(SENSITIVITY_CMDS[k])
      {
        forall w | w in Surfaces(m[SENSITIVITY_CMDS[k]]) {
          PushCommandsHit(s0, m, SENSITIVITY_CMDS, k, w);
        }
      }
    }

    /** nsgtk_menu_set_sensitivity: push every command, then force the images item insensitive. */
    method MenuSetSensitivity()
      requires Valid()
      modifies this`sensitive
      ensures sensitive == PushCommands(old(sensitive), menus[..], AllCommands())[imagesItem := false]
    {
      ghost var s0 := sensitive;
      ghost var m := menus[..];
      ghost var c := AllCommands();
      assert CommandsIn(c, m);
      var i := BACK_BUTTON;
      while i < PLACEHOLDER_BUTTON
        invariant BACK_BUTTON <= i <= PLACEHOLDER_BUTTON
        invariant sensitive == PushCommands(s0, m, c[..i - BACK_BUTTON])
      {
        PushOne(i);
        PushCommandsSnoc(s0, m, c, i - BACK_BUTTON);
        i := i + 1;
      }
      assert c[..PLACEHOLDER_BUTTON - BACK_BUTTON] == c;
      sensitive := sensitive[imagesItem := false];
    }

    /** scaffolding_update_context: BACK and FORWARD from the history, then push. */
    method UpdateContext(backAvailable: bool, forwardAvailable: bool)
      requires Valid()
      modifies menus, this`sensitive
      ensures Valid()
      ensures menus[..] ==
        WithSensitivity(WithSensitivity(old(menus[..]), BACK_BUTTON, backAvailable), FORWARD_BUTTON, forwardAvailable)
      ensures sensitive == PushCommands(old(sensitive), menus[..], SENSITIVITY_CMDS)
      ensures ShowsListed() && Shows(BACK_BUTTON) && Shows(FORWARD_BUTTON)
    {
      SetCommand(BACK_BUTTON, backAvailable);
      SetCommand(FORWARD_BUTTON, forwardAvailable);
      SetSensitivity();
      assert SENSITIVITY_CMDS[5] == BACK_BUTTON && SENSITIVITY_CMDS[6] == FORWARD_BUTTON;
    }

    /** nsgtk_scaffolding_throbber: STOP follows `active`, RELOAD its negation, then the context update. */
    method Throbber(active: bool, backAvailable: bool, forwardAvailable: bool)
      requires Valid()
      modifies menus, this`sensitive
      ensures Valid()
      ensures OnlySensitivityChanged(old(menus[..]), menus[..],
                                     {STOP_BUTTON, RELOAD_BUTTON, BACK_BUTTON, FORWARD_BUTTON})
      ensures menus[STOP_BUTTON].sensitivity == active && menus[RELOAD_BUTTON].sensitivity == !active
      ensures menus[BACK_BUTTON].sensitivity == backAvailable
      ensures menus[FORWARD_BUTTON].sensitivity == forwardAvailable
      ensures sensitive == PushCommands(old(sensitive), menus[..], SENSITIVITY_CMDS)
      ensures ShowsListed()
      ensures Shows(STOP_BUTTON) && Shows(RELOAD_BUTTON) && Shows(BACK_BUTTON) && Shows(FORWARD_BUTTON)
    {
      ghost var m0 := menus[..];
      if active {
        SetCommand(STOP_BUTTON, true);
        SetCommand(RELOAD_BUTTON, false);
      } else {
        SetCommand(STOP_BUTTON, false);
        SetCommand(RELOAD_BUTTON, true);
      }
      ghost var m1 := menus[..];
      TwoSensitivities(m0, STOP_BUTTON, active, RELOAD_BUTTON, !active);
      UpdateContext(backAvailable, forwardAvailable);
      TwoSensitivities(m1, BACK_BUTTON, backAvailable, FORWARD_BUTTON, forwardAvailable);
      OnlySensitivityChangedTrans(m0, m1, menus[..], {STOP_BUTTON, RELOAD_BUTTON}, {BACK_BUTTON, FORWARD_BUTTON});
      assert SENSITIVITY_CMDS[0] == STOP_BUTTON && SENSITIVITY_CMDS[1] == RELOAD_BUTTON;
    }

    /**
     * nsgtk_scaffolding_update_edit_actions_sensitivity: COPY, CUT and PASTE
     * from the focused widget or the editor flags, pushed; the result says
     * whether any of them is enabled.
     */
    method UpdateEditActions(focusEditable: bool, hasSelection: bool, flags: bv32) returns (any: bool)
      requires Valid()
      modifies menus, this`sensitive
      ensures Valid()
      ensures OnlySensitivityChanged(old(menus[..]), menus[..], {COPY_BUTTON, CUT_BUTTON, PASTE_BUTTON})
      ensures EditActions(menus[COPY_BUTTON].sensitivity, menus[CUT_BUTTON].sensitivity,
                          menus[PASTE_BUTTON].sensitivity) == EditActionsFor(focusEditable, hasSelection, flags)
      ensures any == AnyAction(EditActionsFor(focusEditable, hasSelection, flags))
      ensures sensitive == PushCommands(old(sensitive), menus[..], SENSITIVITY_CMDS)
      ensures ShowsListed() && Shows(COPY_BUTTON) && Shows(CUT_BUTTON) && Shows(PASTE_BUTTON)
    {
      if focusEditable {
        SetCommand(COPY_BUTTON, hasSelection);
        SetCommand(CUT_BUTTON, hasSelection);
        SetCommand(PASTE_BUTTON, true);
      } else {
        SetCommand(COPY_BUTTON, flags & BW_EDITOR_CAN_COPY != 0);
        SetCommand(CUT_BUTTON, flags & BW_EDITOR_CAN_CUT != 0);
        SetCommand(PASTE_BUTTON, flags & BW_EDITOR_CAN_PASTE != 0);
      }
      SetSensitivity();
      assert SENSITIVITY_CMDS[2] == CUT_BUTTON && SENSITIVITY_CMDS[3] == COPY_BUTTON;
      assert SENSITIVITY_CMDS[4] == PASTE_BUTTON;
      any := menus[COPY_BUTTON].sensitivity || menus[CUT_BUTTON].sensitivity || menus[PASTE_BUTTON].sensitivity;
    }

    /** popup_menu_hide: hide every item of the selected groups. */
    method PopupMenuHide(submenu: bool, nav: bool, cnp: bool, custom: bool)
      modifies this`visible
      ensures visible == GroupVisibility(old(visible), popupMenu, submenu, nav, cnp, custom, false)
    {
      if submenu {
        visible := SetVisible(visible, SubmenuItems(popupMenu), false);
      }
      if nav {
        visible := SetVisible(visible, NavItems(popupMenu), false);
      }
      if cnp {
        visible := SetVisible(visible, CnpItems(popupMenu), false);
      }
      if custom {
        visible := SetVisible(visible, CustomItems(popupMenu), false);
      }
    }

    /** popup_menu_show: show every item of the selected groups. */
    method PopupMenuShow(submenu: bool, nav: bool, cnp: bool, custom: bool)
      modifies this`visible
      ensures visible == GroupVisibility(old(visible), popupMenu, submenu, nav, cnp, custom, true)
    {
      if submenu {
        visible := SetVisible(visible, SubmenuItems(popupMenu), true);
      }
      if nav {
        visible := SetVisible(visible, NavItems(popupMenu), true);
      }
      if cnp {
        visible := SetVisible(visible, CnpItems(popupMenu), true);
      }
      if custom {
        visible := SetVisible(visible, CustomItems(popupMenu), true);
      }
    }

    /** nsgtk_scaffolding_enable_edit_actions_sensitivity: all three edit actions on, and shown in the popup. */
    method EnableEditActions()
      requires Valid()
      modifies menus, this`sensitive, this`visible
      ensures Valid()
      ensures OnlySensitivityChanged(old(menus[..]), menus[..], {COPY_BUTTON, CUT_BUTTON, PASTE_BUTTON})
      ensures menus[COPY_BUTTON].sensitivity && menus[CUT_BUTTON].sensitivity && menus[PASTE_BUTTON].sensitivity
      ensures sensitive == PushCommands(old(sensitive), menus[..], SENSITIVITY_CMDS)
      ensures visible == GroupVisibility(old(visible), popupMenu, false, false, true, false, true)
    {
      SetCommand(PASTE_BUTTON, true);
      SetCommand(COPY_BUTTON, true);
      SetCommand(CUT_BUTTON, true);
      SetSensitivity();
      PopupMenuShow(false, false, true, false);
    }

    /**
     * nsgtk_window_tabs_add (and the tail of tabs_remove): the tabs items
     * follow the notebook's show-tabs setting, and so do the sensitivities of
     * NEXTTAB, PREVTAB and CLOSETAB.
     */
    method TabsChanged(showTabs: bool)
      requires Valid()
      modifies menus, this`sensitive, this`visible
      ensures Valid()
      ensures OnlySensitivityChanged(old(menus[..]), menus[..], {NEXTTAB_BUTTON, PREVTAB_BUTTON, CLOSETAB_BUTTON})
      ensures menus[NEXTTAB_BUTTON].sensitivity == showTabs && menus[PREVTAB_BUTTON].sensitivity == showTabs
      ensures menus[CLOSETAB_BUTTON].sensitivity == showTabs
      ensures visible == old(visible)[tabsBarItem := showTabs][tabsPopupItem := showTabs]
      ensures sensitive == PushCommands(old(sensitive), menus[..], SENSITIVITY_CMDS)
      ensures ShowsListed() && Shows(NEXTTAB_BUTTON) && Shows(PREVTAB_BUTTON) && Shows(CLOSETAB_BUTTON)
    {
      visible := visible[tabsBarItem := showTabs];
      visible := visible[tabsPopupItem := showTabs];
      SetCommand(NEXTTAB_BUTTON, showTabs);
      SetCommand(PREVTAB_BUTTON, showTabs);
      SetCommand(CLOSETAB_BUTTON, showTabs);
      SetSensitivity();
      assert SENSITIVITY_CMDS[7] == NEXTTAB_BUTTON && SENSITIVITY_CMDS[8] == PREVTAB_BUTTON;
      assert SENSITIVITY_CMDS[9] == CLOSETAB_BUTTON;
    }

    /** nsgtk_scaffolding_toolbar_context_menu: submenus and cut/copy/paste hidden, customise shown. */
    method ToolbarContextMenu()
      requires Valid()
      modifies this`visible
      ensures visible == GroupVisibility(GroupVisibility(old(visible), popupMenu, true, false, true, false, false),
                                         popupMenu, false, false, false, true, true)
      ensures forall w :: w in SubmenuItems(popupMenu) || w in CnpItems(popupMenu) ==> w in visible && !visible[w]
      ensures popupMenu.customize in visible && visible[popupMenu.customize]
      ensures forall w :: w !in SubmenuItems(popupMenu) + CnpItems(popupMenu) + CustomItems(popupMenu) ==>
        (w in visible <==> w in old(visible)) && (w in visible ==> visible[w] == old(visible)[w])
    {
      PopupMenuHide(true, false, true, false);
      PopupMenuShow(false, false, false, true);
      PopupDistinctFacts(popupMenu);
    }

    /** The middle of nsgtk_scaffolding_context_menu: each of copy, cut and paste shown iff sensitive. */
    method ShowSensitiveEditItems()
      requires Valid()
      modifies this`visible
      ensures visible == old(visible)[popupMenu.copy := menus[COPY_BUTTON].sensitivity]
                                     [popupMenu.cut := menus[CUT_BUTTON].sensitivity]
                                     [popupMenu.paste := menus[PASTE_BUTTON].sensitivity]
    {
      if !menus[COPY_BUTTON].sensitivity {
        visible := visible[popupMenu.copy := false];
      } else {
        visible := visible[popupMenu.copy := true];
      }
      if !menus[CUT_BUTTON].sensitivity {
        visible := visible[popupMenu.cut := false];
      } else {
        visible := visible[popupMenu.cut := true];
      }
      if !menus[PASTE_BUTTON].sensitivity {
        visible := visible[popupMenu.paste := false];
      } else {
        visible := visible[popupMenu.paste := true];
      }
    }

    /**
     * nsgtk_scaffolding_context_menu: over a link only the link menu pops up;
     * otherwise the edit actions are recomputed, each of copy, cut and paste
     * is shown iff it is sensitive, and customise is hidden.
     */
    method ContextMenu(overLink: bool, focusEditable: bool, hasSelection: bool, flags: bv32)
      requires Valid()
      modifies menus, this`sensitive, this`visible
      ensures Valid()
      ensures overLink ==> menus[..] == old(menus[..]) && sensitive == old(sensitive) && visible == old(visible)
      ensures !overLink ==> OnlySensitivityChanged(old(menus[..]), menus[..], {COPY_BUTTON, CUT_BUTTON, PASTE_BUTTON})
      ensures !overLink ==> EditActions(menus[COPY_BUTTON].sensitivity, menus[CUT_BUTTON].sensitivity,
                                        menus[PASTE_BUTTON].sensitivity) ==
                            EditActionsFor(focusEditable, hasSelection, flags)
      ensures !overLink ==> sensitive == PushCommands(old(sensitive), menus[..], SENSITIVITY_CMDS)
      ensures !overLink ==> visible == old(visible)[popupMenu.copy := menus[COPY_BUTTON].sensitivity]
                                                   [popupMenu.cut := menus[CUT_BUTTON].sensitivity]
                                                   [popupMenu.paste := menus[PASTE_BUTTON].sensitivity]
                                                   [popupMenu.customize := false]
      ensures !overLink ==> (visible[popupMenu.copy] == menus[COPY_BUTTON].sensitivity &&
                             visible[popupMenu.cut] == menus[CUT_BUTTON].sensitivity &&
                             visible[popupMenu.paste] == menus[PASTE_BUTTON].sensitivity &&
                             !visible[popupMenu.customize])
    {
      if !overLink {
        var _ := UpdateEditActions(focusEditable, hasSelection, flags);
        ShowSensitiveEditItems();
        ghost var v1 := visible;
        PopupMenuHide(false, false, false, true);
        assert visible == v1[popupMenu.customize := false];
        PopupDistinctFacts(popupMenu);
      }
    }

    /** nsgtk_window_set_title (with the empty-title test corrected); the tab label is not modelled. */
    method SetTitle(gw: int, title: Option<string>, allocOk: bool)
      modifies this`windowTitle
      ensures windowTitle == WindowTitle(old(windowTitle), topLevel == gw, title, allocOk)
    {
      if title.None? || title.value == "" {
        if topLevel == gw {
          windowTitle := DEFAULT_TITLE;
        }
        return;
      }
      if topLevel != gw {
        return;
      }
      if !allocOk {
        return;
      }
      windowTitle := DecoratedTitle(title.value);
    }

    /**
     * nsgtk_scaffolding_set_top_level: `gw` becomes the gui_window shown, the
     * history commands follow its browser window, and the window title
     * follows its page title.
     */
    method SetTopLevel(gw: int, backAvailable: bool, forwardAvailable: bool, title: Option<string>, allocOk: bool)
      requires Valid()
      modifies this`topLevel, menus, this`sensitive, this`windowTitle
      ensures Valid() && topLevel == gw
      ensures menus[..] ==
        WithSensitivity(WithSensitivity(old(menus[..]), BACK_BUTTON, backAvailable), FORWARD_BUTTON, forwardAvailable)
      ensures sensitive == PushCommands(old(sensitive), menus[..], SENSITIVITY_CMDS)
      ensures ShowsListed() && Shows(BACK_BUTTON) && Shows(FORWARD_BUTTON)
      ensures windowTitle == WindowTitle(old(windowTitle), true, title, allocOk)
    {
      topLevel := gw;
      UpdateContext(backAvailable, forwardAvailable);
      SetTitle(gw, title, allocOk);
    }
  }

  /** What a scaffold shows, apart from its list links. */
  ghost function Contents(s: Scaffold): (int, map<WidgetId, bool>, map<WidgetId, bool>, string)
    reads s`topLevel, s`sensitive, s`visible, s`windowTitle
  {
    (s.topLevel, s.sensitive, s.visible, s.windowTitle)
  }

  /**
   * `items` is the list reached from `head` through `next`, with `prev`
   * pointing back: the doubly linked list scaf_list heads.
   */
  ghost predicate Linked(items: seq<Scaffold>, head: Scaffold?)
    reads items`next, items`prev
  {
    (head == null <==> items == []) &&
    (items != [] ==> head == items[0] && items[0].prev == null && items[|items| - 1].next == null) &&
    (forall i :: 0 < i < |items| ==> items[i].prev == items[i - 1]) &&
    (forall i :: 0 < i < |items| ==> items[i - 1].next == items[i]) &&
    (forall i, j :: 0 <= i < j < |items| ==> items[i] != items[j])
  }

  /** Putting a scaffold that is not yet in the list in front of its head keeps the list linked. */
  lemma LinkedAfterPush(o: seq<Scaffold>, gs: Scaffold)
    requires gs !in o && forall i, j :: 0 <= i < j < |o| ==> o[i] != o[j]
    requires forall i :: 0 < i < |o| ==> o[i].prev == o[i - 1] && o[i - 1].next == o[i]
    requires o != [] ==> o[0].prev == gs && o[|o| - 1].next == null
    requires gs.prev == null && gs.next == if o == [] then null else o[0]
    ensures Linked([gs] + o, gs)
  {
    var items := [gs] + o;
    forall i | 0 < i < |items|
      ensures items[i].prev == items[i - 1] && items[i - 1].next == items[i]
    {
      assert items[i] == o[i - 1];
      if i > 1 {
        assert items[i - 1] == o[i - 2];
      }
    }
  }

  /**
   * Removing the k-th scaffold keeps the list linked once its neighbours point
   * at each other (or the head moves past it) and every other link is as before.
   */
  lemma LinkedAfterUnlink(o: seq<Scaffold>, k: int, head: Scaffold?)
    requires 0 <= k < |o| && forall i, j :: 0 <= i < j < |o| ==> o[i] != o[j]
    requires forall i :: 0 < i < |o| && i != k && i != k + 1 ==> o[i].prev == o[i - 1] && o[i - 1].next == o[i]
    requires k + 1 < |o| ==> o[k + 1].prev == (if k == 0 then null else o[k - 1])
    requires 0 < k ==> o[k - 1].next == (if k + 1 < |o| then o[k + 1] else null)
    requires 0 < k ==> o[0].prev == null
    requires k + 1 < |o| ==> o[|o| - 1].next == null
    requires head == if k == 0 then (if k + 1 < |o| then o[k + 1] else null) else o[0]
    ensures Linked(o[..k] + o[k + 1..], head)
  {
    var items := o[..k] + o[k + 1..];
    forall i | 0 <= i < |items|
      ensures items[i] == if i < k then o[i] else o[i + 1]
    {
    }
    forall i | 0 < i < |items|
      ensures items[i].prev == items[i - 1] && items[i - 1].next == items[i]
    {
      if i < k {
        assert items[i] == o[i] && items[i - 1] == o[i - 1];
      } else if i > k {
        assert items[i] == o[i + 1] && items[i - 1] == o[i];
      }
    }
  }

  /**
   * The building part of nsgtk_new_scaffolding: the widgets, then the popup
   * builder's last step (popup_menu_hide of the submenu items and the
   * customise item) and the menu builder's last step (nsgtk_menu_set_sensitivity).
   */
  method BuildScaffold(topLevel: int, entries: seq<MenuEntry>, popupMenu: PopupMenu,
                       tabsBarItem: WidgetId, tabsPopupItem: WidgetId, imagesItem: WidgetId, windowTitle: string)
    returns (gs: Scaffold)
    requires |entries| == PLACEHOLDER_BUTTON && SurfacesDistinct(entries) && PopupItemsDistinct(popupMenu)
    ensures fresh(gs) && fresh(gs.menus) && gs.Valid() && gs.prev == null && gs.next == null
    ensures gs.topLevel == topLevel && gs.menus[..] == entries && gs.popupMenu == popupMenu
    ensures gs.tabsBarItem == tabsBarItem && gs.tabsPopupItem == tabsPopupItem && gs.imagesItem == imagesItem
    ensures gs.sensitive == PushCommands(map[], entries, AllCommands())[imagesItem := false]
    ensures gs.visible == GroupVisibility(map[], popupMenu, true, false, false, true, false)
    ensures gs.windowTitle == windowTitle
  {
    gs := new Scaffold(topLevel, entries, popupMenu, tabsBarItem, tabsPopupItem, imagesItem, windowTitle);
    gs.PopupMenuHide(true, false, false, true);
    gs.MenuSetSensitivity();
  }

  /**
   * The module-level state: scaf_list (head), scaf_current and nsgtk_complete.
   * Items is the list in order from the head.
   */
  class Registry {
    var head: Scaffold?
    var current: Scaffold?
    var complete: bool
    ghost var Items: seq<Scaffold>

    ghost predicate Valid()
      reads this, Items
    {
      Linked(Items, head)
    }

    /** Program start: no scaffold, no current one, not complete. */
    constructor ()
      ensures Valid() && Items == [] && current == null && !complete
    {
      head := null;
      current := null;
      complete := false;
      Items := [];
    }

    /**
     * nsgtk_new_scaffolding: NULL when building the widgets fails (nothing is
     * linked); otherwise the popup builder hides its submenu items and the
     * customise item (nsgtk_new_scaffolding_popup ends with popup_menu_hide),
     * the menu builder pushes every command's sensitivity (nsgtk_menus_create
     * ends with nsgtk_menu_set_sensitivity), and the new scaffold is linked in
     * at the head of the list.  Only the old head's `prev` changes among the
     * scaffolds already there.
     */
    method NewScaffolding(topLevel: int, widgetsOk: bool, entries: seq<MenuEntry>, popupMenu: PopupMenu,
                          tabsBarItem: WidgetId, tabsPopupItem: WidgetId, imagesItem: WidgetId,
                          windowTitle: string)
      returns (gs: Scaffold?)
      requires Valid()
      requires |entries| == PLACEHOLDER_BUTTON && SurfacesDistinct(entries) && PopupItemsDistinct(popupMenu)
      modifies this, head
      ensures Valid() && current == old(current) && complete == old(complete)
      ensures !widgetsOk ==> gs == null && Items == old(Items)
      ensures widgetsOk ==> (gs != null && fresh(gs) && gs.Valid() && fresh(gs.menus) &&
        Items == [gs] + old(Items) && head == gs && gs.prev == null && gs.next == old(head) &&
        gs.topLevel == topLevel && gs.menus[..] == entries &&
        gs.sensitive == PushCommands(map[], entries, AllCommands())[imagesItem := false] &&
        gs.visible == GroupVisibility(map[], popupMenu, true, false, false, true, false) &&
        gs.windowTitle == windowTitle)
      ensures forall s :: s in old(Items) ==> Contents(s) == old(Contents(s))
    {
      if !widgetsOk {
        return null;
      }
      gs := BuildScaffold(topLevel, entries, popupMenu, tabsBarItem, tabsPopupItem, imagesItem, windowTitle);
      ghost var o := Items;
      if head != null {
        head.prev := gs;
      }
      gs.next := head;
      gs.prev := null;
      forall i | 0 < i < |o|
        ensures o[i].prev == o[i - 1] && o[i - 1].next == o[i]
      {
        assert o[i] != o[0];
      }
      LinkedAfterPush(o, gs);
      head := gs;
      Items := [gs] + Items;
    }

    /** scaffolding_window_destroy: unlink `gs`; when the list is now empty the browser is complete. */
    method WindowDestroy(gs: Scaffold, ghost k: int)
      requires Valid() && 0 <= k < |Items| && Items[k] == gs
      modifies this`head, this`Items, this`complete, gs.prev, gs.next
      ensures Valid()
      ensures Items == old(Items[..k] + Items[k + 1..])
      ensures complete == (old(complete) || Items == [])
      ensures current == old(current)
      ensures gs.next == old(gs.next) && gs.prev == old(gs.prev)
      ensures forall s :: s in old(Items) ==> Contents(s) == old(Contents(s))
      ensures forall s: Scaffold :: old(allocated(s)) ==> Contents(s) == old(Contents(s))
    {
      ghost var o := Items;
      assert Linked(o, head);
      assert gs.prev == if k == 0 then null else o[k - 1];
      assert gs.next == if k + 1 < |o| then o[k + 1] else null;
      ghost var p, n := gs.prev, gs.next;
      if gs.prev != null {
        gs.prev.next := gs.next;
      } else {
        head := gs.next;
      }
      if gs.next != null {
        gs.next.prev := gs.prev;
      }
      forall i | 0 < i < |o| && i != k && i != k + 1
        ensures o[i].prev == o[i - 1] && o[i - 1].next == o[i]
      {
        assert o[i] != n && o[i - 1] != p;
      }
      assert 0 < k ==> o[0] != n;
      assert k + 1 < |o| ==> o[|o| - 1] != p;
      LinkedAfterUnlink(o, k, head);
      Items := Items[..k] + Items[k + 1..];
      if head == null {
        complete := true;
      }
    }

    /** nsgtk_scaffolding_iterate: the head for NULL, otherwise the next scaffold (NULL after the last). */
    method Iterate(g: Scaffold?) returns (r: Scaffold?)
      requires Valid() && (g == null || g in Items)
      ensures g == null ==> r == if Items == [] then null else Items[0]
      ensures forall k :: 0 <= k < |Items| && Items[k] == g ==>
        r == if k + 1 < |Items| then Items[k + 1] else null
    {
      if g == null {
        return head;
      }
      return g.next;
    }

    /** nsgtk_current_scaffolding: scaf_current, defaulted to the head on first use. */
    method Current() returns (r: Scaffold?)
      modifies this`current
      ensures current == (if old(current) == null then head else old(current)) && r == current
    {
      if current == null {
        current := head;
      }
      return current;
    }

    /**
     * nsgtk_scaffolding_destroy_all: refuse while a download is in progress,
     * otherwise destroy every window, which empties the list.
     */
    method DestroyAll(downloadsPending: bool) returns (res: NsError)
      requires Valid() && Items != []
      modifies this, Items
      ensures Valid()
      ensures downloadsPending ==> (res == NsErrorInvalid && Items == old(Items) && head == old(head) &&
                                    complete == old(complete))
      ensures !downloadsPending ==> res == NsErrorOk && Items == [] && head == null && complete
      ensures current == old(current)
      ensures forall s :: s in old(Items) ==> Contents(s) == old(Contents(s))
    {
      var gs := head;
      if downloadsPending {
        return NsErrorInvalid;
      }
      ghost var n := 0;
      while gs != null
        invariant Valid() && 0 <= n <= |old(Items)| && Items == old(Items)[n..] && gs == head
        invariant Items == [] ==> complete
        invariant current == old(current)
        invariant forall s: Scaffold :: old(allocated(s)) ==> Contents(s) == old(Contents(s))
        decreases |Items|
      {
        assert gs.next == if |Items| > 1 then old(Items)[n + 1] else null;
        WindowDestroy(gs, 0);
        gs := gs.next;
        n := n + 1;
      }
      return NsErrorOk;
    }

    /**
     * nsgtk_window_tabs_remove: nothing while the window is being destroyed;
     * removing the last page destroys the window; otherwise the tab items
     * follow the notebook's show-tabs setting as after a page is added.
     */
    method TabsRemove(gs: Scaffold, ghost k: int, pageCount: int, showTabs: bool, inDestruction: bool)
      requires Valid() && 0 <= k < |Items| && Items[k] == gs && gs.Valid()
      modifies this, gs.prev, gs.next, gs`sensitive, gs`visible, gs.menus
      ensures Valid() && gs.Valid() && current == old(current)
      ensures forall s :: s in old(Items) && s != gs ==> Contents(s) == old(Contents(s))
      ensures inDestruction ==> (Items == old(Items) && complete == old(complete) &&
        gs.menus[..] == old(gs.menus[..]) && gs.sensitive == old(gs.sensitive) && gs.visible == old(gs.visible))
      ensures !inDestruction && pageCount == 1 ==>
        (Items == old(Items[..k] + Items[k + 1..]) && complete == (old(complete) || Items == []) &&
         gs.menus[..] == old(gs.menus[..]) && gs.sensitive == old(gs.sensitive) && gs.visible == old(gs.visible))
      ensures !inDestruction && pageCount != 1 ==>
        (Items == old(Items) && complete == old(complete) &&
         OnlySensitivityChanged(old(gs.menus[..]), gs.menus[..], {NEXTTAB_BUTTON, PREVTAB_BUTTON, CLOSETAB_BUTTON}) &&
         gs.menus[NEXTTAB_BUTTON].sensitivity == showTabs && gs.menus[PREVTAB_BUTTON].sensitivity == showTabs &&
         gs.menus[CLOSETAB_BUTTON].sensitivity == showTabs &&
         gs.visible == old(gs.visible)[gs.tabsBarItem := showTabs][gs.tabsPopupItem := showTabs] &&
         gs.sensitive == PushCommands(old(gs.sensitive), gs.menus[..], SENSITIVITY_CMDS))
    {
      if inDestruction {
        return;
      }
      if pageCount == 1 {
        WindowDestroy(gs, k);
        assert Contents(gs) == old(Contents(gs));
        return;
      }
      gs.TabsChanged(showTabs);
    }
  }
}
