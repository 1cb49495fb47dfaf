# NetSurf toolbar and scaffolding bookkeeping, modelled in Dafny

This project models two pieces of NetSurf's front-end bookkeeping and proves
properties of the model.

**The Atari toolbar** (`atari/toolbar.c`). One `s_toolbar` per browser root
window holds:

- a row of navigation buttons (BACK, HOME, FORWARD, STOP, RELOAD), each with
  an AES resource id and an on/off state;
- a throbber with a running flag and the frame it shows;
- the toolbar's area and a `reflow` dirty flag.

`toolbar_reflow` lays the shared AES object tree out for the toolbar's area.
It computes the URL width and the throbber position, centres the current
throbber frame, and mirrors each button's state onto the `OS_DISABLED` bit of
its object. The model:

- keeps the toolbar as the class `AtariToolbar.Toolbar`;
- keeps the two AES trees and the button row as arrays;
- specifies each imperative operation by a function of the old state
  (`ReflowTree`, `PlaceThrobber`, `UpdatedButtons`, `NextFrame`);
- proves the layout and button-state facts about those functions as lemmas;
- takes the engine's availability predicates as an input record;
- records "schedule a redraw of this rectangle" in a ghost log.

The 16-bit AES words are modelled explicitly: every store goes through
`AtariAes.Wrap16`, and the C `>> 1` is floor halving.

**The GTK scaffolding** (`frontends/gtk/scaffolding.c`). The model covers:

- the global doubly linked list of browser windows (`scaf_list`, `scaf_current`,
  `nsgtk_complete`), as the class `GtkScaffolding.Registry` over `Scaffold`
  objects with `next`/`prev` fields and a ghost sequence `Items`;
- each scaffold's `menus[]` sensitivity table, as an array of `MenuEntry`;
- how a command's flag is pushed onto its up to three surfaces (main menu,
  right-click menu, popup), skipping NULL ones;
- the popup menu's visibility groups;
- the edit-action rule;
- the window-title rule.

A widget is an integer id. "Sensitive" and "visible" are maps from ids to
booleans. Everything these functions learn from GTK or the browser engine is
a parameter:

- the focused widget's kind and selection;
- the editor flag word (a `bv32`);
- history availability;
- the notebook's show-tabs setting and page count;
- whether the window is in destruction;
- whether a download is in progress;
- whether a `malloc` succeeds.

The AES object indices (from the resource header) and the command indices
(from the GTK toolbar item header) are not part of this model. Distinct
stand-in constants replace them, and no property depends on their values
beyond distinctness and range.

## Model

| member | source | states |
|---|---|---|
| AtariAes.Wrap16 | atari/toolbar.c:324-330 | storing an int into a 16-bit AES word keeps it modulo 2^16 and leaves in-range values unchanged |
| AtariAes.Half | atari/toolbar.c:339-346 | the C arithmetic `>> 1` halves rounding down: twice the result is the operand or one less |
| AtariAes.WithDisabled | atari/toolbar.c:349-356 | OS_DISABLED is set iff the object is to be disabled; every other ob_state bit is preserved |
| AtariToolbar.UpdatedButtons | atari/toolbar.c:398-451 | a selected button (the named one, or all four refreshed ones when button <= 0) is on iff its engine predicate holds and keeps every other field; every other button, HOME included, is unchanged |
| AtariToolbar.NextFrame | atari/toolbar.c:526-542 | a running frame advances by one and wraps from 12 back to 1, so it stays in 1..12 |
| AtariToolbar.FrameAfterCycles | atari/toolbar.c:526-542 | n progress ticks from frame i show frame ((i - 1 + n) mod 12) + 1 |
| AtariToolbar.ThrobberPeriod | atari/toolbar.c:61-63 | twelve ticks return a running throbber to its frame, and no number of ticks ever reaches the inactive frame 13 |
| AtariToolbar.ApplyButtonStates | atari/toolbar.c:349-356 | mirroring button states never changes the size of the tree |
| AtariToolbar.ApplyButtonStatesHit | atari/toolbar.c:349-356 | each button's object takes OS_DISABLED iff the button is off, other flags kept |
| AtariToolbar.ApplyButtonStatesMiss | atari/toolbar.c:349-356 | objects that belong to no button are not touched by the state loop |
| AtariToolbar.ApplyButtonStatesKeepsGeometry | atari/toolbar.c:349-356 | the state loop changes only ob_state, never a position or a size |
| AtariToolbar.ReflowLayout | atari/toolbar.c:317-332 | after reflow the root has the toolbar's area, the throbber area's x is w minus its width, the URL width is w - (nav width + throbber width + 1), and the navigation area is untouched |
| AtariToolbar.ReflowButtonState | atari/toolbar.c:349-356 | after reflow a button's object is disabled iff the button is off, with its other flags and its geometry kept |
| AtariToolbar.ReflowUntouched | atari/toolbar.c:317-359 | reflow touches only the root, the throbber area, the URL area and the button objects |
| AtariToolbar.ThrobberCentred | atari/toolbar.c:335-346 | the current throbber frame is centred in the throbber area: its left and right margins differ by at most one |
| AtariToolbar.TableFacts | atari/toolbar.c:120-152 | the button table holds BACK, HOME, FORWARD, STOP and RELOAD with distinct positive ids, ended by a non-positive sentinel |
| AtariToolbar.CountButtons | atari/toolbar.c:275-280 | the button count is the index of the first table entry whose rsc_id is not positive |
| AtariToolbar.Toolbar.IdsOk | atari/toolbar.c:120-152 | a valid toolbar's buttons have distinct ids inside the button part of the tree, in table order |
| AtariToolbar.Toolbar.constructor | atari/toolbar.c:259-307 | btcnt is the count before the sentinel; each button is its table entry with owner := tb and width icon_width + 2*button_vmargin (32); the area height and the throbber come from the default style; the throbber starts stopped on frame 13 with max index 12; the URL area starts 300 wide and 22 high |
| AtariToolbar.Toolbar.ButtonInit | atari/toolbar.c:226-236 | button `index` becomes a copy of its table entry owned by the toolbar and as wide as an icon plus two vertical margins; no other button changes |
| AtariToolbar.Toolbar.FindButton | atari/toolbar.c:191-201 | returns the first of the first btcnt buttons with the id, or -1 (NULL) exactly when none of them has it; reads no button past btcnt |
| AtariToolbar.Toolbar.Reflow | atari/toolbar.c:317-359 | the AES tree becomes ReflowTree of the old tree, the throbber form gets the centred frame, and reflow ends false |
| AtariToolbar.Toolbar.LayOutAreas | atari/toolbar.c:324-332 | the root, throbber-area and URL-area stores, as ReflowGeometry |
| AtariToolbar.Toolbar.PositionThrobberFrame | atari/toolbar.c:335-346 | the three stores into the current throbber frame, as PlaceThrobber |
| AtariToolbar.Toolbar.MirrorButton | atari/toolbar.c:350-355 | one pass of the state loop: button i's object gets OS_DISABLED iff the button is off, with its other flags kept, and no other object changes |
| AtariToolbar.Toolbar.MirrorButtonStates | atari/toolbar.c:349-356 | the state loop over btcnt buttons, as ApplyButtonStates |
| AtariToolbar.Toolbar.GetGrect | atari/toolbar.c:706-718 | reflows first exactly when reflow is pending, leaves the trees alone otherwise, and returns the object's absolute rectangle |
| AtariToolbar.Toolbar.ScheduleRedraw | atari/toolbar.c:706-718 | toolbar_get_grect followed by one redraw request for that rectangle, appended to the log |
| AtariToolbar.Toolbar.RefreshButton | atari/toolbar.c:409-417 | one refresh block: the button found by id is switched on iff the predicate holds and nothing else changes |
| AtariToolbar.RefreshBlocksUpdate | atari/toolbar.c:398-451 | the BACK, FORWARD, RELOAD and STOP blocks, applied in source order, give exactly UpdatedButtons of the row, HOME included |
| AtariToolbar.Toolbar.RefreshBlock | atari/toolbar.c:409-417 | one `button == id \|\| button <= 0` block: when selected, only that button's state changes, to on iff its engine predicate holds |
| AtariToolbar.Toolbar.RefreshAll | atari/toolbar.c:398-451 | the four refresh blocks together give UpdatedButtons of the old row |
| AtariToolbar.Toolbar.UpdateButtons | atari/toolbar.c:398-463 | the buttons become UpdatedButtons of the old row; when attached, one redraw of the named button (or of the navigation area for "all") is requested after any pending reflow; when detached nothing else changes |
| AtariToolbar.Toolbar.TextRequestRedraw | atari/toolbar.c:206-223 | detached, nothing changes; attached, any pending reflow happens and one redraw is logged: the URL area's absolute rectangle moved by the reported offset, with the reported size, each stored as a 16-bit word |
| AtariToolbar.TextRedrawInsideUrlArea | atari/toolbar.c:206-223 | a reported rectangle that lies within the field schedules a redraw inside the URL area's rectangle |
| AtariToolbar.Toolbar.TextResizeRedraws | atari/toolbar.c:474-477 | the redraw requests the resized text area reports, each through tb_txt_request_redraw in order: while attached the log grows by their rectangles in the URL area, detached it is unchanged, and neither tree changes |
| AtariToolbar.Toolbar.Resize | atari/toolbar.c:469-477 | the size-changed branch: the area is stored, the tree and throbber are reflowed, the URL field gets the URL area's width and height 20, and the text area's redraws are logged |
| AtariToolbar.Toolbar.SetDimensions | atari/toolbar.c:466-486 | the new area is always stored and reflow ends true; reflow and the URL resize (to the new URL width and height 20) happen now exactly when the width or height changed; then, while attached, each rectangle the text area reports adds its redraw of part of the URL area, in order, and otherwise the redraw log is unchanged |
| AtariToolbar.Toolbar.SetThrobberState | atari/toolbar.c:504-518 | running := active and index := 1 when active, 13 otherwise; other throbber fields kept; the throbber area is reflowed and one redraw of it requested |
| AtariToolbar.Toolbar.SetAttached | atari/toolbar.c:520-524 | stores the attached flag |
| AtariToolbar.Toolbar.ThrobberProgress | atari/toolbar.c:526-542 | a stopped throbber is left alone; a running one moves to NextFrame of its index, stays in 1..12, and is reflowed and redrawn once |
| AtariToolbar.Toolbar.MouseInputButton | atari/toolbar.c:684-693 | a callback runs exactly when some button has the clicked id and is not off; then every button is refreshed from the engine, and, as in toolbar_update_buttons, the trees change only through a pending reflow and one redraw of the navigation area is requested, both only when attached; otherwise nothing changes |
| GtkMenus.PushEntry | frontends/gtk/scaffolding.c:1186-1200 | every non-NULL surface of the entry shows the entry's flag; every other widget keeps its state |
| GtkMenus.PushCommandsSnoc | frontends/gtk/scaffolding.c:1564-1591 | pushing one more command is one more PushEntry on top of the earlier pushes |
| GtkMenus.PushCommandsHit | frontends/gtk/scaffolding.c:1564-1591 | after pushing a list of commands, every surface of each pushed command shows that command's flag |
| GtkMenus.PushCommandsMiss | frontends/gtk/scaffolding.c:1564-1591 | a widget that is no surface of a pushed command keeps its state, or stays absent |
| GtkMenus.PushCommandsIdempotent | frontends/gtk/scaffolding.c:1564-1591 | pushing the same commands again changes nothing |
| GtkMenus.PopupDistinctFacts | frontends/gtk/scaffolding.c:1595-1604 | with distinct popup items, customise belongs to no other group and copy, cut and paste are three different widgets |
| GtkMenus.SetVisible | frontends/gtk/scaffolding.c:120-154 | each listed widget gets the new visibility; every other widget keeps its state |
| GtkMenus.GroupVisibility | frontends/gtk/scaffolding.c:120-199 | exactly the items of the selected groups take the new visibility; all other widgets keep theirs |
| GtkMenus.AnyEditAction | frontends/gtk/scaffolding.c:295-325 | some edit action is enabled iff an editable widget has focus or the editor flags grant copy, cut or paste |
| GtkMenus.EditActionsIgnoreOtherBits | frontends/gtk/scaffolding.c:313-322 | editor flag bits other than CAN_COPY, CAN_CUT and CAN_PASTE never change the outcome |
| GtkMenus.DecoratedTitle | frontends/gtk/scaffolding.c:1403-1409 | the formatted window title ends in " - NetSurf", and stripping that suffix gives the page title back |
| GtkMenus.AsWrittenBackgroundTabResetsTitle | frontends/gtk/scaffolding.c:1389-1393 | as written, a tab that is not the top level with an empty or NULL title overwrites the window title with "NetSurf" |
| GtkMenus.AsWrittenTopLevelKeepsStaleTitle | frontends/gtk/scaffolding.c:1389-1393 | as written, the top-level tab losing its title leaves the previous title on the window |
| GtkMenus.BackgroundTabKeepsTitle | frontends/gtk/scaffolding.c:1398-1401 | a gui_window that is not the top level never changes the window title |
| GtkMenus.TopLevelTitle | frontends/gtk/scaffolding.c:1383-1414 | for the top level, the window title is the page title plus suffix (stripping the suffix gives the page title back), "NetSurf" when there is no title, and unchanged when the allocation fails |
| GtkMenus.TitleVersionsAgreeOnNonEmpty | frontends/gtk/scaffolding.c:1396-1414 | the corrected title rule differs from the code as written only for an empty or NULL title |
| GtkScaffolding.WithSensitivityKeepsSurfaces | frontends/gtk/scaffolding.c:51-60 | changing a command's sensitivity never makes two commands share a widget |
| GtkScaffolding.Scaffold.constructor | frontends/gtk/scaffolding.c:1656-1738 | the widget part of creation: the scaffold holds the menus and popup items the builder produced and is unlinked; the sensitivity push that follows is made by NewScaffolding |
| GtkScaffolding.Scaffold.SetCommand | frontends/gtk/scaffolding.c:1421-1427 | one `menus[i].sensitivity` store; nothing else in the table changes |
| GtkScaffolding.Scaffold.PushOne | frontends/gtk/scaffolding.c:1186-1200 | command i's flag is pushed onto its non-NULL surfaces, as PushEntry |
| GtkScaffolding.Scaffold.PushListed | frontends/gtk/scaffolding.c:1567-1577 | one SENSITIVITY(q) block extends the push of the list by one command |
| GtkScaffolding.Scaffold.SetSensitivity | frontends/gtk/scaffolding.c:1564-1591 | the ten listed commands are pushed in source order, so every surface of each of them shows its flag, and no other widget changes |
| GtkScaffolding.Scaffold.ListedShow | frontends/gtk/scaffolding.c:1564-1591 | after the ten pushes every listed command's surfaces show its flag |
| GtkScaffolding.Scaffold.MenuSetSensitivity | frontends/gtk/scaffolding.c:1183-1204 | every command from BACK_BUTTON to PLACEHOLDER_BUTTON is pushed, then the images item is forced insensitive |
| GtkScaffolding.Scaffold.UpdateContext | frontends/gtk/scaffolding.c:270-285 | BACK and FORWARD take the history's availability, the listed commands are pushed, and both show their new flags |
| GtkScaffolding.Scaffold.Throbber | frontends/gtk/scaffolding.c:1418-1431 | STOP follows active and RELOAD its negation; BACK and FORWARD follow the history; no other command changes; all four show their flags |
| GtkScaffolding.Scaffold.UpdateEditActions | frontends/gtk/scaffolding.c:295-325 | with an editable focus copy = cut = has_selection and paste = true, otherwise each follows its CAN_* bit; no other command changes; the result is the OR of the three |
| GtkScaffolding.Scaffold.PopupMenuHide | frontends/gtk/scaffolding.c:120-154 | exactly the items of the selected groups become hidden |
| GtkScaffolding.Scaffold.PopupMenuShow | frontends/gtk/scaffolding.c:166-199 | exactly the items of the selected groups become shown |
| GtkScaffolding.Scaffold.EnableEditActions | frontends/gtk/scaffolding.c:335-344 | copy, cut and paste become sensitive and no other command changes; the listed commands are pushed; only the popup's cut/copy/paste items are shown |
| GtkScaffolding.Scaffold.TabsChanged | frontends/gtk/scaffolding.c:407-428 | both tabs menu items and NEXTTAB, PREVTAB and CLOSETAB follow the notebook's show-tabs setting; no other command changes |
| GtkScaffolding.Scaffold.ToolbarContextMenu | frontends/gtk/scaffolding.c:1595-1604 | the submenus and cut/copy/paste items end hidden, customise ends shown, and no other widget changes |
| GtkScaffolding.Scaffold.ShowSensitiveEditItems | frontends/gtk/scaffolding.c:1627-1643 | each of the copy, cut and paste popup items ends visible iff its command is sensitive |
| GtkScaffolding.Scaffold.ContextMenu | frontends/gtk/scaffolding.c:1608-1652 | over a link nothing changes; otherwise the edit actions are recomputed, copy, cut and paste end visible iff sensitive, and customise ends hidden |
| GtkScaffolding.Scaffold.SetTopLevel | frontends/gtk/scaffolding.c:1536-1560 | gw becomes the top level; BACK and FORWARD follow its history and the listed commands are pushed; the window title becomes the corrected title rule's result for the top level (see Findings) |
| GtkScaffolding.Scaffold.SetTitle | frontends/gtk/scaffolding.c:1383-1414 | the window title becomes WindowTitle of the old one: only the top level sets it, to the decorated title or to "NetSurf" when the title is empty |
| GtkScaffolding.Registry.constructor | frontends/gtk/scaffolding.c:97-102 | the list starts empty, with no current scaffold and the browser not complete |
| GtkScaffolding.BuildScaffold | frontends/gtk/scaffolding.c:1026-1027 | a fresh unlinked scaffold whose popup has only the submenu items and the customise item hidden, and whose sensitivity is every command pushed onto its surfaces with the images item insensitive (nsgtk_menus_create, lines 1236-1243) |
| GtkScaffolding.LinkedAfterPush | frontends/gtk/scaffolding.c:1745-1751 | putting a scaffold not in the list before the old head, with the old head's prev pointing to it, gives a well-linked list headed by it |
| GtkScaffolding.LinkedAfterUnlink | frontends/gtk/scaffolding.c:221-229 | once the removed scaffold's neighbours point at each other and the head moves past it if it was the head, the list without it is well linked |
| GtkScaffolding.Registry.NewScaffolding | frontends/gtk/scaffolding.c:1739-1751 | a widget failure returns NULL and links nothing; otherwise the popup's submenu items and customise item start hidden and nothing else has a visibility (the popup builder ends with popup_menu_hide, lines 1026-1027), every command of the new scaffold has been pushed onto its surfaces and the images item is insensitive (nsgtk_menus_create, lines 1239-1243), the new scaffold is the head, its prev is NULL, its next is the old head (whose prev now points to it), the list is the new scaffold followed by the old list, and no existing scaffold changes anything but its links |
| GtkScaffolding.Registry.WindowDestroy | frontends/gtk/scaffolding.c:213-236 | exactly the destroyed scaffold leaves the list, its neighbours are linked to each other, the head moves if it was the head, and complete becomes true once the list is empty; no scaffold changes anything but its links, and scaf_current is kept |
| GtkScaffolding.Registry.Iterate | frontends/gtk/scaffolding.c:1492-1498 | NULL yields the head (NULL for an empty list); a scaffold yields the next one in the list, NULL after the last |
| GtkScaffolding.Registry.Current | frontends/gtk/scaffolding.c:1365-1371 | returns scaf_current, first set to the head when it was NULL |
| GtkScaffolding.Registry.DestroyAll | frontends/gtk/scaffolding.c:1435-1452 | with a download in progress the list, the head, complete and scaf_current are unchanged and the result is INVALID; otherwise every window is destroyed, the list ends empty, complete is true and the result is OK; in both cases scaf_current is kept and no scaffold changes anything but its links |
| GtkScaffolding.Registry.TabsRemove | frontends/gtk/scaffolding.c:441-470 | nothing changes while the window is in destruction; removing the last page destroys the window, whose own menus, sensitivities and visibilities are left as they were; otherwise the tab items and commands follow the show-tabs setting; scaf_current is kept and no other scaffold changes anything but its links |

## Left out

- `toolbar_redraw` and all drawing: rendering. Redraw requests, including those `tb_txt_request_redraw` makes for the URL text area, are a ghost log of rectangles.
- `toolbar_key_input`, the URL-area branch of `toolbar_mouse_input` (the `graf_mkstate` drag loop), and the URL text area itself: foreign textarea, clipboard and input calls. The model keeps only the URL area's width and height, and the rectangles the text area reports through its redraw callback when `toolbar_set_dimensions` resizes it are an input of `SetDimensions`. For the same reason `toolbar_set_url`, `toolbar_text_input`, `toolbar_get_textarea` and `toolbar_icon_callback` are left out.
- `toolbar_init`, `toolbar_exit` and `toolbar_destroy`: resource lookup and freeing. The two AES trees are constructor arguments.
- The click callbacks (`toolbar_back_click` and the rest) are calls into the history and browser engine. `AtariToolbar.Toolbar.MouseInputButton` returns the id of the button whose callback runs and takes the engine's availability after the callback as an input.
- The engine predicates behind `toolbar_update_buttons` (`browser_window_back_available` and the rest) are the input record `Availability`.
- `objc_offset` walks the AES tree's sibling/child links. `AtariAes.ObjcOffset` walks an abstract parent index instead, which precedes its child.
- AtariToolbar.Toolbar.ThrobberProgress: the source asserts that the throbber is running. The model follows a release build and makes a stopped throbber a no-op instead of requiring `running`.
- AtariToolbar.Toolbar.SetThrobberState: the source sets `reflow` and then calls `toolbar_get_grect`, which reflows at once, so `reflow` ends false rather than true. The same holds in `ThrobberProgress`.
- Buttons in a state other than on or off do not exist: the source's state enum has exactly these two values.
- GTK widget construction and signal wiring (the widget-building part of `nsgtk_menus_create` and `nsgtk_new_scaffolding_popup`, `nsgtk_menu_initialise`, the link popup, the builder, search bar creation): foreign toolkit calls. A scaffold is built from the widget ids they would produce, and `widgetsOk` stands for their failure. The last steps of those two builders, `popup_menu_hide` and `nsgtk_menu_set_sensitivity`, are modelled and run in `NewScaffolding`.
- The `MENUHANDLER` handlers, the link-popup handlers and the search bar: they forward to engine, hotlist and clipboard calls.
- `nsgtk_window_edit_menu_shown`, `nsgtk_window_edit_menu_hidden` and `nsgtk_window_popup_menu_hidden` only call `UpdateEditActions` or `EnableEditActions`, which are modelled.
- `browser_window_search_clear` (called by `nsgtk_scaffolding_set_top_level`), `nsgtk_scaffolding_toolbars`, `nsgtk_tab_set_title`, `browser_window_refresh_url_bar`, `nsgtk_local_history_hide` and `nsgtk_menu_popup_at_pointer`: toolkit or engine calls with no effect on the modelled state.
- Signals become direct calls: `gtk_widget_destroy` reaches `scaffolding_window_destroy` through the destroy signal, and `DestroyAll` and `TabsRemove` call `WindowDestroy` directly.
- GtkScaffolding.Registry.WindowDestroy: the source never resets `scaf_current` when the current scaffold is destroyed, so it can be left pointing at an unlinked scaffold. The model keeps that behaviour and does not state a property about it.
- GtkScaffolding.Registry.DestroyAll: the source asserts a non-empty list, which the model states as a precondition.
- GtkScaffolding.Scaffold.UpdateEditActions: the source returns a `guint`, the OR of three booleans. The model returns a `bool`.
- GtkScaffolding.Scaffold.SetTitle: models the corrected empty-title branch described under Findings, and does not model the tab label.
- GtkScaffolding.Scaffold.SetTopLevel: its title step is SetTitle, so for a newly visible tab whose page has no title it shows "NetSurf" (the corrected rule) where the code as written keeps the stale title.
- Window sizing from options and the search-bar style are toolkit configuration with no stated behaviour.
- `amiga/gui.h` holds only declarations, with no behaviour to model.

## Findings

| source | as written | input that shows it | evidently intended | confidence | as-written member | corrected member |
|---|---|---|---|---|---|---|
| frontends/gtk/scaffolding.c:1389-1393 | an empty or NULL title sets the window title to "NetSurf" only when `gs->top_level != gw` | a background tab whose page has no title, while the visible tab shows "Example - NetSurf": the window title becomes "NetSurf"; and the visible tab losing its title keeps the stale one | only the top-level gui_window sets the window title (as the non-empty branch does at lines 1398-1401), so the test should be `gs->top_level == gw` | medium; not executed | GtkMenus.WindowTitleAsWritten, GtkMenus.AsWrittenBackgroundTabResetsTitle | GtkMenus.WindowTitle, GtkMenus.BackgroundTabKeepsTitle, GtkScaffolding.Scaffold.SetTitle, GtkScaffolding.Scaffold.SetTopLevel |
