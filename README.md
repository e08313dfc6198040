# Recovery menu device model

A Dafny model of the device-control object of the Android recovery UI
(`recovery_ui/device.cpp`). The model covers:

- the seven fixed menus (Main, Advanced, Wipe, Diagnostics, Diagnostics-Kernel,
  Reboot and Samsung), each a header and an ordered list of (label, action)
  entries;
- the navigation state: which menu is current, and the cached copy of its
  labels that the UI displays;
- the operations that change that state: construction, `GoHome`, the removal
  of an action from every submenu, and invoking an entry, which may open a
  submenu;
- the two pure queries, the header lookup and the translation of a key press
  into a navigation intent.

Modules:

- `menu_catalog.dfy` (`MenuCatalog`) holds the static side:
  - the menu and action enumerations, and the leaf/marker split of actions
    (`IsMarker` stands for the `action > MENU_BASE` test);
  - the seven tables, exactly as the source lists them;
  - the label list of a menu (`Labels`), and the order-preserving filter that
    removal applies (`Without`);
  - the marker-to-submenu switch (`Submenu`) and its inverse (`MarkerFor`), and
    the header if-chain (`HeaderLookup`);
  - lemmas about all of these.
- `device.dfy` (`RecoveryDevice`) holds the class `Device`:
  - the seven menus are fields, because removal edits six of them in place;
  - `current` is the current menu and `items` the labels cache;
  - its methods are the source's mutating operations. `Valid()` says no menu
    is empty. `Synced()` says the cache holds the current menu's labels.
  - A scenario method shows a device straight after construction, and a lemma shows the one removal that aborts from startup.
- `key_translator.dfy` (`KeyTranslator`) holds `HandleMenuKey`, a stateless
  total function, and `KeyGroup`, an independent table of the keys bound to
  each intent. It also holds the lemmas tying the two together: every bound
  key gives its group's intent, no key is in two groups, and unlisted keys fall
  back on the button count.

The source keeps the navigation state in file-scope variables. Here that state
lives in one `Device` object. The source's enumerator `REBOOT` is named
`RebootSystem`, because `Reboot` names the menu.

## Model

| member | source | states |
|---|---|---|
| RecoveryDevice.Device.constructor | recovery_ui/device.cpp:32-104 | the seven menus hold exactly the source's tables, Main is current, the cache holds Main's labels (`Synced`), and no menu is empty (`Valid`) |
| RecoveryDevice.Device.PopulateMenuItems | recovery_ui/device.cpp:95-99 | the loop that clears and refills the cache leaves it equal to the labels of the current menu, in order, which is the recursive `Labels` of its entries |
| RecoveryDevice.Device.GoHome | recovery_ui/device.cpp:106-109 | afterwards Main is current and the cache holds Main's labels |
| RecoveryDevice.Device.RemoveMenuItemForAction | recovery_ui/device.cpp:119-126 | each of the six submenus becomes the order-preserving filter of its old entries by `action != a`. Main, the current menu and the cache are outside the frame. No menu is left empty. The cache stays in step when removal runs while Main is current. It requires that no submenu would be emptied, which the source checks fatally. |
| RecoveryDevice.Device.GetMenuItems | recovery_ui/device.cpp:128-130 | when the cache is in step, the shown list has one label per entry of the current menu, and label i is the text of entry i |
| RecoveryDevice.Device.GetMenuHeaders | recovery_ui/device.cpp:132-140 | the header paired with the current menu in the catalog, which is empty exactly when Main is current |
| RecoveryDevice.Device.InvokeMenuItem | recovery_ui/device.cpp:142-171 | it returns the action at the given position of the current menu and moves to `NextMenu` of it. A leaf leaves both the menu and the cache unchanged. A marker refreshes the cache to the new current menu's labels, even a marker with no case. |
| RecoveryDevice.InvokeApplyUpdate | recovery_ui/device.cpp:33-34 | from startup, invoking Main's second entry returns APPLY_UPDATE and the UI still shows Main's labels |
| RecoveryDevice.Device.RemovalKeepsMenus | recovery_ui/device.cpp:111-126 | the removal passes the emptiness check on all six submenus exactly when every submenu holds an entry whose action is not a |
| RecoveryDevice.Device.FirstEntryInvocable | recovery_ui/device.cpp:142-144 | while no menu is empty, position 0 is a valid position of every menu, the current one included, so the first entry can always be invoked |
| RecoveryDevice.SamsungRestoreRemovalAborts | recovery_ui/device.cpp:88-90 | while the Samsung menu is as at startup, removing SAMSUNG_DISABLE_RECOVERY_RESTORE empties it, so the removal precondition fails (the source aborts at line 116) |
| MenuCatalog.IsMarker | recovery_ui/device.cpp:145 | an action is above the menu threshold exactly when it opens a submenu or is a marker without a case; the threshold itself is not above it |
| MenuCatalog.Header | recovery_ui/device.cpp:32-88 | the header of Main is empty and every submenu has a one-line header |
| MenuCatalog.InitialEntries | recovery_ui/device.cpp:32-90 | no menu starts empty |
| MenuCatalog.MainEntries | recovery_ui/device.cpp:33-39 | Main starts with six entries |
| MenuCatalog.AdvancedEntries | recovery_ui/device.cpp:42-53 | Advanced starts with ten entries |
| MenuCatalog.WipeEntries | recovery_ui/device.cpp:56-60 | Wipe starts with three entries |
| MenuCatalog.DiagEntries | recovery_ui/device.cpp:63-71 | Diagnostics starts with seven entries |
| MenuCatalog.DiagKernelEntries | recovery_ui/device.cpp:74-78 | Diagnostics-Kernel starts with three entries |
| MenuCatalog.RebootEntries | recovery_ui/device.cpp:81-86 | Reboot starts with four entries |
| MenuCatalog.SamsungEntries | recovery_ui/device.cpp:89-90 | Samsung starts with a single entry |
| MenuCatalog.DeadEndMenus | recovery_ui/device.cpp:56-90 | every initial entry of Wipe, Diagnostics-Kernel, Reboot and Samsung is a leaf, so invoking it keeps the menu |
| MenuCatalog.HeaderLookup | recovery_ui/device.cpp:132-140 | the if-chain over the six submenus agrees with the header table `Header` for every menu, and yields the empty Main header exactly for Main |
| MenuCatalog.Labels | recovery_ui/device.cpp:95-99 | one label per entry |
| MenuCatalog.LabelsAt | recovery_ui/device.cpp:95-99 | label i of a menu is the text of its entry i |
| MenuCatalog.Submenu | recovery_ui/device.cpp:145-168 | a submenu that an action opens is never Main, and the action is that submenu's own marker |
| MenuCatalog.NextMenu | recovery_ui/device.cpp:145-168 | the menu after invoking a is the menu whose marker a is, and otherwise the current menu; a change of menu is always to a submenu, caused by a marker |
| MenuCatalog.Without | recovery_ui/device.cpp:111-115 | removal never lengthens a menu; with `WithoutMembers`, `WithoutIsSubsequence` and `WithoutLength` it is the order-preserving filter by `action != a` |
| MenuCatalog.WithoutEmpty | recovery_ui/device.cpp:111-116 | removal empties a menu exactly when every entry of it carries the action, which is when the check aborts |
| MenuCatalog.WithoutMembers | recovery_ui/device.cpp:111-115 | an entry survives removal of a exactly when it was in the menu and its action is not a |
| MenuCatalog.WithoutKeepsOther | recovery_ui/device.cpp:111-117 | a menu that has an entry with another action is not emptied, so the abort does not fire for it |
| MenuCatalog.WithoutAppend | recovery_ui/device.cpp:111-115 | removal distributes over concatenation, so no entry moves past another |
| MenuCatalog.WithoutIsSubsequence | recovery_ui/device.cpp:111-115 | the result of removal is a subsequence of the old menu, so relative order is kept |
| MenuCatalog.WithoutLength | recovery_ui/device.cpp:111-115 | removal deletes exactly as many entries as carry the action |
| MenuCatalog.WithoutUnchanged | recovery_ui/device.cpp:111-115 | removal leaves a menu unchanged exactly when no entry carries the action |
| MenuCatalog.OccurrencesPositive | recovery_ui/device.cpp:111-115 | the count of an action is positive exactly when some entry carries it |
| MenuCatalog.WithoutIdempotent | recovery_ui/device.cpp:111-115 | removing the same action twice removes nothing more |
| MenuCatalog.WithoutCommutes | recovery_ui/device.cpp:119-126 | removals of two actions can be made in either order |
| MenuCatalog.MarkerRoundTrip | recovery_ui/device.cpp:145-168 | every submenu has a marker that opens it, and Main has none |
| MenuCatalog.CacheAfterRemoval | recovery_ui/device.cpp:119-126 | a cache built from a menu before removal still matches it afterwards exactly when the menu was not filtered (Main) or held no entry with the action |
| MenuCatalog.WithoutKeepsLabels | recovery_ui/device.cpp:111-115 | removal keeps a menu's labels exactly when no entry carries the action |
| MenuCatalog.SubmenusReachable | recovery_ui/device.cpp:33-90 | every submenu is opened by some entry of Main, or, for Diagnostics-Kernel, of Diagnostics |
| KeyTranslator.HandleMenuKey | recovery_ui/device.cpp:173-235 | a hidden menu yields no action for any key; an unlisted key while visible yields the fallback |
| KeyTranslator.Fallback | recovery_ui/device.cpp:230-233 | no action exactly when the device has three buttons, and otherwise highlight-down |
| KeyTranslator.BoundIffListed | recovery_ui/device.cpp:178-234 | a key is in some intent's group exactly when it is one of the listed codes |
| KeyTranslator.GroupAgrees | recovery_ui/device.cpp:178-228 | every key of an intent's group is translated to that intent while visible |
| KeyTranslator.HighlightDownGroup | recovery_ui/device.cpp:179-185 | the six highlight-down keys give highlight-down |
| KeyTranslator.HighlightUpGroup | recovery_ui/device.cpp:187-192 | the five highlight-up keys give highlight-up |
| KeyTranslator.InvokeItemGroup | recovery_ui/device.cpp:206-212 | the six select keys give invoke-item |
| KeyTranslator.KeyGroupsDisjoint | recovery_ui/device.cpp:178-228 | no key is bound to two intents |
| KeyTranslator.HandleMenuKeyMatchesTable | recovery_ui/device.cpp:173-235 | while visible, a key gives intent i exactly when it is in i's group, or it is unlisted and i is the fallback |
| KeyTranslator.ListedKeysIgnoreButtons | recovery_ui/device.cpp:178-229 | the intent of a listed key does not depend on the button count |
| KeyTranslator.NoKeyIgnoredWithoutThreeButtons | recovery_ui/device.cpp:230-233 | without three buttons no key is ignored while visible |

## Left out

- `diag/diag.cpp` and `diag/include/diag/diag.h`: they read system properties, print through the UI and run shell commands, which is all I/O against the host.
- `SetBootState`, `GetReason` and `GetStage`: they wrap an external boot-state object that is not part of this model.
- `ui->SetDevice(this)` in the constructor is a call into the UI and is left out. `ui_->HasThreeButtons()` becomes the `hasThreeButtons` parameter of `HandleMenuKey`.
- The numeric values of the actions, of `MENU_BASE`, of the intents and of the key codes are not modelled. Only the leaf/marker split and the key-to-intent mapping are kept. `OtherLeaf` and `OtherMarker` stand for enumerators that no menu uses, their `code` telling such enumerators apart, and `Other` stands for any unlisted key code.
- The fatal `CHECK(!menu.empty())` in the one-menu removal helper is modelled as the precondition `RemovalKeepsMenus` of the public removal. The helper itself is the `Without` filter and is not a method of its own.
- RecoveryDevice.Device.constructor: it stands for process start (the static initialisation of the tables and of `current_menu_`) together with the first construction. A later construction in the source keeps earlier removals and the current menu and only rebuilds the cache; the model does not capture a second construction.
- MenuCatalog.MainEntries: its contract states the length only; the labels and actions are its body, which the constructor's contract equates to the starting menu.
- MenuCatalog.AdvancedEntries: its contract states the length only; the labels and actions are its body, which the constructor's contract equates to the starting menu.
- MenuCatalog.WipeEntries: its contract states the length only; the labels and actions are its body, which the constructor's contract equates to the starting menu.
- MenuCatalog.DiagEntries: its contract states the length only; the labels and actions are its body, which the constructor's contract equates to the starting menu.
- MenuCatalog.DiagKernelEntries: its contract states the length only; the labels and actions are its body, which the constructor's contract equates to the starting menu.
- MenuCatalog.RebootEntries: its contract states the length only; the labels and actions are its body, which the constructor's contract equates to the starting menu.
- MenuCatalog.SamsungEntries: its contract states the length only; the labels and actions are its body, which the constructor's contract equates to the starting menu.
- Nothing guards the source's `InvokeMenuItem` position. The model requires the position to be in range.
- The source's menus are `std::vector`s that removal erases from in place. The model reassigns each field to its filtered value, and the address comparisons on `current_menu_` become comparisons of `MenuName` values.
- RecoveryDevice.Device.RemoveMenuItemForAction: its contract says the cache stays in step only while Main is current. For any other current menu, the exact condition is stated by `MenuCatalog.CacheAfterRemoval`, not by the method.
- A concrete walk into a submenu from startup is not included as a scenario. The general contracts of `InvokeMenuItem`, together with `NextMenu`, `SubmenusReachable` and `DeadEndMenus`, cover navigation.
