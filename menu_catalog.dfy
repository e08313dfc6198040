/**
 The static menu catalog of the recovery UI: the seven named menus, each a
 header plus an ordered list of (label, action) entries, the label list the
 UI displays for a menu, the order-preserving removal of one action from a
 menu, and the table that maps a menu-marker action to the submenu it opens.
 */
module MenuCatalog {

  datatype Option<T> = None | Some(value: T)

  /** The seven menus the device defines. */
  datatype MenuName = Main | Advanced | Wipe | Diag | DiagKernel | Reboot | Samsung

  /** The actions the menus name. The numeric values are not modelled; only the
      split into leaf actions and menu markers (values above MenuBase) is.
      OtherLeaf and OtherMarker stand for enumerators of the action type that
      no menu of this file uses, on either side of the threshold. */
  datatype BuiltinAction =
    // leaf actions
    | ApplyUpdate | EnterFastboot | MountSystem | ViewRecoveryLogs | EnableAdb
    | SwapSlot | RunGraphicsTest | RunLocaleTest | EnterRescue | Shutdown
    | WipeData | WipeCache | WipeSystem
    | DiagDeviceInfo | DiagSoftwareInfo | DiagCredits | DiagClear
    | DiagKernelUname | DiagKernelDmesg | DiagKernelCmdline
    | RebootSystem | RebootDownload | RebootRecovery | RebootBootloader
    | SamsungDisableRecoveryRestore
    | OtherLeaf(code: nat)
    // the threshold itself, which is not a marker
    | MenuBase
    // menu markers
    | MenuWipe | MenuAdvanced | MenuDiag | MenuDiagKernel | MenuReboot | MenuSamsung
    | OtherMarker(code: nat)

  /** The `action > MENU_BASE` test of the source: the markers are the actions
      that open a submenu, and the markers without a case. */
  predicate IsMarker(a: BuiltinAction): (r: bool)
    ensures r <==> a.OtherMarker? || Submenu(a).Some?
    ensures a == MenuBase ==> !r
  {
    a.MenuWipe? || a.MenuAdvanced? || a.MenuDiag? || a.MenuDiagKernel? ||
    a.MenuReboot? || a.MenuSamsung? || a.OtherMarker?
  }

  datatype Entry = Entry(text: string, action: BuiltinAction)

  /** The header shown above each menu. */
  function Header(m: MenuName): (r: seq<string>)
    ensures r == [] <==> m == Main
    ensures m != Main ==> |r| == 1
  {
    match m
    case Main => []
    case Advanced => ["Advanced options"]
    case Wipe => ["Factory reset"]
    case Diag => ["Diagnostic menu"]
    case DiagKernel => ["Kernel information"]
    case Reboot => ["Reboot options"]
    case Samsung => ["Samsung tools (OneUI only)"]
  }

  /** The entries each menu starts with. */
  function InitialEntries(m: MenuName): (r: seq<Entry>)
    ensures r != []
  {
    match m
    case Main => MainEntries()
    case Advanced => AdvancedEntries()
    case Wipe => WipeEntries()
    case Diag => DiagEntries()
    case DiagKernel => DiagKernelEntries()
    case Reboot => RebootEntries()
    case Samsung => SamsungEntries()
  }

  /** Main: six entries, all but "Apply update" opening a submenu. */
  function MainEntries(): (r: seq<Entry>)
    ensures |r| == 6
  {
    [ Entry("> Reboot", MenuReboot),
      Entry("> Apply update", ApplyUpdate),
      Entry("> Factory reset", MenuWipe),
      Entry("> Diagnostics", MenuDiag),
      Entry("> Samsung specific options", MenuSamsung),
      Entry("> Advanced", MenuAdvanced) ]
  }

  /** Advanced: ten entries, the first opening Reboot. */
  function AdvancedEntries(): (r: seq<Entry>)
    ensures |r| == 10
  {
    [ Entry("> Reboot", MenuReboot),
      Entry("Enter fastboot", EnterFastboot),
      Entry("Mount/unmount system", MountSystem),
      Entry("> View recovery logs", ViewRecoveryLogs),
      Entry("Enable ADB", EnableAdb),
      Entry("Switch slot", SwapSlot),
      Entry("Run graphics test", RunGraphicsTest),
      Entry("Run locale test", RunLocaleTest),
      Entry("Enter rescue", EnterRescue),
      Entry("Power off", Shutdown) ]
  }

  /** Wipe: three leaves. */
  function WipeEntries(): (r: seq<Entry>)
    ensures |r| == 3
  {
    [ Entry("Format data/factory reset", WipeData),
      Entry("Format cache partition", WipeCache),
      Entry("Format system partition", WipeSystem) ]
  }

  /** Diagnostics: seven entries; the third opens Diagnostics-Kernel and the sixth Reboot. */
  function DiagEntries(): (r: seq<Entry>)
    ensures |r| == 7
  {
    [ Entry("Print Device Information", DiagDeviceInfo),
      Entry("Print Software Information", DiagSoftwareInfo),
      Entry("> Kernel Information", MenuDiagKernel),
      Entry("Credits", DiagCredits),
      Entry("Clear Console", DiagClear),
      Entry("> Reboot", MenuReboot),
      Entry("Power off", Shutdown) ]
  }

  /** Diagnostics-Kernel: three leaves. */
  function DiagKernelEntries(): (r: seq<Entry>)
    ensures |r| == 3
  {
    [ Entry("Show kernel revision", DiagKernelUname),
      Entry("Dump kernel logs", DiagKernelDmesg),
      Entry("Show current cmdline", DiagKernelCmdline) ]
  }

  /** Reboot: four leaves. */
  function RebootEntries(): (r: seq<Entry>)
    ensures |r| == 4
  {
    [ Entry("Reboot to system", RebootSystem),
      Entry("Reboot to Download/ODIN", RebootDownload),
      Entry("Reboot to recovery", RebootRecovery),
      Entry("Reboot to bootloader", RebootBootloader) ]
  }

  /** Samsung: one leaf. */
  function SamsungEntries(): (r: seq<Entry>)
    ensures |r| == 1
  {
    [ Entry("Disable recovery restoration", SamsungDisableRecoveryRestore) ]
  }

  /** The header lookup: a chain of comparisons against the six submenus,
      falling back to the main menu's header. */
  function HeaderLookup(current: MenuName): (r: seq<string>)
    ensures r == Header(current)
    ensures r == [] <==> current == Main
  {
    if current == Wipe then ["Factory reset"]
    else if current == Advanced then ["Advanced options"]
    else if current == Diag then ["Diagnostic menu"]
    else if current == DiagKernel then ["Kernel information"]
    else if current == Reboot then ["Reboot options"]
    else if current == Samsung then ["Samsung tools (OneUI only)"]
    else []
  }

  /** The display labels of a menu, in order. */
  function Labels(entries: seq<Entry>): (r: seq<string>)
    ensures |r| == |entries|
  {
    if entries == [] then [] else [entries[0].text] + Labels(entries[1..])
  }

  /** The i-th label is the label of the i-th entry. */
  lemma {:induction false} LabelsAt(entries: seq<Entry>, i: nat)
    requires i < |entries|
    ensures Labels(entries)[i] == entries[i].text
  {
    if i > 0 {
      LabelsAt(entries[1..], i - 1);
    }
  }

  /** The entries of a menu that remain after erasing every entry whose action is a. */
  function Without(entries: seq<Entry>, a: BuiltinAction): (r: seq<Entry>)
    ensures |r| <= |entries|
  {
    if entries == [] then []
    else (if entries[0].action == a then [] else [entries[0]]) + Without(entries[1..], a)
  }

  /** How many entries of a menu carry action a. */
  function Occurrences(entries: seq<Entry>, a: BuiltinAction): nat {
    if entries == [] then 0
    else (if entries[0].action == a then 1 else 0) + Occurrences(entries[1..], a)
  }

  /** r is obtained from s by deleting elements, without reordering. */
  predicate IsSubsequence(r: seq<Entry>, s: seq<Entry>) {
    if r == [] then true
    else if s == [] then false
    else if r[0] == s[0] then IsSubsequence(r[1..], s[1..])
    else IsSubsequence(r, s[1..])
  }

  /** The submenu a marker opens; None for leaves and for markers without a case.
      A menu is only ever opened by its own marker. */
  function Submenu(a: BuiltinAction): (r: Option<MenuName>)
    ensures r.Some? ==> r.value != Main && MarkerFor(r.value) == Some(a)
  {
    match a
    case MenuWipe => Some(Wipe)
    case MenuAdvanced => Some(Advanced)
    case MenuDiag => Some(Diag)
    case MenuDiagKernel => Some(DiagKernel)
    case MenuReboot => Some(Reboot)
    case MenuSamsung => Some(Samsung)
    case _ => None
  }

  /** The marker that opens a submenu (the inverse of Submenu). */
  function MarkerFor(m: MenuName): Option<BuiltinAction> {
    match m
    case Main => None
    case Wipe => Some(MenuWipe)
    case Advanced => Some(MenuAdvanced)
    case Diag => Some(MenuDiag)
    case DiagKernel => Some(MenuDiagKernel)
    case Reboot => Some(MenuReboot)
    case Samsung => Some(MenuSamsung)
  }

  /** The menu that is current after invoking an entry with action a from menu
      current: the submenu whose marker a is, and otherwise current. */
  function NextMenu(current: MenuName, a: BuiltinAction): (r: MenuName)
    ensures forall m :: MarkerFor(m) == Some(a) ==> r == m
    ensures r == current || MarkerFor(r) == Some(a)
    ensures r != current ==> IsMarker(a) && r != Main
  {
    if IsMarker(a) then
      match Submenu(a)
      case Some(m) => m
      case None => current
    else current
  }

  // ----- lemmas about removal -----

  /** Removal keeps exactly the entries whose action differs from a. */
  lemma {:induction false} WithoutMembers(s: seq<Entry>, a: BuiltinAction, e: Entry)
    ensures e in Without(s, a) <==> e in s && e.action != a
  {
    if s != [] {
      WithoutMembers(s[1..], a, e);
      assert s == [s[0]] + s[1..];
    }
  }

  /** Some entry of the menu has an action other than a. */
  predicate HasOtherAction(s: seq<Entry>, a: BuiltinAction) {
    exists i :: 0 <= i < |s| && s[i].action != a
  }

  /** Removal empties a menu exactly when every entry of it carries a. */
  lemma {:induction false} WithoutEmpty(s: seq<Entry>, a: BuiltinAction)
    ensures Without(s, a) != [] <==> HasOtherAction(s, a)
  {
    if s != [] {
      WithoutEmpty(s[1..], a);
      assert forall i :: 1 <= i < |s| ==> s[i] == s[1..][i - 1];
    }
  }

  /** An entry whose action differs from a survives removal, so the menu does not empty. */
  lemma WithoutKeepsOther(s: seq<Entry>, a: BuiltinAction, i: nat)
    requires i < |s| && s[i].action != a
    ensures Without(s, a) != []
  {
    WithoutMembers(s, a, s[i]);
  }

  /** Removal distributes over concatenation: it never moves an entry across another. */
  lemma {:induction false} WithoutAppend(s: seq<Entry>, t: seq<Entry>, a: BuiltinAction)
    ensures Without(s + t, a) == Without(s, a) + Without(t, a)
  {
    if s == [] {
      assert s + t == t;
    } else {
      assert (s + t)[1..] == s[1..] + t;
      WithoutAppend(s[1..], t, a);
    }
  }

  /** The result of removal is a subsequence of the menu: relative order is kept. */
  lemma {:induction false} WithoutIsSubsequence(s: seq<Entry>, a: BuiltinAction)
    ensures IsSubsequence(Without(s, a), s)
  {
    if s != [] {
      var rest := Without(s[1..], a);
      WithoutIsSubsequence(s[1..], a);
      if s[0].action == a {
        assert Without(s, a) == rest;
        SubsequenceCons(rest, s[0], s[1..]);
        assert [s[0]] + s[1..] == s;
      } else {
        var r := [s[0]] + rest;
        assert Without(s, a) == r;
        assert r[0] == s[0] && r[1..] == rest;
      }
    }
  }

  lemma {:induction false} SubsequenceCons(r: seq<Entry>, x: Entry, s: seq<Entry>)
    requires IsSubsequence(r, s)
    ensures IsSubsequence(r, [x] + s)
    decreases |r| + |s|, 1
  {
    assert ([x] + s)[1..] == s;
    if r != [] && r[0] == x {
      SubsequenceDropHead(r, s);
    }
  }

  lemma {:induction false} SubsequenceDropHead(r: seq<Entry>, s: seq<Entry>)
    requires r != [] && IsSubsequence(r, s)
    ensures IsSubsequence(r[1..], s)
    decreases |r| + |s|, 0
  {
    assert [s[0]] + s[1..] == s;
    if r[0] == s[0] {
      SubsequenceCons(r[1..], s[0], s[1..]);
    } else {
      SubsequenceDropHead(r, s[1..]);
      SubsequenceCons(r[1..], s[0], s[1..]);
    }
  }

  /** Removal deletes exactly the entries carrying a. */
  lemma {:induction false} WithoutLength(s: seq<Entry>, a: BuiltinAction)
    ensures |Without(s, a)| + Occurrences(s, a) == |s|
  {
    if s != [] {
      WithoutLength(s[1..], a);
    }
  }

  /** An action that occurs nowhere in a menu leaves it unchanged, and conversely. */
  lemma {:induction false} WithoutUnchanged(s: seq<Entry>, a: BuiltinAction)
    ensures Without(s, a) == s <==> Occurrences(s, a) == 0
  {
    WithoutLength(s, a);
    if s != [] {
      WithoutUnchanged(s[1..], a);
      if s[0].action != a {
        assert Without(s, a) == [s[0]] + Without(s[1..], a);
        assert Without(s, a) == s ==> Without(s[1..], a) == s[1..] by {
          if Without(s, a) == s {
            assert Without(s, a)[1..] == s[1..];
          }
        }
        assert Occurrences(s, a) == 0 ==> Without(s, a) == s by {
          if Occurrences(s, a) == 0 {
            assert s == [s[0]] + s[1..];
          }
        }
      }
    }
  }

  /** An action occurs in a menu exactly when some entry carries it. */
  lemma {:induction false} OccurrencesPositive(s: seq<Entry>, a: BuiltinAction)
    ensures Occurrences(s, a) > 0 <==> exists i :: 0 <= i < |s| && s[i].action == a
  {
    if s != [] {
      OccurrencesPositive(s[1..], a);
      if Occurrences(s[1..], a) > 0 {
        var i :| 0 <= i < |s[1..]| && s[1..][i].action == a;
        assert s[i + 1].action == a;
      }
      assert forall i :: 1 <= i < |s| ==> s[i] == s[1..][i - 1];
    }
  }

  /** Removing the same action twice removes nothing more. */
  lemma {:induction false} WithoutIdempotent(s: seq<Entry>, a: BuiltinAction)
    ensures Without(Without(s, a), a) == Without(s, a)
  {
    if s != [] {
      WithoutIdempotent(s[1..], a);
      var head := if s[0].action == a then [] else [s[0]];
      WithoutAppend(head, Without(s[1..], a), a);
    }
  }

  /** Removals of two actions can be applied in either order. */
  lemma {:induction false} WithoutCommutes(s: seq<Entry>, a: BuiltinAction, b: BuiltinAction)
    ensures Without(Without(s, a), b) == Without(Without(s, b), a)
  {
    if s != [] {
      WithoutCommutes(s[1..], a, b);
      var head := if s[0].action == a then [] else [s[0]];
      WithoutAppend(head, Without(s[1..], a), b);
      var head' := if s[0].action == b then [] else [s[0]];
      WithoutAppend(head', Without(s[1..], b), a);
    }
  }

  // ----- lemmas about the catalog -----

  /** Each marker with a case opens the menu it names, and each submenu is opened by its marker. */
  lemma MarkerRoundTrip(m: MenuName)
    ensures m != Main ==> MarkerFor(m).Some? && Submenu(MarkerFor(m).value) == Some(m)
    ensures m == Main <==> MarkerFor(m) == None
  {
  }

  /** Labels cached for a menu stay those of the menu after removal exactly when the
      menu was left alone or no entry of it carries a. */
  lemma CacheAfterRemoval(cached: seq<string>, before: seq<Entry>, after: seq<Entry>,
                          a: BuiltinAction, untouched: bool)
    requires cached == Labels(before)
    requires after == if untouched then before else Without(before, a)
    ensures cached == Labels(after) <==> untouched || Occurrences(before, a) == 0
  {
    WithoutKeepsLabels(before, a);
  }

  /** Removal keeps the labels of a menu exactly when no entry of it carries a. */
  lemma {:induction false} WithoutKeepsLabels(s: seq<Entry>, a: BuiltinAction)
    ensures Labels(Without(s, a)) == Labels(s) <==> Occurrences(s, a) == 0
  {
    WithoutUnchanged(s, a);
    WithoutLength(s, a);
  }

  /** Every submenu is opened by an entry of Main, or (Diag-Kernel) of Diag. */
  lemma SubmenusReachable(m: MenuName)
    requires m != Main
    ensures exists i ::
              0 <= i < |InitialEntries(ParentOf(m))| &&
              Submenu(InitialEntries(ParentOf(m))[i].action) == Some(m)
  {
    var s := InitialEntries(ParentOf(m));
    match m
    case Reboot => assert s[0].action == MenuReboot; assert Submenu(s[0].action) == Some(m);
    case Wipe => assert s[2].action == MenuWipe; assert Submenu(s[2].action) == Some(m);
    case Diag => assert s[3].action == MenuDiag; assert Submenu(s[3].action) == Some(m);
    case Samsung => assert s[4].action == MenuSamsung; assert Submenu(s[4].action) == Some(m);
    case Advanced => assert s[5].action == MenuAdvanced; assert Submenu(s[5].action) == Some(m);
    case DiagKernel => assert s[2].action == MenuDiagKernel; assert Submenu(s[2].action) == Some(m);
  }

  /** Wipe, Diagnostics-Kernel, Reboot and Samsung hold only leaves, so invoking
      any of their initial entries never leaves the menu. */
  lemma DeadEndMenus(m: MenuName, i: nat)
    requires m == Wipe || m == DiagKernel || m == Reboot || m == Samsung
    requires i < |InitialEntries(m)|
    ensures !IsMarker(InitialEntries(m)[i].action)
    ensures NextMenu(m, InitialEntries(m)[i].action) == m
  {
    assert !IsMarker(InitialEntries(m)[i].action) by {
      match m
      case Wipe => assert i < 3;
      case DiagKernel => assert i < 3;
      case Reboot => assert i < 4;
      case Samsung => assert i == 0;
    }
  }

  /** The menu whose entries open m. */
  function ParentOf(m: MenuName): MenuName {
    if m == DiagKernel then Diag else Main
  }
}
