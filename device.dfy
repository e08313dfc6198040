/**
 The device-control object of the recovery UI: the seven menu tables (removal
 edits the six submenus in place), which menu is current, and the cached labels
 the UI displays for it. The source keeps this state in file-scope variables;
 here it is the state of one Device object.
 */
module RecoveryDevice {
  import opened MenuCatalog

  class Device {
    var main: seq<Entry>
    var advanced: seq<Entry>
    var wipe: seq<Entry>
    var diag: seq<Entry>
    var diagKernel: seq<Entry>
    var reboot: seq<Entry>
    var samsung: seq<Entry>
    /** The menu the UI shows. */
    var current: MenuName
    /** The cached labels of the current menu, rebuilt whenever the menu is switched. */
    var items: seq<string>

    /** The entries of menu m as they are now. */
    function Entries(m: MenuName): seq<Entry>
      reads this
    {
      match m
      case Main => main
      case Advanced => advanced
      case Wipe => wipe
      case Diag => diag
      case DiagKernel => diagKernel
      case Reboot => reboot
      case Samsung => samsung
    }

    /** No menu is empty. */
    ghost predicate Valid()
      reads this
    {
      main != [] && advanced != [] && wipe != [] && diag != [] && diagKernel != [] &&
      reboot != [] && samsung != []
    }

    /** The cached labels are those of the current menu. */
    ghost predicate Synced()
      reads this
    {
      items == Labels(Entries(current))
    }

    /** Erasing a from every submenu leaves none of them empty; otherwise removal
        aborts. That is so exactly when each submenu has an entry with another action. */
    predicate RemovalKeepsMenus(a: BuiltinAction): (r: bool)
      reads this
      ensures r <==> forall m :: m != Main ==> HasOtherAction(Entries(m), a)
    {
      WithoutEmpty(wipe, a);
      WithoutEmpty(advanced, a);
      WithoutEmpty(diag, a);
      WithoutEmpty(diagKernel, a);
      WithoutEmpty(reboot, a);
      WithoutEmpty(samsung, a);
      assert (forall m :: m != Main ==> HasOtherAction(Entries(m), a)) <==>
             HasOtherAction(wipe, a) && HasOtherAction(advanced, a) && HasOtherAction(diag, a) &&
             HasOtherAction(diagKernel, a) && HasOtherAction(reboot, a) &&
             HasOtherAction(samsung, a) by {
        assert Entries(Wipe) == wipe && Entries(Advanced) == advanced && Entries(Diag) == diag;
        assert Entries(DiagKernel) == diagKernel && Entries(Reboot) == reboot;
        assert Entries(Samsung) == samsung;
      }
      Without(wipe, a) != [] && Without(advanced, a) != [] && Without(diag, a) != [] &&
      Without(diagKernel, a) != [] && Without(reboot, a) != [] && Without(samsung, a) != []
    }

    /** While no menu is empty, position 0 can be invoked from whichever menu is current. */
    lemma FirstEntryInvocable()
      requires Valid()
      ensures 0 < |Entries(current)|
      ensures forall m :: 0 < |Entries(m)|
    {
    }

    constructor ()
      ensures Valid() && Synced()
      ensures main == MainEntries() && advanced == AdvancedEntries() && wipe == WipeEntries()
      ensures diag == DiagEntries() && diagKernel == DiagKernelEntries()
      ensures reboot == RebootEntries() && samsung == SamsungEntries()
      ensures current == Main
    {
      main := MainEntries();
      advanced := AdvancedEntries();
      wipe := WipeEntries();
      diag := DiagEntries();
      diagKernel := DiagKernelEntries();
      reboot := RebootEntries();
      samsung := SamsungEntries();
      current := Main;
      items := [];
      new;
      assert |main| == 6 && |advanced| == 10 && |wipe| == 3 && |diag| == 7;
      assert |diagKernel| == 3 && |reboot| == 4 && |samsung| == 1;
      PopulateMenuItems();
    }

    /** Clears the cached labels and appends the label of each entry of the current menu. */
    method PopulateMenuItems()
      modifies this`items
      ensures items == Labels(Entries(current))
    {
      var entries := Entries(current);
      items := [];
      var i := 0;
      while i < |entries|
        invariant 0 <= i <= |entries|
        invariant |items| == i
        invariant forall k :: 0 <= k < i ==> items[k] == entries[k].text
      {
        items := items + [entries[i].text];
        i := i + 1;
      }
      forall k | 0 <= k < |entries|
        ensures items[k] == Labels(entries)[k]
      {
        LabelsAt(entries, k);
      }
    }

    method GoHome()
      modifies this`current, this`items
      ensures Synced()
      ensures current == Main
    {
      current := Main;
      PopulateMenuItems();
    }

    /** Erases every entry with action a from the six submenus, in order; a menu
        left empty is a fatal error, so that is excluded by the precondition. The
        main menu, the current menu and the labels cache are outside the frame,
        so the cache stays in step when removal runs while Main is current; for
        any other current menu CacheAfterRemoval says when it goes stale. */
    method RemoveMenuItemForAction(a: BuiltinAction)
      requires RemovalKeepsMenus(a)
      requires main != []
      modifies this`wipe, this`advanced, this`diag, this`diagKernel, this`reboot, this`samsung
      ensures Valid()
      ensures wipe == Without(old(wipe), a) && advanced == Without(old(advanced), a)
      ensures diag == Without(old(diag), a) && diagKernel == Without(old(diagKernel), a)
      ensures reboot == Without(old(reboot), a) && samsung == Without(old(samsung), a)
      ensures current == Main && old(Synced()) ==> Synced()
    {
      wipe := Without(wipe, a);
      advanced := Without(advanced, a);
      diag := Without(diag, a);
      diagKernel := Without(diagKernel, a);
      reboot := Without(reboot, a);
      samsung := Without(samsung, a);
    }

    /** The labels the UI shows. */
    function GetMenuItems(): (r: seq<string>)
      reads this
      ensures Synced() ==> |r| == |Entries(current)| &&
                           forall i :: 0 <= i < |r| ==> r[i] == Entries(current)[i].text
    {
      var entries := Entries(current);
      assert forall i :: 0 <= i < |entries| ==> Labels(entries)[i] == entries[i].text by {
        forall i | 0 <= i < |entries| {
          LabelsAt(entries, i);
        }
      }
      items
    }

    /** The header shown above the current menu. */
    function GetMenuHeaders(): (r: seq<string>)
      reads this
      ensures r == Header(current)
      ensures r == [] <==> current == Main
    {
      HeaderLookup(current)
    }

    /** Returns the action of the entry at position; a marker also switches the
        current menu (if it has a case) and rebuilds the labels cache. */
    method InvokeMenuItem(position: nat) returns (action: BuiltinAction)
      requires position < |Entries(current)|
      modifies this`current, this`items
      ensures action == old(Entries(current))[position].action
      ensures current == NextMenu(old(current), action)
      ensures IsMarker(action) ==> Synced()
      ensures !IsMarker(action) ==> current == old(current) && items == old(items)
    {
      action := Entries(current)[position].action;
      if IsMarker(action) {
        // the switch over the six markers that have a submenu
        match Submenu(action) {
          case Some(m) => current := m;
          case None =>
        }
        PopulateMenuItems();
      }
    }
  }

  /** From startup, a leaf entry is returned to the caller and the main menu stays shown. */
  method InvokeApplyUpdate() returns (action: BuiltinAction, shown: seq<string>)
    ensures action == ApplyUpdate
    ensures shown == Labels(MainEntries())
  {
    var d := new Device();
    assert d.Entries(d.current)[1].action == ApplyUpdate;
    action := d.InvokeMenuItem(1);
    shown := d.GetMenuItems();
  }

  /** While the Samsung menu is as at startup, removing its only action would empty
      it, so that removal aborts. */
  lemma SamsungRestoreRemovalAborts(d: Device)
    requires d.samsung == SamsungEntries()
    ensures Without(d.samsung, SamsungDisableRecoveryRestore) == []
    ensures !d.RemovalKeepsMenus(SamsungDisableRecoveryRestore)
  {
    assert d.samsung[0].action == SamsungDisableRecoveryRestore;
    WithoutEmpty(d.samsung, SamsungDisableRecoveryRestore);
  }
}
