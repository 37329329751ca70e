/** AppShell: the application controller's navigation state: the active
  * tab, the three most recent tabs and the pinned tabs. The DOM's nav items
  * are a map from tab name to its icon and label, and the clock is a
  * parameter. */
module AppShell {
  import opened Basics

  /** A nav item's icon class and trimmed text. */
  datatype NavInfo = NavInfo(icon: string, text: string)

  /** A recent or pinned entry. */
  datatype Entry = Entry(tab: string, icon: string, text: string, timestamp: int)

  const RecentLimit: nat := 3

  function EntryFor(tab: string, info: NavInfo, now: int): Entry {
    Entry(tab, info.icon, info.text, now)
  }

  /** `items.filter(item => item.tab !== tab)`. */
  function WithoutTab(items: seq<Entry>, tab: string): (r: seq<Entry>)
    ensures |r| <= |items|
    ensures forall k :: 0 <= k < |r| ==> r[k].tab != tab && r[k] in items
    ensures forall x :: x in r <==> x in items && x.tab != tab
  {
    if items == [] then []
    else if items[0].tab == tab then WithoutTab(items[1..], tab)
    else [items[0]] + WithoutTab(items[1..], tab)
  }

  /** The filter of one entry: the entry itself, unless it is for the tab. */
  lemma WithoutTabSingle(e: Entry, tab: string)
    ensures WithoutTab([e], tab) == if e.tab == tab then [] else [e]
  {
    assert [e][1..] == [];
  }

  /** Filtering a concatenation filters each part: together with the single
    * entry case this fixes the result as every entry for another tab, in
    * order. */
  lemma {:induction false} WithoutTabConcat(a: seq<Entry>, b: seq<Entry>, tab: string)
    ensures WithoutTab(a + b, tab) == WithoutTab(a, tab) + WithoutTab(b, tab)
    decreases |a|
  {
    if a == [] {
      assert a + b == b;
    } else {
      var ab := a + b;
      assert ab[1..] == a[1..] + b && ab[0] == a[0];
      WithoutTabConcat(a[1..], b, tab);
      var rest := WithoutTab(a[1..], tab) + WithoutTab(b, tab);
      if a[0].tab == tab {
        assert WithoutTab(ab, tab) == rest;
      } else {
        assert WithoutTab(ab, tab) == [a[0]] + rest;
        assert WithoutTab(a, tab) == [a[0]] + WithoutTab(a[1..], tab);
      }
    }
  }

  predicate UniqueTabs(items: seq<Entry>) {
    forall i, j :: 0 <= i < j < |items| ==> items[i].tab != items[j].tab
  }

  lemma {:induction false} WithoutTabUnique(items: seq<Entry>, tab: string)
    requires UniqueTabs(items)
    ensures UniqueTabs(WithoutTab(items, tab))
    decreases |items|
  {
    if items != [] {
      WithoutTabUnique(items[1..], tab);
      if items[0].tab != tab {
        var r := [items[0]] + WithoutTab(items[1..], tab);
        forall i, j | 0 <= i < j < |r| ensures r[i].tab != r[j].tab {
          if i == 0 {
            var m :| 0 <= m < |items[1..]| && items[1..][m] == r[j];
            assert items[m + 1] == r[j];
          }
        }
      }
    }
  }

  /** The recent list after visiting `tab`. */
  function RecentAfter(recent: seq<Entry>, tab: string, nav: map<string, NavInfo>, now: int): seq<Entry> {
    var kept := WithoutTab(recent, tab);
    var pushed := if tab in nav then [EntryFor(tab, nav[tab], now)] + kept else kept;
    if |pushed| > RecentLimit then pushed[..RecentLimit] else pushed
  }

  /** At most three entries; the visited tab, when it has a nav item, is
    * first and appears once; the others keep their order. */
  lemma RecentAfterProperties(recent: seq<Entry>, tab: string, nav: map<string, NavInfo>, now: int)
    ensures var r := RecentAfter(recent, tab, nav, now);
      |r| <= RecentLimit &&
      (tab in nav ==> r[0] == EntryFor(tab, nav[tab], now) && forall k :: 1 <= k < |r| ==> r[k].tab != tab) &&
      (tab !in nav ==> forall k :: 0 <= k < |r| ==> r[k].tab != tab) &&
      (tab in nav ==> r[1..] == WithoutTab(recent, tab)[..|r| - 1]) &&
      (tab !in nav ==> r == WithoutTab(recent, tab)[..|r|]) &&
      |r| == Min(RecentLimit, (if tab in nav then 1 else 0) + |WithoutTab(recent, tab)|)
    ensures UniqueTabs(recent) ==> UniqueTabs(RecentAfter(recent, tab, nav, now))
  {
    if tab in nav {
      RecentVisited(recent, tab, nav, now);
    } else {
      RecentUnvisited(recent, tab, nav, now);
    }
    if UniqueTabs(recent) {
      RecentUnique(recent, tab, nav, now);
    }
  }

  lemma RecentVisited(recent: seq<Entry>, tab: string, nav: map<string, NavInfo>, now: int)
    requires tab in nav
    ensures var r := RecentAfter(recent, tab, nav, now);
      |r| <= RecentLimit && r[0] == EntryFor(tab, nav[tab], now) &&
      (forall k :: 1 <= k < |r| ==> r[k].tab != tab) && r[1..] == WithoutTab(recent, tab)[..|r| - 1] &&
      |r| == Min(RecentLimit, 1 + |WithoutTab(recent, tab)|)
  {
    var kept := WithoutTab(recent, tab);
    var pushed := [EntryFor(tab, nav[tab], now)] + kept;
    var r := RecentAfter(recent, tab, nav, now);
    assert r == if |pushed| > RecentLimit then pushed[..RecentLimit] else pushed;
    assert r[1..] == kept[..|r| - 1];
    forall k | 1 <= k < |r| ensures r[k].tab != tab {
      assert r[k] == kept[k - 1];
    }
  }

  lemma RecentUnvisited(recent: seq<Entry>, tab: string, nav: map<string, NavInfo>, now: int)
    requires tab !in nav
    ensures var r := RecentAfter(recent, tab, nav, now);
      |r| <= RecentLimit && (forall k :: 0 <= k < |r| ==> r[k].tab != tab) && r == WithoutTab(recent, tab)[..|r|] &&
      |r| == Min(RecentLimit, |WithoutTab(recent, tab)|)
  {
    var kept := WithoutTab(recent, tab);
    var r := RecentAfter(recent, tab, nav, now);
    assert r == if |kept| > RecentLimit then kept[..RecentLimit] else kept;
    forall k | 0 <= k < |r| ensures r[k].tab != tab {
      assert r[k] == kept[k];
    }
  }

  lemma RecentUnique(recent: seq<Entry>, tab: string, nav: map<string, NavInfo>, now: int)
    requires UniqueTabs(recent)
    ensures UniqueTabs(RecentAfter(recent, tab, nav, now))
  {
    var kept := WithoutTab(recent, tab);
    WithoutTabUnique(recent, tab);
    var pushed := if tab in nav then [EntryFor(tab, nav[tab], now)] + kept else kept;
    assert UniqueTabs(pushed) by {
      if tab in nav {
        forall i, j | 0 <= i < j < |pushed| ensures pushed[i].tab != pushed[j].tab {
          assert pushed[j] == kept[j - 1];
          if i > 0 {
            assert pushed[i] == kept[i - 1];
          }
        }
      }
    }
    var r := RecentAfter(recent, tab, nav, now);
    assert r == if |pushed| > RecentLimit then pushed[..RecentLimit] else pushed;
  }

  /** The index of the first entry for `tab`. */
  function FindTab(items: seq<Entry>, tab: string): (r: Option<nat>)
    ensures r.Some? ==> r.value < |items| && items[r.value].tab == tab
    ensures r.Some? ==> forall k :: 0 <= k < r.value ==> items[k].tab != tab
    ensures r.None? ==> forall k :: 0 <= k < |items| ==> items[k].tab != tab
  {
    if items == [] then None
    else if items[0].tab == tab then Some(0)
    else
      match FindTab(items[1..], tab)
      case None => None
      case Some(i) => Some(i + 1)
  }

  /** The pinned list after toggling `tab`: its first entry removed if
    * pinned, otherwise an entry appended when the nav item exists. */
  function PinnedAfter(pinned: seq<Entry>, tab: string, nav: map<string, NavInfo>, now: int): seq<Entry> {
    match FindTab(pinned, tab)
    case Some(i) => pinned[..i] + pinned[i + 1..]
    case None => if tab in nav then pinned + [EntryFor(tab, nav[tab], now)] else pinned
  }

  lemma {:induction false} FindTabAppended(pinned: seq<Entry>, e: Entry)
    requires forall k :: 0 <= k < |pinned| ==> pinned[k].tab != e.tab
    ensures FindTab(pinned + [e], e.tab) == Some(|pinned|)
    decreases |pinned|
  {
    if pinned == [] {
    } else {
      assert (pinned + [e])[1..] == pinned[1..] + [e];
      FindTabAppended(pinned[1..], e);
    }
  }

  /** Pinning an unpinned tab and toggling it again restores the list. */
  lemma TogglePinTwice(pinned: seq<Entry>, tab: string, nav: map<string, NavInfo>, now: int, later: int)
    requires tab in nav
    requires forall k :: 0 <= k < |pinned| ==> pinned[k].tab != tab
    ensures PinnedAfter(PinnedAfter(pinned, tab, nav, now), tab, nav, later) == pinned
  {
    var e := EntryFor(tab, nav[tab], now);
    FindTabAppended(pinned, e);
    var p := pinned + [e];
    assert p[..|pinned|] == pinned;
  }

  /** Toggling keeps the pinned tabs unique; afterwards the tab is pinned
    * exactly when it was not before (given its nav item exists). */
  lemma PinnedAfterProperties(pinned: seq<Entry>, tab: string, nav: map<string, NavInfo>, now: int)
    requires UniqueTabs(pinned)
    ensures UniqueTabs(PinnedAfter(pinned, tab, nav, now))
    ensures FindTab(pinned, tab).Some? ==> FindTab(PinnedAfter(pinned, tab, nav, now), tab).None?
    ensures FindTab(pinned, tab).None? && tab in nav ==> FindTab(PinnedAfter(pinned, tab, nav, now), tab).Some?
  {
    var r := PinnedAfter(pinned, tab, nav, now);
    match FindTab(pinned, tab)
    case Some(i) =>
      forall k | 0 <= k < |r| ensures r[k].tab != tab {
        if k < i { assert r[k] == pinned[k]; } else { assert r[k] == pinned[k + 1]; }
      }
      forall a, b | 0 <= a < b < |r| ensures r[a].tab != r[b].tab {
        var a' := if a < i then a else a + 1;
        var b' := if b < i then b else b + 1;
        assert r[a] == pinned[a'] && r[b] == pinned[b'];
      }
    case None =>
      if tab in nav {
        FindTabAppended(pinned, EntryFor(tab, nav[tab], now));
      }
  }

  /** The controller's navigation state. */
  class Shell {
    var activeTab: string
    var recentItems: seq<Entry>
    var pinnedItems: seq<Entry>

    constructor()
      ensures activeTab == "my-dashboard" && recentItems == [] && pinnedItems == []
    {
      activeTab := "my-dashboard";
      recentItems := [];
      pinnedItems := [];
    }

    /** addToRecentActivity. */
    method AddToRecentActivity(tab: string, nav: map<string, NavInfo>, now: int)
      modifies this
      ensures recentItems == RecentAfter(old(recentItems), tab, nav, now)
      ensures activeTab == old(activeTab) && pinnedItems == old(pinnedItems)
    {
      recentItems := WithoutTab(recentItems, tab);
      if tab in nav {
        recentItems := [EntryFor(tab, nav[tab], now)] + recentItems;
      }
      if |recentItems| > RecentLimit {
        recentItems := recentItems[..RecentLimit];
      }
    }

    /** togglePin. */
    method TogglePin(tab: string, nav: map<string, NavInfo>, now: int)
      modifies this
      ensures pinnedItems == PinnedAfter(old(pinnedItems), tab, nav, now)
      ensures activeTab == old(activeTab) && recentItems == old(recentItems)
    {
      var index := FindTab(pinnedItems, tab);
      if index.Some? {
        pinnedItems := pinnedItems[..index.value] + pinnedItems[index.value + 1..];
      } else if tab in nav {
        pinnedItems := pinnedItems + [EntryFor(tab, nav[tab], now)];
      }
    }

    /** switchTab: the tab becomes active and is recorded as recent. */
    method SwitchTab(tab: string, nav: map<string, NavInfo>, now: int)
      modifies this
      ensures activeTab == tab
      ensures recentItems == RecentAfter(old(recentItems), tab, nav, now)
      ensures pinnedItems == old(pinnedItems)
    {
      activeTab := tab;
      AddToRecentActivity(tab, nav, now);
    }
  }

  /** getAlertIcon: the four known alert types, 'info-circle' otherwise. */
  function GetAlertIcon(kind: string): (icon: string)
    ensures kind == "success" ==> icon == "check-circle"
    ensures kind == "danger" ==> icon == "exclamation-triangle"
    ensures kind == "warning" ==> icon == "exclamation-circle"
    ensures kind !in ["success", "danger", "warning"] ==> icon == "info-circle"
    ensures icon in ["check-circle", "exclamation-triangle", "exclamation-circle", "info-circle"]
  {
    if kind == "success" then "check-circle"
    else if kind == "danger" then "exclamation-triangle"
    else if kind == "warning" then "exclamation-circle"
    else "info-circle"
  }

  /** Distinct known types get distinct icons. */
  lemma AlertIconsDistinct(a: string, b: string)
    requires a in ["success", "danger", "warning", "info"] && b in ["success", "danger", "warning", "info"]
    ensures GetAlertIcon(a) == GetAlertIcon(b) <==> a == b
  {}
}
