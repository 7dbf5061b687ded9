/**
 * The dashboard shell: a sidebar of five navigation items, one `activeTab`
 * string that selects both the highlighted item and the view rendered in the
 * main area, and a Log Out button that only shows a notification.
 */
module Dashboard {
  import opened Toasts
  import opened Selection

  /** The views the main area can render, one per navigation item. */
  datatype View = HomeView | ThemesView | SettingsView | ProfileView | BillingView

  const InitialTab := "dashboard"

  /** The navigation items' keys, their labels and their views, in sidebar order. */
  const TabKeys: seq<string> := ["dashboard", "themes", "settings", "profile", "billing"]
  const TabLabels: seq<string> := ["Dashboard", "My Themes", "Settings", "Profile", "Billing"]
  const TabViews: seq<View> := [HomeView, ThemesView, SettingsView, ProfileView, BillingView]

  const LoggedOutMessage := "Logged out successfully!"

  const NavigatedPrefix := "Navigated to "

  /** The notification shown after navigating to the item labelled `text`; it ends with that label. */
  function NavigatedMessage(text: string): (m: string)
    ensures |m| == |NavigatedPrefix| + |text| && m[|NavigatedPrefix|..] == text
  {
    NavigatedPrefix + text
  }

  /** Sidebar item `i` is highlighted. */
  predicate ItemActive(activeTab: string, i: nat)
    requires i < |TabKeys|
  {
    activeTab == TabKeys[i]
  }

  /** The main area: one guarded element per view, in source order. */
  function RenderedViews(activeTab: string): seq<View> {
    (if activeTab == "dashboard" then [HomeView] else [])
    + (if activeTab == "themes" then [ThemesView] else [])
    + (if activeTab == "settings" then [SettingsView] else [])
    + (if activeTab == "profile" then [ProfileView] else [])
    + (if activeTab == "billing" then [BillingView] else [])
  }

  lemma TabKeysDistinct()
    ensures |TabKeys| == |TabLabels| == |TabViews| == 5
    ensures Distinct(TabKeys) && Distinct(TabViews)
  {
  }

  /** Exactly one sidebar item is highlighted while the tab is one of the five keys, none otherwise. */
  lemma ExactlyOneActive(activeTab: string)
    ensures Count(TabKeys, activeTab) == if activeTab in TabKeys then 1 else 0
    ensures (exists i :: 0 <= i < |TabKeys| && ItemActive(activeTab, i)) <==> activeTab in TabKeys
    ensures forall i, j :: 0 <= i < |TabKeys| && 0 <= j < |TabKeys| && ItemActive(activeTab, i) && ItemActive(activeTab, j) ==> i == j
  {
    TabKeysDistinct();
    CountDistinct(TabKeys, activeTab);
    if activeTab in TabKeys {
      var k :| 0 <= k < |TabKeys| && TabKeys[k] == activeTab;
      assert ItemActive(activeTab, k);
    }
  }

  /** The tab of item `i` renders exactly that item's view. */
  lemma ViewOfItem(activeTab: string, i: nat)
    requires i < |TabKeys| && activeTab == TabKeys[i]
    ensures RenderedViews(activeTab) == [TabViews[i]]
  {
    assert i in {0, 1, 2, 3, 4};
  }

  /** A tab that is none of the five keys renders nothing. */
  lemma NoViewOfUnknownTab(activeTab: string)
    requires activeTab !in TabKeys
    ensures RenderedViews(activeTab) == []
  {
    assert activeTab != TabKeys[0] && activeTab != TabKeys[1] && activeTab != TabKeys[2];
    assert activeTab != TabKeys[3] && activeTab != TabKeys[4];
  }

  /**
   * The highlighted item and the rendered view agree: as many views render as
   * items are highlighted, and an item is highlighted exactly when its view renders.
   */
  lemma ActiveItemMatchesView(activeTab: string)
    ensures |RenderedViews(activeTab)| == Count(TabKeys, activeTab)
    ensures forall i :: 0 <= i < |TabKeys| ==> (ItemActive(activeTab, i) <==> TabViews[i] in RenderedViews(activeTab))
  {
    ExactlyOneActive(activeTab);
    TabKeysDistinct();
    if activeTab in TabKeys {
      var k :| 0 <= k < |TabKeys| && TabKeys[k] == activeTab;
      ViewOfItem(activeTab, k);
      forall i | 0 <= i < |TabKeys| ensures ItemActive(activeTab, i) <==> TabViews[i] in RenderedViews(activeTab) {
        assert TabViews[i] in RenderedViews(activeTab) <==> i == k;
        assert TabKeys[i] == activeTab <==> i == k;
      }
    } else {
      NoViewOfUnknownTab(activeTab);
    }
  }

  /** The page's state: the selected tab and the notifications shown so far. */
  class DashboardPage {
    var activeTab: string
    var log: seq<Toast>

    /** The tab is one of the five navigation keys. */
    ghost predicate Valid()
      reads this
    {
      activeTab in TabKeys
    }

    constructor ()
      ensures Valid()
      ensures activeTab == InitialTab && log == []
    {
      activeTab := InitialTab;
      log := [];
    }

    /** `handleNavigation(path, label)`: select the tab and announce it. */
    method HandleNavigation(path: string, text: string)
      modifies this
      ensures activeTab == path
      ensures Valid() <==> path in TabKeys
      ensures log == old(log) + [Toast(Success, NavigatedMessage(text))]
    {
      activeTab := path;
      log := log + [Toast(Success, NavigatedMessage(text))];
    }

    /** A click on sidebar item `i`: navigation with that item's key and label. */
    method ClickNavItem(i: nat)
      requires i < |TabKeys|
      modifies this
      ensures Valid()
      ensures activeTab == TabKeys[i]
      ensures RenderedViews(activeTab) == [TabViews[i]]
      ensures log == old(log) + [Toast(Success, NavigatedMessage(TabLabels[i]))]
    {
      ViewOfItem(TabKeys[i], i);
      HandleNavigation(TabKeys[i], TabLabels[i]);
    }

    /** The Log Out button: a notification, and the tab stays. */
    method LogOut()
      requires Valid()
      modifies this`log
      ensures Valid()
      ensures activeTab == old(activeTab)
      ensures log == old(log) + [Toast(Info, LoggedOutMessage)]
    {
      log := log + [Toast(Info, LoggedOutMessage)];
    }

    /** The number of sidebar items highlighted in the current state: one in every valid state. */
    function ActiveItems(): (n: nat)
      reads this
      ensures n == if activeTab in TabKeys then 1 else 0
      ensures Valid() ==> n == 1
      ensures n == |RenderedViews(activeTab)|
    {
      ExactlyOneActive(activeTab);
      ActiveItemMatchesView(activeTab);
      Count(TabKeys, activeTab)
    }
  }
}
