/** The `App` controller of public/js/app.js: the streak counter with its
    milestone celebrations, the dark/light theme toggle, tab selection and the
    state restored at start-up. The page the controller writes to is kept as
    fields: the document's `data-theme`, the theme icon's class, the `active`
    flag of every nav button and panel, and the two values saved in local
    storage. */
module AppShell {
  import opened Builtins

  // ---------------------------------------------------------------- streak

  /** A milestone toast and the number of confetti pieces spawned with it
      (zero: none). */
  datatype Celebration = Celebration(toast: string, confetti: nat)

  /** The celebration `incrementStreak` shows once the streak reaches `streak`. */
  function MilestoneOf(streak: int): Option<Celebration> {
    if streak == 5 then Some(Celebration("🔥 5 actions! You're on fire!", 0))
    else if streak == 10 then Some(Celebration("🎯 10 actions! Keep going!", 20))
    else if streak % 25 == 0 then Some(Celebration("🏆 " + IntText(streak) + " actions! Incredible streak!", 40))
    else None
  }

  /** A celebration fires exactly at 5, at 10 and at the multiples of 25: at 5
      without confetti, at 10 with 20 pieces, at a multiple of 25 with 40. */
  lemma MilestoneCases(streak: int)
    ensures MilestoneOf(streak).Some? <==> streak == 5 || streak == 10 || streak % 25 == 0
    ensures MilestoneOf(streak).Some? ==>
              && (MilestoneOf(streak).value.confetti == 0 <==> streak == 5)
              && (MilestoneOf(streak).value.confetti == 20 <==> streak == 10)
              && (MilestoneOf(streak).value.confetti == 40 <==> streak % 25 == 0)
  {
  }

  // ---------------------------------------------------------------- theme

  /** The theme `toggleTheme` switches to from the current `data-theme`
      (`None`: no attribute). */
  function NextTheme(current: Option<string>): (next: string)
    ensures next == "dark" || next == "light"
  {
    if current == Some("dark") then "light" else "dark"
  }

  /** The icon class shown for a theme. */
  function ThemeIcon(theme: string): string {
    if theme == "dark" then "fas fa-moon" else "fas fa-sun"
  }

  /** Toggling twice from either theme comes back to it; from anything else the
      first toggle lands on `dark`. */
  lemma ToggleTwice(theme: Option<string>)
    ensures theme == Some("dark") || theme == Some("light") ==> NextTheme(Some(NextTheme(theme))) == theme.value
    ensures theme != Some("dark") ==> NextTheme(theme) == "dark"
  {
  }

  // ---------------------------------------------------------------- tabs

  /** How many flags are set. */
  function CountSet(flags: seq<bool>): (n: nat)
    ensures n <= |flags|
  {
    if flags == [] then 0 else (if flags[0] then 1 else 0) + CountSet(flags[1..])
  }

  /** When the flags mark the places where `keys` holds `key`, and the keys are
      distinct, exactly one flag is set if `key` is among them and none
      otherwise. */
  lemma {:induction false} OneFlagPerKey(keys: seq<string>, flags: seq<bool>, key: string)
    requires |flags| == |keys| && Distinct(keys)
    requires forall i :: 0 <= i < |keys| ==> (flags[i] <==> keys[i] == key)
    ensures CountSet(flags) == (if key in keys then 1 else 0)
  {
    if keys != [] {
      OneFlagPerKey(keys[1..], flags[1..], key);
      assert key in keys <==> keys[0] == key || key in keys[1..] by {
        assert keys == [keys[0]] + keys[1..];
      }
      if keys[0] == key {
        assert key !in keys[1..] by {
          forall i | 0 <= i < |keys[1..]| ensures keys[1..][i] != key {
            assert keys[1..][i] == keys[i + 1];
          }
        }
      }
    }
  }

  class App {
    var currentTab: string
    var streak: int
    /** The document's `data-theme` attribute; `None` before one is set. */
    var theme: Option<string>
    /** The class of the theme toggle's icon. */
    var icon: string
    /** The values kept in local storage under `studybuddy_theme` and `studybuddy_streak`. */
    var storedTheme: Option<string>
    var storedStreak: Option<int>
    /** The `data-tab` of every `.nav-btn` and whether it is `active`. */
    var navTabs: seq<string>
    var navActive: seq<bool>
    /** The `id` of every `.tab-panel` and whether it is `active`. */
    var panelIds: seq<string>
    var panelActive: seq<bool>

    /** Every nav button and panel has its `active` flag. */
    predicate Valid()
      reads this
    {
      |navActive| == |navTabs| && |panelActive| == |panelIds|
    }

    /** Nothing but the streak and its stored copy differs from the earlier state. */
    twostate predicate SameButStreak()
      reads this
    {
      && currentTab == old(currentTab) && theme == old(theme) && icon == old(icon)
      && storedTheme == old(storedTheme)
      && navTabs == old(navTabs) && navActive == old(navActive)
      && panelIds == old(panelIds) && panelActive == old(panelActive)
    }

    /** The object literal: tab `chat`, streak 0, over the page as it is. */
    constructor (navTabs: seq<string>, navActive: seq<bool>, panelIds: seq<string>, panelActive: seq<bool>,
                 theme: Option<string>, icon: string, storedTheme: Option<string>, storedStreak: Option<int>)
      requires |navActive| == |navTabs| && |panelActive| == |panelIds|
      ensures Valid()
      ensures this.currentTab == "chat" && this.streak == 0
      ensures this.navTabs == navTabs && this.navActive == navActive
      ensures this.panelIds == panelIds && this.panelActive == panelActive
      ensures this.theme == theme && this.icon == icon
      ensures this.storedTheme == storedTheme && this.storedStreak == storedStreak
    {
      this.currentTab := "chat";
      this.streak := 0;
      this.navTabs := navTabs;
      this.navActive := navActive;
      this.panelIds := panelIds;
      this.panelActive := panelActive;
      this.theme := theme;
      this.icon := icon;
      this.storedTheme := storedTheme;
      this.storedStreak := storedStreak;
    }

    /** `switchTab(tabId)`: the tab becomes current, and exactly the nav
        buttons for it and the panel `tab-<tabId>` are active. */
    method SwitchTab(tabId: string)
      requires Valid()
      modifies this
      ensures Valid()
      ensures currentTab == tabId
      ensures forall i :: 0 <= i < |navTabs| ==> (navActive[i] <==> navTabs[i] == tabId)
      ensures forall i :: 0 <= i < |panelIds| ==> (panelActive[i] <==> panelIds[i] == "tab-" + tabId)
      ensures navTabs == old(navTabs) && panelIds == old(panelIds)
      ensures streak == old(streak) && theme == old(theme) && icon == old(icon)
      ensures storedTheme == old(storedTheme) && storedStreak == old(storedStreak)
    {
      currentTab := tabId;
      var buttons := navActive;
      for i := 0 to |navTabs|
        invariant |buttons| == |navTabs|
        invariant forall j :: 0 <= j < i ==> (buttons[j] <==> navTabs[j] == tabId)
      {
        buttons := buttons[i := navTabs[i] == tabId];
      }
      navActive := buttons;
      var panelId := "tab-" + tabId;
      var panels := panelActive;
      for i := 0 to |panelIds|
        invariant |panels| == |panelIds|
        invariant forall j :: 0 <= j < i ==> (panels[j] <==> panelIds[j] == panelId)
      {
        panels := panels[i := panelIds[i] == panelId];
      }
      panelActive := panels;
    }

    /** `toggleTheme()`: the next theme is set on the document, its icon shown
        and the theme saved; the toast announcing it is returned. */
    method ToggleTheme() returns (toast: string)
      requires Valid()
      modifies this
      ensures Valid()
      ensures theme == Some(NextTheme(old(theme)))
      ensures icon == ThemeIcon(theme.value) && storedTheme == theme
      ensures toast == (if theme.value == "dark" then "🌙 Dark" else "☀️ Light") + " mode activated"
      ensures currentTab == old(currentTab) && streak == old(streak) && storedStreak == old(storedStreak)
      ensures navTabs == old(navTabs) && navActive == old(navActive)
      ensures panelIds == old(panelIds) && panelActive == old(panelActive)
    {
      var next := NextTheme(theme);
      theme := Some(next);
      icon := ThemeIcon(next);
      storedTheme := Some(next);
      toast := (if next == "dark" then "🌙 Dark" else "☀️ Light") + " mode activated";
    }

    /** `incrementStreak()`: the streak goes up by one and is saved; the
        milestone celebration it reaches, if any, is returned. */
    method IncrementStreak() returns (celebration: Option<Celebration>)
      requires Valid()
      modifies this
      ensures Valid()
      ensures streak == old(streak) + 1 && storedStreak == Some(streak)
      ensures celebration == MilestoneOf(streak)
      ensures SameButStreak()
      ensures currentTab == old(currentTab) && theme == old(theme) && icon == old(icon)
      ensures storedTheme == old(storedTheme)
      ensures navTabs == old(navTabs) && navActive == old(navActive)
      ensures panelIds == old(panelIds) && panelActive == old(panelActive)
    {
      streak := streak + 1;
      storedStreak := Some(streak);
      celebration := MilestoneOf(streak);
    }

    /** `loadState()`: the saved theme, `dark` when none is saved, and the
        saved streak, 0 when none is saved. */
    method LoadState()
      requires Valid()
      modifies this
      ensures Valid()
      ensures theme == Some(if old(storedTheme).Some? then old(storedTheme).value else "dark")
      ensures icon == ThemeIcon(theme.value)
      ensures streak == (if old(storedStreak).Some? then old(storedStreak).value else 0)
      ensures storedTheme == old(storedTheme) && storedStreak == old(storedStreak)
      ensures currentTab == old(currentTab)
      ensures navTabs == old(navTabs) && navActive == old(navActive)
      ensures panelIds == old(panelIds) && panelActive == old(panelActive)
    {
      var savedTheme := if storedTheme.Some? then storedTheme.value else "dark";
      theme := Some(savedTheme);
      icon := ThemeIcon(savedTheme);
      streak := if storedStreak.Some? then storedStreak.value else 0;
    }
  }
}
