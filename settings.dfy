/**
 * The settings pill in the corner of every page: the refresh-interval menu and the theme
 * button. The interval is read back from browser storage when the pill mounts, a menu
 * entry sets and stores it and refreshes at once, and a timer refreshes every `interval`
 * seconds. Storage is the field `stored`; the refreshes triggered are counted in
 * `refreshes`; the timer itself is left to the caller (`TimerPeriodMs`).
 */
module Settings {
  import opened Wrappers
  import opened Strings
  import opened Utils

  /** One entry of the interval menu. */
  datatype IntervalOption = IntervalOption(value: int, caption: string)

  /** `INTERVALS`, in menu order. */
  const Intervals: seq<IntervalOption> := [
    IntervalOption(10, "10s"), IntervalOption(30, "30s"), IntervalOption(60, "1m"),
    IntervalOption(120, "2m"), IntervalOption(300, "5m"), IntervalOption(600, "10m")]

  const DefaultInterval: int := 300

  /** The storage key the interval is kept under. */
  const StorageKey: string := "gatus:refresh-interval"

  /** `INTERVALS.some((i) => i.value === v)`. */
  predicate Listed(v: int)
  {
    exists i :: 0 <= i < |Intervals| && Intervals[i].value == v
  }

  lemma ListedValues(v: int)
    ensures Listed(v) <==> v in {10, 30, 60, 120, 300, 600}
  {
    if v in {10, 30, 60, 120, 300, 600} {
      var i := if v == 10 then 0 else if v == 30 then 1 else if v == 60 then 2
        else if v == 120 then 3 else if v == 300 then 4 else 5;
      assert Intervals[i].value == v;
    }
  }

  /**
   * The mount effect's reading of the stored value: adopted only when there is a
   * non-empty stored string, `parseInt` reads a number from it (NaN fails the
   * comparison), that number is at least 10 and it is on the menu; otherwise the
   * interval stays `current`.
   */
  function AdoptStored(stored: Option<string>, current: int): (v: int)
  {
    if stored.Some? && stored.value != [] then
      match ParseInt(stored.value)
      case Some(n) => if n >= 10 && Listed(n) then n else current
      case None => current
    else current
  }

  /** The stored value is adopted exactly when it reads as a listed interval; anything
      else keeps the current one, so a listed interval stays listed. */
  lemma AdoptStoredMeaning(stored: Option<string>, current: int)
    ensures var n := if stored.Some? then ParseInt(stored.value) else None;
      && (n.Some? && Listed(n.value) ==> AdoptStored(stored, current) == n.value)
      && (!(n.Some? && Listed(n.value)) ==> AdoptStored(stored, current) == current)
    ensures Listed(current) ==> Listed(AdoptStored(stored, current))
  {
    if stored.Some? && stored.value == [] {
      assert TrimStart(stored.value) == [];
    }
    if stored.Some? && ParseInt(stored.value).Some? && Listed(ParseInt(stored.value).value) {
      ListedValues(ParseInt(stored.value).value);
    }
  }

  /** What `selectInterval` stores reads back as the same interval on the next mount. */
  lemma StoredReadsBack(v: int, current: int)
    requires Listed(v)
    ensures AdoptStored(Some(IntToString(v)), current) == v
  {
    ParseIntOfNumeral(v, "");
    assert IntToString(v) + "" == IntToString(v);
    AdoptStoredMeaning(Some(IntToString(v)), current);
  }

  /** A stored "30" behind an ideographic space (U+3000) is still adopted, as `parseInt`
      skips every Unicode space separator. */
  lemma AdoptsAfterIdeographicSpace(current: int)
    ensures AdoptStored(Some("\U{3000}30"), current) == 30
  {
    var stored := "\U{3000}30";
    var thirty := IntToString(30);
    assert thirty == "30";
    assert stored == ['\U{3000}'] + thirty;
    ParseIntSkipsSpace('\U{3000}', thirty);
    ParseIntOfNumeral(30, "");
    assert thirty + "" == thirty;
    ListedValues(30);
    AdoptStoredMeaning(Some(stored), current);
  }

  /** `INTERVALS.find(...)`: the label of the first entry with value `v`. */
  function FindLabel(table: seq<IntervalOption>, v: int): (l: Option<string>)
    ensures l.None? <==> forall i :: 0 <= i < |table| ==> table[i].value != v
    ensures l.Some? ==> exists i :: 0 <= i < |table| && table[i].value == v && table[i].caption == l.value
  {
    if table == [] then None
    else if table[0].value == v then Some(table[0].caption)
    else
      var l := FindLabel(table[1..], v);
      assert forall i :: 1 <= i < |table| ==> table[i] == table[1..][i - 1];
      l
  }

  /** `formatLabel`: the menu label of a listed value, else the value and "s". */
  function FormatLabel(v: int): (s: string)
    ensures !Listed(v) ==> s == IntToString(v) + "s"
  {
    match FindLabel(Intervals, v)
    case Some(l) => l
    case None => IntToString(v) + "s"
  }

  /** The menu's labels are what `formatRefreshInterval` gives for the same values. */
  lemma MenuLabelsAgreeWithFormatter(v: int)
    requires Listed(v)
    ensures FormatLabel(v) == IntervalLabelText(FormatRefreshInterval(v))
  {
    var i :| 0 <= i < |Intervals| && Intervals[i].value == v;
    FormatLabelListed(v, i);
    CaptionMatches(i);
  }

  /** The values on the menu are distinct, so `find` returns the entry's own caption. */
  lemma FormatLabelListed(v: int, i: nat)
    requires i < |Intervals| && Intervals[i].value == v
    ensures FormatLabel(v) == Intervals[i].caption
  {
    var l := FindLabel(Intervals, v);
    assert l.Some?;
    var j :| 0 <= j < |Intervals| && Intervals[j].value == v && Intervals[j].caption == l.value;
    ValuesIncrease(i, j);
    ValuesIncrease(j, i);
  }

  /** The menu lists its values in increasing order. */
  lemma ValuesIncrease(i: nat, j: nat)
    requires i < |Intervals| && j < |Intervals|
    ensures i < j ==> Intervals[i].value < Intervals[j].value
  {
    var values := seq(|Intervals|, k requires 0 <= k < |Intervals| => Intervals[k].value);
    assert values == [10, 30, 60, 120, 300, 600];
    assert Intervals[i].value == values[i] && Intervals[j].value == values[j];
  }

  lemma CaptionMatches(i: nat)
    requires i < |Intervals|
    ensures Intervals[i].caption == IntervalLabelText(FormatRefreshInterval(Intervals[i].value))
  {
    if i == 0 {
      SecondsCaption(10, "10");
    } else if i == 1 {
      SecondsCaption(30, "30");
    } else if i == 2 {
      MinutesCaption(60, 1, "1");
    } else if i == 3 {
      MinutesCaption(120, 2, "2");
    } else if i == 4 {
      MinutesCaption(300, 5, "5");
    } else {
      MinutesCaption(600, 10, "10");
    }
  }

  lemma SecondsCaption(v: int, digits: string)
    requires v < 60 && IntToString(v) == digits
    ensures IntervalLabelText(FormatRefreshInterval(v)) == digits + "s"
  {
  }

  lemma MinutesCaption(v: int, m: int, digits: string)
    requires v >= 60 && v == 60 * m && IntToString(m) == digits
    ensures FormatRefreshInterval(v) == MinutesLabel(m as real)
    ensures IntervalLabelText(FormatRefreshInterval(v)) == digits + "m"
  {
    assert v as real / 60.0 == m as real;
  }

  /** `toggleTheme`: dark becomes light; anything else, an unresolved theme included,
      becomes dark. */
  function NextTheme(resolvedTheme: Option<string>): (t: string)
    ensures t == "light" <==> resolvedTheme == Some("dark")
    ensures t != "light" ==> t == "dark"
  {
    if resolvedTheme == Some("dark") then "light" else "dark"
  }

  /** Two toggles from a resolved theme of either kind return to it. */
  lemma ThemeToggleTwice(resolvedTheme: string)
    requires resolvedTheme == "dark" || resolvedTheme == "light"
    ensures NextTheme(Some(NextTheme(Some(resolvedTheme)))) == resolvedTheme
  {
  }

  /** The state of the settings pill. */
  class SettingsPanel {
    var interval: int
    var showMenu: bool
    var stored: Option<string>
    var refreshes: nat

    /** The interval is always one of the menu's. */
    predicate Valid()
      reads this
    {
      Listed(interval)
    }

    /** Mounting: the default interval, the menu closed, then the stored value read. */
    constructor(storedValue: Option<string>)
      ensures Valid()
      ensures interval == AdoptStored(storedValue, DefaultInterval)
      ensures !showMenu && stored == storedValue && refreshes == 0
    {
      ListedValues(DefaultInterval);
      AdoptStoredMeaning(storedValue, DefaultInterval);
      interval := AdoptStored(storedValue, DefaultInterval);
      showMenu, stored, refreshes := false, storedValue, 0;
    }

    /** The timer's period: the interval in milliseconds, never under ten seconds. */
    function TimerPeriodMs(): (ms: int)
      reads this
      requires Valid()
      ensures ms >= 10000 && ms == interval * 1000
    {
      ListedValues(interval);
      interval * 1000
    }

    /** The timer firing: one refresh. */
    method Tick()
      modifies this`refreshes
      ensures refreshes == old(refreshes) + 1
    {
      refreshes := refreshes + 1;
    }

    /** A click on the interval button toggles the menu. */
    method ClickButton()
      modifies this`showMenu
      ensures showMenu == !old(showMenu)
    {
      showMenu := !showMenu;
    }

    /** The document's click listener: a click outside the pill closes the menu; one
        inside it leaves the menu as it is. Clicks on the menu panel stop propagating,
        so they reach neither this listener nor the button. */
    method DocumentClick(insidePill: bool)
      modifies this`showMenu
      ensures showMenu == (old(showMenu) && insidePill)
    {
      if !insidePill {
        showMenu := false;
      }
    }

    /** `selectInterval`: adopt and store the value, close the menu, refresh once. */
    method SelectInterval(v: int)
      modifies this
      requires Valid() && Listed(v)
      ensures Valid()
      ensures interval == v && stored == Some(IntToString(v))
      ensures !showMenu && refreshes == old(refreshes) + 1
    {
      interval := v;
      stored := Some(IntToString(v));
      showMenu := false;
      refreshes := refreshes + 1;
    }
  }
}
