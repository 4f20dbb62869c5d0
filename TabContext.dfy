/** The renderer's tab context: the last ten tab switches, the current tab and the time of
    the last switch (updated by the tab-click handler), and `estimatePasteSource`, which
    guesses where pasted text came from and how sure it is. Instants are integer
    milliseconds; confidences are exact reals. */
module TabContext {
  import opened Common

  /** `tabHistory` keeps at most this many switches. */
  const HistoryCapacity := 10
  /** The `data-tab` of the text editor. */
  const EditorTab := "docs"
  /** `maxTimeWindow`: how long, in milliseconds, a tab switch stays a fresh signal. */
  const PasteWindow := 30000
  const StaleConfidence: real := 0.3
  const MinConfidence: real := 0.1
  const MaxConfidence: real := 1.0

  /** One entry of `tabHistory`. */
  datatype TabSwitch = TabSwitch(from: string, to: string, timestamp: int, timeSinceLastSwitch: int)

  /** The object `estimatePasteSource` returns. */
  datatype PasteEstimate = PasteEstimate(source: string, confidence: real, timeSinceTabSwitch: int)

  const UnknownSource := PasteEstimate("Unknown", 0.0, 0)

  /** JavaScript's truthiness of `currentTab`: set and not the empty string. */
  predicate IsTruthy(tab: Option<string>)
  {
    tab.Some? && tab.value != ""
  }

  /** `lastTabSwitchTime ? now - lastTabSwitchTime : 0`. */
  function SinceLastSwitch(lastTabSwitchTime: Option<int>, now: int): int
  {
    match lastTabSwitchTime
    case None => 0
    case Some(t) => now - t
  }

  class TabTracker {
    var tabHistory: seq<TabSwitch>
    var currentTab: Option<string>
    var lastTabSwitchTime: Option<int>
    /** Every switch ever recorded, oldest first. */
    ghost var switches: seq<TabSwitch>

    /** The history is the newest `HistoryCapacity` switches ever recorded. */
    ghost predicate Valid()
      reads this
    {
      tabHistory == LastN(switches, HistoryCapacity)
    }

    /** The module's initial state: no current tab, no history. */
    constructor ()
      ensures tabHistory == [] && currentTab == None && lastTabSwitchTime == None && switches == []
      ensures Valid()
    {
      tabHistory := [];
      currentTab := None;
      lastTabSwitchTime := None;
      switches := [];
    }

    /** The tab-click handler's bookkeeping for a click on `targetTab` at `now`: when a
        tab was current, a switch record from it is pushed (the oldest dropped past ten),
        even when `targetTab` is that same tab; then `targetTab` becomes current. */
    method OnTabClick(targetTab: string, now: int)
      requires Valid()
      modifies this
      ensures Valid()
      ensures currentTab == Some(targetTab) && lastTabSwitchTime == Some(now)
      ensures |tabHistory| <= HistoryCapacity
      ensures IsTruthy(old(currentTab)) ==>
                var record := TabSwitch(old(currentTab).value, targetTab, now, SinceLastSwitch(old(lastTabSwitchTime), now));
                switches == old(switches) + [record]
                && tabHistory == PushBounded(old(tabHistory), record, HistoryCapacity)
      ensures !IsTruthy(old(currentTab)) ==> (tabHistory == old(tabHistory) && switches == old(switches))
    {
      if IsTruthy(currentTab) {
        var record := TabSwitch(currentTab.value, targetTab, now, SinceLastSwitch(lastTabSwitchTime, now));
        PushBoundedKeepsWindow(switches, record, HistoryCapacity);
        tabHistory := tabHistory + [record];
        if |tabHistory| > HistoryCapacity {
          tabHistory := tabHistory[1..];
        }
        switches := switches + [record];
      }
      currentTab := Some(targetTab);
      lastTabSwitchTime := Some(now);
    }
  }

  /** The per-source factor applied inside the window. */
  function SourceMultiplier(from: string): (k: real)
    ensures 0.7 <= k <= 1.0
    ensures k == 0.9 <==> from == "chatgpt"
    ensures k == 1.0 <==> from == "google"
    ensures k == 0.8 <==> from == "custom"
    ensures k == 0.7 <==> from !in {"chatgpt", "google", "custom"}
  {
    if from == "chatgpt" then 0.9
    else if from == "google" then 1.0
    else if from == "custom" then 0.8
    else 0.7
  }

  /** `Math.max(lo, Math.min(hi, x))`. */
  function Clamp(lo: real, hi: real, x: real): (r: real)
    requires lo <= hi
    ensures lo <= r <= hi
    ensures lo <= x <= hi ==> r == x
    ensures x < lo ==> r == lo
    ensures x > hi ==> r == hi
  {
    if x < lo then lo else if x > hi then hi else x
  }

  /** The linearly decayed confidence `1 - elapsed / maxTimeWindow`. */
  function Decayed(elapsed: int): (d: real)
    ensures elapsed == 0 ==> d == 1.0
    ensures elapsed == PasteWindow ==> d == 0.0
    ensures 0 <= elapsed <= PasteWindow ==> 0.0 <= d <= 1.0
  {
    1.0 - (elapsed as real) / (PasteWindow as real)
  }

  /** `estimatePasteSource()` given the module state and the instant `now`. */
  function EstimatePasteSource(currentTab: Option<string>, tabHistory: seq<TabSwitch>, now: int): (e: PasteEstimate)
    ensures currentTab != Some(EditorTab) || tabHistory == [] ==> e == UnknownSource
    ensures currentTab == Some(EditorTab) && tabHistory != [] ==>
              e.source == tabHistory[|tabHistory| - 1].from
              && e.timeSinceTabSwitch == now - tabHistory[|tabHistory| - 1].timestamp
              && MinConfidence <= e.confidence <= MaxConfidence
              && (e.timeSinceTabSwitch > PasteWindow ==> e.confidence == StaleConfidence)
  {
    if currentTab != Some(EditorTab) then UnknownSource
    else if tabHistory == [] then UnknownSource
    else
      var last := tabHistory[|tabHistory| - 1];
      var elapsed := now - last.timestamp;
      if elapsed > PasteWindow then PasteEstimate(last.from, StaleConfidence, elapsed)
      else PasteEstimate(last.from, Clamp(MinConfidence, MaxConfidence, Decayed(elapsed) * SourceMultiplier(last.from)), elapsed)
  }

  /** Within the window and for a fixed last switch, a later paste is never more
      confidently attributed than an earlier one. */
  lemma ConfidenceNonIncreasingInWindow(tabHistory: seq<TabSwitch>, now1: int, now2: int)
    requires tabHistory != []
    requires now1 <= now2 <= tabHistory[|tabHistory| - 1].timestamp + PasteWindow
    ensures EstimatePasteSource(Some(EditorTab), tabHistory, now2).confidence
         <= EstimatePasteSource(Some(EditorTab), tabHistory, now1).confidence
  {
    var last := tabHistory[|tabHistory| - 1];
    var k := SourceMultiplier(last.from);
    assert k > 0.0;
    assert Decayed(now2 - last.timestamp) <= Decayed(now1 - last.timestamp);
    assert Decayed(now2 - last.timestamp) * k <= Decayed(now1 - last.timestamp) * k;
  }

  /** Inside the window the confidence is the decayed value times the source's factor,
      clamped to [0.1, 1.0]: a late paste from a weakly trusted tab gets exactly the floor. */
  lemma ConfidenceInWindow(tabHistory: seq<TabSwitch>, now: int)
    requires tabHistory != []
    requires now - tabHistory[|tabHistory| - 1].timestamp <= PasteWindow
    ensures var last := tabHistory[|tabHistory| - 1];
            var raw := (1.0 - ((now - last.timestamp) as real) / 30000.0) * SourceMultiplier(last.from);
            var c := EstimatePasteSource(Some(EditorTab), tabHistory, now).confidence;
            c == Clamp(0.1, 1.0, raw)
            && (raw < 0.1 ==> c == 0.1) && (raw > 1.0 ==> c == 1.0)
  {
  }

  /** Twenty-nine seconds after leaving a tab with the factor 0.7, the decayed value
      0.7 / 30 lies below the floor, so the confidence is 0.1. */
  lemma LatePasteGetsFloor()
    ensures EstimatePasteSource(Some(EditorTab), [TabSwitch("notes", "docs", 0, 0)], 29000).confidence == 0.1
  {
    ConfidenceInWindow([TabSwitch("notes", "docs", 0, 0)], 29000);
  }

  /** Where no clamping happens, the confidence is exactly the decayed value times the
      source's factor. */
  lemma ConfidenceUnclamped(tabHistory: seq<TabSwitch>, now: int)
    requires tabHistory != []
    requires now - tabHistory[|tabHistory| - 1].timestamp <= PasteWindow
    requires var last := tabHistory[|tabHistory| - 1];
             MinConfidence <= Decayed(now - last.timestamp) * SourceMultiplier(last.from) <= MaxConfidence
    ensures var last := tabHistory[|tabHistory| - 1];
            EstimatePasteSource(Some(EditorTab), tabHistory, now).confidence
            == (1.0 - ((now - last.timestamp) as real) / 30000.0) * SourceMultiplier(last.from)
  {
  }

  /** At the same elapsed time inside the window, a switch from the search tab is trusted
      at least as much as one from the chat tab, which is trusted at least as much as one
      from the custom-URL tab, which is trusted at least as much as any other. */
  lemma SourceBiasOrder(h1: seq<TabSwitch>, h2: seq<TabSwitch>, now: int)
    requires h1 != [] && h2 != []
    requires h1[|h1| - 1].timestamp == h2[|h2| - 1].timestamp
    requires now - h1[|h1| - 1].timestamp <= PasteWindow
    requires SourceMultiplier(h1[|h1| - 1].from) <= SourceMultiplier(h2[|h2| - 1].from)
    ensures EstimatePasteSource(Some(EditorTab), h1, now).confidence
         <= EstimatePasteSource(Some(EditorTab), h2, now).confidence
  {
    var t := h1[|h1| - 1].timestamp;
    var d := Decayed(now - t);
    assert d >= 0.0;
    assert d * SourceMultiplier(h1[|h1| - 1].from) <= d * SourceMultiplier(h2[|h2| - 1].from);
  }

  lemma MultiplierOrder()
    ensures SourceMultiplier("google") >= SourceMultiplier("chatgpt")
    ensures SourceMultiplier("chatgpt") >= SourceMultiplier("custom")
    ensures forall from :: SourceMultiplier("custom") >= SourceMultiplier(from) || from in {"google", "chatgpt"}
  {
  }

  /** The confidence is not monotone across the window's edge: a paste exactly 30 s after
      the switch gets the floor 0.1, one a millisecond later gets the stale 0.3. */
  lemma ConfidenceJumpsAtWindowEdge(tabHistory: seq<TabSwitch>)
    requires tabHistory != []
    ensures var t := tabHistory[|tabHistory| - 1].timestamp;
            EstimatePasteSource(Some(EditorTab), tabHistory, t + PasteWindow).confidence == MinConfidence
            && EstimatePasteSource(Some(EditorTab), tabHistory, t + PasteWindow + 1).confidence == StaleConfidence
  {
  }

  /** Sample pastes: five seconds after leaving the search tab, 5/6; one
      second after leaving the chat tab, 0.87; forty seconds after any switch, 0.3; and
      outside the editor, nothing. */
  lemma EstimateScenarios()
    ensures EstimatePasteSource(Some(EditorTab), [TabSwitch("google", "docs", 0, 0)], 5000)
         == PasteEstimate("google", 5.0 / 6.0, 5000)
    ensures EstimatePasteSource(Some(EditorTab), [TabSwitch("chatgpt", "docs", 0, 0)], 1000)
         == PasteEstimate("chatgpt", 0.87, 1000)
    ensures EstimatePasteSource(Some(EditorTab), [TabSwitch("custom", "docs", 0, 0)], 40000)
         == PasteEstimate("custom", 0.3, 40000)
    ensures EstimatePasteSource(Some("google"), [TabSwitch("chatgpt", "google", 0, 0)], 1000) == UnknownSource
  {
  }
}
