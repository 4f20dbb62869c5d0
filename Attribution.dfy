/** The attribution engine's state (`AttributionTracker`): an append-only activity log
    behind an on/off switch, a one-slot segmenter for the paragraph being written, the
    list of finished paragraphs each linked to the activities of the 15 minutes before it
    ended, and a statistics view over both logs. Instants are integer milliseconds. */
module Attribution {
  import opened Common
  import Words

  /** Caps on the free-text payload fields, in characters. */
  const PromptCap := 500
  const ResponseCap := 1000
  const QueryCap := 200
  const TitleCap := 100
  const CopiedTextCap := 500

  const MillisPerMinute := 60000
  /** The look-back window, in minutes, that `endParagraph` links to a paragraph. */
  const SourceWindowMinutes := 15

  /** The `data` object of an activity. The four typed recorders build the first four
      shapes; `Fields` is any other object a caller hands to `trackActivity`, with every
      value held as a string. */
  datatype Payload =
    | ChatGPTPrompt(prompt: string, response: string, model: string, promptLength: nat, responseLength: nat)
    | Search(query: string, clickedUrl: Option<string>, searchTime: int)
    | WebsiteVisit(url: string, title: string, duration: int, visitTime: int)
    | CopiedText(text: string, url: string, title: string, textLength: nat, copyTime: int)
    | Fields(entries: map<string, string>)

  /** One recorded action; `kind` is the source's `type` field. */
  datatype Activity = Activity(id: string, kind: string, timestamp: int, data: Payload)

  /** A paragraph: open while `endTime` is `None`; `duration` (whole minutes) is set
      when it is finished. */
  datatype Paragraph = Paragraph(
    id: string,
    content: string,
    startTime: int,
    endTime: Option<int>,
    sources: seq<Activity>,
    wordCount: nat,
    characterCount: nat,
    duration: Option<int>)

  datatype Statistics = Statistics(
    totalParagraphs: nat,
    totalActivities: nat,
    totalWords: nat,
    totalCharacters: nat,
    sourceTypes: map<string, nat>,
    averageWordsPerParagraph: int)

  // ---------------------------------------------------------------- payloads

  /** The payload `trackChatGPTPrompt` records. */
  function ChatGPTPromptData(prompt: string, response: string, model: string): (d: Payload)
    ensures d.ChatGPTPrompt? && d.model == model
    ensures |d.prompt| == Min(|prompt|, PromptCap) && d.prompt == prompt[..|d.prompt|]
    ensures |d.response| == Min(|response|, ResponseCap) && d.response == response[..|d.response|]
    ensures d.promptLength == |prompt| && d.responseLength == |response|
  {
    ChatGPTPrompt(Prefix(prompt, PromptCap), Prefix(response, ResponseCap), model, |prompt|, |response|)
  }

  /** The payload `trackSearch` records at instant `now`. */
  function SearchData(query: string, url: Option<string>, now: int): (d: Payload)
    ensures d.Search? && d.clickedUrl == url && d.searchTime == now
    ensures |d.query| == Min(|query|, QueryCap) && d.query == query[..|d.query|]
  {
    Search(Prefix(query, QueryCap), url, now)
  }

  /** The payload `trackWebsiteVisit` records at instant `now`. */
  function WebsiteVisitData(url: string, title: string, duration: int, now: int): (d: Payload)
    ensures d.WebsiteVisit? && d.url == url && d.duration == duration && d.visitTime == now
    ensures |d.title| == Min(|title|, TitleCap) && d.title == title[..|d.title|]
  {
    WebsiteVisit(url, Prefix(title, TitleCap), duration, now)
  }

  /** The payload `trackCopiedText` records at instant `now`. */
  function CopiedTextData(text: string, url: string, title: string, now: int): (d: Payload)
    ensures d.CopiedText? && d.url == url && d.copyTime == now
    ensures |d.text| == Min(|text|, CopiedTextCap) && d.text == text[..|d.text|]
    ensures |d.title| == Min(|title|, TitleCap) && d.title == title[..|d.title|]
    ensures d.textLength == |text|
  {
    CopiedText(Prefix(text, CopiedTextCap), url, Prefix(title, TitleCap), |text|, now)
  }

  // ---------------------------------------------------------------- look-back filter

  /** The earliest instant `getRecentActivities(minutes)` keeps when called at `now`. */
  function Cutoff(now: int, minutes: int): (c: int)
    ensures now - c == minutes * MillisPerMinute
    ensures minutes >= 0 ==> c <= now
  {
    now - minutes * MillisPerMinute
  }

  /** `activities.filter(a => a.timestamp >= cutoff)`. */
  function RecentActivities(acts: seq<Activity>, cutoff: int): (r: seq<Activity>)
    ensures |r| <= |acts|
  {
    if acts == [] then []
    else
      var rest := RecentActivities(acts[1..], cutoff);
      if acts[0].timestamp >= cutoff then [acts[0]] + rest else rest
  }

  /** The filter keeps exactly the recorded activities stamped at or after the cutoff. */
  lemma {:induction false} RecentActivitiesMembers(acts: seq<Activity>, cutoff: int, a: Activity)
    ensures a in RecentActivities(acts, cutoff) <==> a in acts && a.timestamp >= cutoff
  {
    if acts != [] {
      assert acts == [acts[0]] + acts[1..];
      RecentActivitiesMembers(acts[1..], cutoff, a);
    }
  }

  /** Every activity in the window is kept as often as it was recorded; the others are
      dropped. */
  lemma {:induction false} RecentActivitiesCounts(acts: seq<Activity>, cutoff: int, a: Activity)
    ensures multiset(RecentActivities(acts, cutoff))[a]
         == if a.timestamp >= cutoff then multiset(acts)[a] else 0
  {
    if acts != [] {
      assert acts == [acts[0]] + acts[1..];
      RecentActivitiesCounts(acts[1..], cutoff, a);
    }
  }

  /** `r` is `s` with some elements left out, the rest kept in their order. */
  ghost predicate IsSubsequence<T>(r: seq<T>, s: seq<T>)
    decreases |s|
  {
    if s == [] then r == []
    else (r != [] && r[0] == s[0] && IsSubsequence(r[1..], s[1..])) || IsSubsequence(r, s[1..])
  }

  /** The filter keeps the activities in the order they were recorded. */
  lemma {:induction false} RecentActivitiesInOrder(acts: seq<Activity>, cutoff: int)
    ensures IsSubsequence(RecentActivities(acts, cutoff), acts)
  {
    if acts != [] {
      RecentActivitiesInOrder(acts[1..], cutoff);
      var r := RecentActivities(acts, cutoff);
      if acts[0].timestamp >= cutoff {
        assert r[1..] == RecentActivities(acts[1..], cutoff);
      }
    }
  }

  /** Recording one more activity extends the filtered view by that activity exactly when
      it lies in the window; with `RecentActivities([], c) == []` this determines the
      filter completely. */
  lemma {:induction false} RecentActivitiesAppend(acts: seq<Activity>, a: Activity, cutoff: int)
    ensures RecentActivities(acts + [a], cutoff)
         == RecentActivities(acts, cutoff) + (if a.timestamp >= cutoff then [a] else [])
  {
    if acts == [] {
      assert [a][1..] == [];
    } else {
      var tail := if a.timestamp >= cutoff then [a] else [];
      var rest := RecentActivities(acts[1..], cutoff);
      assert (acts + [a])[0] == acts[0];
      assert (acts + [a])[1..] == acts[1..] + [a];
      assert RecentActivities(acts[1..] + [a], cutoff) == rest + tail by {
        RecentActivitiesAppend(acts[1..], a, cutoff);
      }
      if acts[0].timestamp >= cutoff {
        assert RecentActivities(acts, cutoff) == [acts[0]] + rest;
        assert RecentActivities(acts + [a], cutoff) == [acts[0]] + (rest + tail);
        assert [acts[0]] + (rest + tail) == ([acts[0]] + rest) + tail;
      } else {
        assert RecentActivities(acts, cutoff) == rest;
        assert RecentActivities(acts + [a], cutoff) == rest + tail;
      }
    }
  }

  /** The 15-minute window is inclusive: an activity exactly 15 minutes old is linked,
      one 16 minutes old is not, one 14 minutes old is. */
  lemma SourceWindowBoundary(acts: seq<Activity>, now: int, a: Activity)
    requires a in acts
    ensures a.timestamp == now - 15 * MillisPerMinute ==> a in RecentActivities(acts, Cutoff(now, SourceWindowMinutes))
    ensures a.timestamp == now - 14 * MillisPerMinute ==> a in RecentActivities(acts, Cutoff(now, SourceWindowMinutes))
    ensures a.timestamp == now - 16 * MillisPerMinute ==> a !in RecentActivities(acts, Cutoff(now, SourceWindowMinutes))
  {
    RecentActivitiesMembers(acts, Cutoff(now, SourceWindowMinutes), a);
  }

  // ---------------------------------------------------------------- rounding, duration

  /** `Math.round(n / d)` for a positive divisor: the integer nearest to n/d, a half
      rounding up. */
  function RoundDiv(n: int, d: int): (r: int)
    requires d > 0
    ensures d * (2 * r - 1) <= 2 * n < d * (2 * r + 1)
  {
    var q := (2 * n + d) / (2 * d);
    assert 2 * d * q <= 2 * n + d < 2 * d * q + 2 * d;
    q
  }

  /** The bracket of `RoundDiv` admits one integer only. */
  lemma RoundDivUnique(n: int, d: int, r: int)
    requires d > 0
    requires d * (2 * r - 1) <= 2 * n < d * (2 * r + 1)
    ensures r == RoundDiv(n, d)
  {
    var q := RoundDiv(n, d);
    if r < q {
      assert d * (2 * r + 1) <= d * (2 * q - 1) by {
        assert 2 * r + 1 <= 2 * q - 1;
        MultiplyMonotone(d, 2 * r + 1, 2 * q - 1);
      }
    } else if r > q {
      assert d * (2 * q + 1) <= d * (2 * r - 1) by {
        MultiplyMonotone(d, 2 * q + 1, 2 * r - 1);
      }
    }
  }

  lemma MultiplyMonotone(d: int, x: int, y: int)
    requires d > 0 && x <= y
    ensures d * x <= d * y
  {
    assert d * y - d * x == d * (y - x);
  }

  /** `calculateDuration(start, end)`: elapsed whole minutes, rounded to nearest. */
  function CalculateDuration(startTime: int, endTime: int): (minutes: int)
    ensures MillisPerMinute * (2 * minutes - 1) <= 2 * (endTime - startTime) < MillisPerMinute * (2 * minutes + 1)
  {
    RoundDiv(endTime - startTime, MillisPerMinute)
  }

  // ---------------------------------------------------------------- paragraphs

  /** A paragraph that has not been finished yet. */
  predicate IsOpen(p: Paragraph)
  {
    p.endTime == None && p.sources == [] && p.duration == None
  }

  /** The record `startParagraph(content)` creates at instant `now`. */
  function NewParagraph(id: string, content: string, now: int): (p: Paragraph)
    ensures IsOpen(p) && p.id == id && p.content == content && p.startTime == now
    ensures p.wordCount == 0 && p.characterCount == 0
  {
    Paragraph(id, content, now, None, [], 0, 0, None)
  }

  /** The open paragraph after `updateParagraph(content)`: a new one when none was open,
      otherwise the open one with its content and both counts replaced. */
  function UpdatedParagraph(current: Option<Paragraph>, content: string, id: string, now: int): (p: Paragraph)
    ensures current.None? ==> p == NewParagraph(id, content, now)
    ensures current.Some? ==> p.content == content && p.wordCount == Words.CountWords(content)
                              && p.characterCount == |content|
    ensures current.Some? ==> p.id == current.value.id && p.startTime == current.value.startTime
                              && p.endTime == current.value.endTime && p.sources == current.value.sources
                              && p.duration == current.value.duration
  {
    match current
    case None => NewParagraph(id, content, now)
    case Some(q) => q.(content := content, wordCount := Words.CountWords(content), characterCount := |content|)
  }

  /** The record `endParagraph` stores when it finishes `p` at `now`, the activity log being
      `acts`. */
  function Finished(p: Paragraph, acts: seq<Activity>, now: int): (q: Paragraph)
    ensures q.endTime == Some(now) && q.duration == Some(CalculateDuration(p.startTime, now))
    ensures q.sources == RecentActivities(acts, Cutoff(now, SourceWindowMinutes))
    ensures q.id == p.id && q.content == p.content && q.startTime == p.startTime
    ensures q.wordCount == p.wordCount && q.characterCount == p.characterCount
  {
    p.(endTime := Some(now),
       sources := RecentActivities(acts, Cutoff(now, SourceWindowMinutes)),
       duration := Some(CalculateDuration(p.startTime, now)))
  }

  /** `paragraphs.find(p => p.id === id) || null`. */
  function FindParagraph(ps: seq<Paragraph>, id: string): (r: Option<Paragraph>)
    ensures r.None? <==> forall i :: 0 <= i < |ps| ==> ps[i].id != id
    ensures r.Some? ==> exists i :: 0 <= i < |ps| && ps[i] == r.value && r.value.id == id
                                    && forall j :: 0 <= j < i ==> ps[j].id != id
  {
    if ps == [] then None
    else if ps[0].id == id then Some(ps[0])
    else
      var r := FindParagraph(ps[1..], id);
      assert forall i :: 1 <= i < |ps| ==> ps[i] == ps[1..][i - 1];
      r
  }

  // ---------------------------------------------------------------- statistics

  /** Number of activities of kind `k`. */
  function CountOfKind(acts: seq<Activity>, k: string): (c: nat)
    ensures c <= |acts|
  {
    if acts == [] then 0 else (if acts[0].kind == k then 1 else 0) + CountOfKind(acts[1..], k)
  }

  /** A kind is counted at least once exactly when some activity has it. */
  lemma {:induction false} CountOfKindPositive(acts: seq<Activity>, k: string)
    ensures CountOfKind(acts, k) > 0 <==> k in Kinds(acts)
  {
    if acts != [] {
      CountOfKindPositive(acts[1..], k);
      assert Kinds(acts) == {acts[0].kind} + Kinds(acts[1..]) by {
        assert forall a :: a in acts <==> a == acts[0] || a in acts[1..];
      }
    }
  }

  lemma {:induction false} CountOfKindAppend(acts: seq<Activity>, a: Activity, k: string)
    ensures CountOfKind(acts + [a], k) == CountOfKind(acts, k) + (if a.kind == k then 1 else 0)
  {
    if acts == [] {
      assert [a][1..] == [];
    } else {
      assert (acts + [a])[1..] == acts[1..] + [a];
      CountOfKindAppend(acts[1..], a, k);
    }
  }

  /** The kinds that occur in `acts`. */
  function Kinds(acts: seq<Activity>): set<string>
  {
    set a | a in acts :: a.kind
  }

  lemma KindsAppend(acts: seq<Activity>, a: Activity)
    ensures Kinds(acts + [a]) == Kinds(acts) + {a.kind}
  {
    assert forall x :: x in acts + [a] <==> x in acts || x == a;
  }

  /** The `sourceTypes` object of `getStatistics`, given as a whole: one key per kind
      present, mapped to the number of activities of that kind. */
  function KindHistogram(acts: seq<Activity>): map<string, nat>
  {
    map k | k in Kinds(acts) :: CountOfKind(acts, k)
  }

  /** A kind is a key exactly when some activity has it, and then it maps to a positive
      count of that kind. */
  lemma KindHistogramEntry(acts: seq<Activity>, k: string)
    ensures k in KindHistogram(acts) <==> CountOfKind(acts, k) > 0
    ensures k in KindHistogram(acts) ==> KindHistogram(acts)[k] == CountOfKind(acts, k)
  {
    CountOfKindPositive(acts, k);
  }

  /** One more activity bumps the count of its kind, starting from 0 for a new kind, and
      leaves every other entry alone: the update the `forEach` performs. */
  lemma KindHistogramAppend(acts: seq<Activity>, a: Activity)
    ensures var h := KindHistogram(acts);
            KindHistogram(acts + [a]) == h[a.kind := (if a.kind in h then h[a.kind] else 0) + 1]
  {
    var h := KindHistogram(acts);
    var g := KindHistogram(acts + [a]);
    var u := h[a.kind := (if a.kind in h then h[a.kind] else 0) + 1];
    KindsAppend(acts, a);
    assert g.Keys == u.Keys;
    forall k | k in g ensures g[k] == u[k] {
      CountOfKindAppend(acts, a, k);
      CountOfKindPositive(acts, k);
    }
  }

  /** The `forEach` of `getStatistics`: one pass over the activities, bumping the entry
      of each one's kind. */
  method CountKinds(acts: seq<Activity>) returns (sourceTypes: map<string, nat>)
    ensures sourceTypes == KindHistogram(acts)
  {
    sourceTypes := map[];
    var i := 0;
    while i < |acts|
      invariant 0 <= i <= |acts|
      invariant sourceTypes == KindHistogram(acts[..i])
    {
      var k := acts[i].kind;
      assert acts[..i + 1] == acts[..i] + [acts[i]];
      KindHistogramAppend(acts[..i], acts[i]);
      sourceTypes := sourceTypes[k := (if k in sourceTypes then sourceTypes[k] else 0) + 1];
      i := i + 1;
    }
    assert acts[..i] == acts;
  }

  /** Sum of the values of `h` at the listed keys. */
  function SumAt(h: map<string, nat>, keys: seq<string>): nat
  {
    if keys == [] then 0 else (if keys[0] in h then h[keys[0]] else 0) + SumAt(h, keys[1..])
  }

  predicate NoDuplicates<T(==)>(s: seq<T>)
  {
    forall i, j :: 0 <= i < j < |s| ==> s[i] != s[j]
  }

  /** Sum over the listed kinds of the per-kind counts. */
  function SumOfCounts(acts: seq<Activity>, keys: seq<string>): nat
  {
    if keys == [] then 0 else CountOfKind(acts, keys[0]) + SumOfCounts(acts, keys[1..])
  }

  /** Number of times `x` occurs in `keys`. */
  function Occurrences(keys: seq<string>, x: string): nat
  {
    if keys == [] then 0 else (if keys[0] == x then 1 else 0) + Occurrences(keys[1..], x)
  }

  lemma {:induction false} OccursOnce(keys: seq<string>, x: string)
    requires NoDuplicates(keys) && x in keys
    ensures Occurrences(keys, x) == 1
  {
    if keys[0] == x {
      NotOccurring(keys[1..], x);
    } else {
      OccursOnce(keys[1..], x);
    }
  }

  lemma {:induction false} NotOccurring(keys: seq<string>, x: string)
    requires x !in keys
    ensures Occurrences(keys, x) == 0
  {
    if keys != [] {
      NotOccurring(keys[1..], x);
    }
  }

  lemma {:induction false} SumOfCountsCons(a: Activity, acts: seq<Activity>, keys: seq<string>)
    ensures SumOfCounts([a] + acts, keys) == Occurrences(keys, a.kind) + SumOfCounts(acts, keys)
  {
    if keys != [] {
      assert ([a] + acts)[1..] == acts;
      SumOfCountsCons(a, acts, keys[1..]);
    }
  }

  lemma {:induction false} SumOfCountsTotal(acts: seq<Activity>, keys: seq<string>)
    requires NoDuplicates(keys)
    requires forall a :: a in acts ==> a.kind in keys
    ensures SumOfCounts(acts, keys) == |acts|
  {
    if acts == [] {
      SumOfCountsEmpty(keys);
    } else {
      assert acts == [acts[0]] + acts[1..];
      SumOfCountsCons(acts[0], acts[1..], keys);
      OccursOnce(keys, acts[0].kind);
      SumOfCountsTotal(acts[1..], keys);
    }
  }

  lemma {:induction false} SumOfCountsEmpty(keys: seq<string>)
    ensures SumOfCounts([], keys) == 0
  {
    if keys != [] {
      SumOfCountsEmpty(keys[1..]);
    }
  }

  lemma {:induction false} SumAtHistogram(acts: seq<Activity>, keys: seq<string>)
    requires forall k :: k in keys ==> k in KindHistogram(acts)
    ensures SumAt(KindHistogram(acts), keys) == SumOfCounts(acts, keys)
  {
    if keys != [] {
      SumAtHistogram(acts, keys[1..]);
    }
  }

  /** The `sourceTypes` counts add up to `totalActivities`: summing them over any listing
      of the histogram's keys without repetition gives the number of activities. */
  lemma HistogramTotal(acts: seq<Activity>, keys: seq<string>)
    requires NoDuplicates(keys)
    requires forall k :: k in keys <==> k in KindHistogram(acts)
    ensures SumAt(KindHistogram(acts), keys) == |acts|
  {
    SumAtHistogram(acts, keys);
    SumOfCountsTotal(acts, keys);
  }

  /** `paragraphs.reduce((sum, p) => sum + p.wordCount, 0)`. */
  function TotalWords(ps: seq<Paragraph>): (total: nat)
    ensures forall i :: 0 <= i < |ps| ==> ps[i].wordCount <= total
    ensures total == 0 <==> forall i :: 0 <= i < |ps| ==> ps[i].wordCount == 0
  {
    if ps == [] then 0 else ps[0].wordCount + TotalWords(ps[1..])
  }

  /** `paragraphs.reduce((sum, p) => sum + p.characterCount, 0)`. */
  function TotalCharacters(ps: seq<Paragraph>): (total: nat)
    ensures forall i :: 0 <= i < |ps| ==> ps[i].characterCount <= total
    ensures total == 0 <==> forall i :: 0 <= i < |ps| ==> ps[i].characterCount == 0
  {
    if ps == [] then 0 else ps[0].characterCount + TotalCharacters(ps[1..])
  }

  /** Finishing a paragraph adds its own counts to the totals. */
  lemma {:induction false} TotalsAppend(ps: seq<Paragraph>, p: Paragraph)
    ensures TotalWords(ps + [p]) == TotalWords(ps) + p.wordCount
    ensures TotalCharacters(ps + [p]) == TotalCharacters(ps) + p.characterCount
  {
    if ps == [] {
      assert [p][1..] == [];
    } else {
      assert (ps + [p])[1..] == ps[1..] + [p];
      TotalsAppend(ps[1..], p);
    }
  }

  /** `averageWordsPerParagraph`: 0 without paragraphs, else the rounded mean. */
  function AverageWords(totalWords: nat, totalParagraphs: nat): (avg: int)
    ensures totalParagraphs == 0 ==> avg == 0
    ensures totalParagraphs > 0 ==> totalParagraphs * (2 * avg - 1) <= 2 * totalWords < totalParagraphs * (2 * avg + 1)
  {
    if totalParagraphs > 0 then RoundDiv(totalWords, totalParagraphs) else 0
  }

  /** 10 words over 3 paragraphs average 3 (10/3 rounds down); 0 paragraphs average 0. */
  lemma AverageWordsExamples()
    ensures AverageWords(10, 3) == 3
    ensures AverageWords(10, 0) == 0
  {
    RoundDivUnique(10, 3, 3);
  }

  // ---------------------------------------------------------------- the tracker

  class AttributionTracker {
    var currentParagraph: Option<Paragraph>
    var activities: seq<Activity>
    var paragraphs: seq<Paragraph>
    var isTracking: bool
    var lastActivityTime: Option<int>

    /** The open slot only ever holds an unfinished paragraph. */
    ghost predicate Valid()
      reads this`currentParagraph
    {
      currentParagraph.Some? ==> IsOpen(currentParagraph.value)
    }

    /** `new AttributionTracker()`: the logs start as whatever was stored (empty when
        nothing was), and tracking is switched on. */
    constructor (storedActivities: seq<Activity>, storedParagraphs: seq<Paragraph>)
      ensures Valid()
      ensures activities == storedActivities && paragraphs == storedParagraphs
      ensures currentParagraph == None && isTracking && lastActivityTime == None
    {
      currentParagraph := None;
      activities := storedActivities;
      paragraphs := storedParagraphs;
      isTracking := true;
      lastActivityTime := None;
    }

    method StartTracking()
      modifies this`isTracking
      ensures isTracking
    {
      isTracking := true;
    }

    method StopTracking()
      modifies this`isTracking
      ensures !isTracking
    {
      isTracking := false;
    }

    /** `trackActivity(kind, data)`: with tracking off, records nothing and returns
        nothing; otherwise appends one new activity stamped `now` and returns it. */
    method TrackActivity(kind: string, data: Payload, id: string, now: int) returns (r: Option<Activity>)
      modifies this`activities, this`lastActivityTime
      ensures !isTracking ==> (r == None && activities == old(activities)
                               && lastActivityTime == old(lastActivityTime))
      ensures isTracking ==> (r == Some(Activity(id, kind, now, data))
                              && activities == old(activities) + [r.value]
                              && lastActivityTime == Some(now))
    {
      if !isTracking {
        return None;
      }
      var activity := Activity(id, kind, now, data);
      activities := activities + [activity];
      lastActivityTime := Some(now);
      r := Some(activity);
    }

    method TrackChatGPTPrompt(prompt: string, response: string, model: string, id: string, now: int)
      returns (r: Option<Activity>)
      modifies this`activities, this`lastActivityTime
      ensures !isTracking ==> (r == None && activities == old(activities)
                               && lastActivityTime == old(lastActivityTime))
      ensures isTracking ==> (r == Some(Activity(id, "chatgpt_prompt", now, ChatGPTPromptData(prompt, response, model)))
                              && activities == old(activities) + [r.value] && lastActivityTime == Some(now))
    {
      r := TrackActivity("chatgpt_prompt", ChatGPTPromptData(prompt, response, model), id, now);
    }

    method TrackSearch(query: string, url: Option<string>, id: string, now: int) returns (r: Option<Activity>)
      modifies this`activities, this`lastActivityTime
      ensures !isTracking ==> (r == None && activities == old(activities)
                               && lastActivityTime == old(lastActivityTime))
      ensures isTracking ==> (r == Some(Activity(id, "search", now, SearchData(query, url, now)))
                              && activities == old(activities) + [r.value] && lastActivityTime == Some(now))
    {
      r := TrackActivity("search", SearchData(query, url, now), id, now);
    }

    method TrackWebsiteVisit(url: string, title: string, duration: int, id: string, now: int)
      returns (r: Option<Activity>)
      modifies this`activities, this`lastActivityTime
      ensures !isTracking ==> (r == None && activities == old(activities)
                               && lastActivityTime == old(lastActivityTime))
      ensures isTracking ==> (r == Some(Activity(id, "website_visit", now, WebsiteVisitData(url, title, duration, now)))
                              && activities == old(activities) + [r.value] && lastActivityTime == Some(now))
    {
      r := TrackActivity("website_visit", WebsiteVisitData(url, title, duration, now), id, now);
    }

    method TrackCopiedText(text: string, url: string, title: string, id: string, now: int)
      returns (r: Option<Activity>)
      modifies this`activities, this`lastActivityTime
      ensures !isTracking ==> (r == None && activities == old(activities)
                               && lastActivityTime == old(lastActivityTime))
      ensures isTracking ==> (r == Some(Activity(id, "text_copied", now, CopiedTextData(text, url, title, now)))
                              && activities == old(activities) + [r.value] && lastActivityTime == Some(now))
    {
      r := TrackActivity("text_copied", CopiedTextData(text, url, title, now), id, now);
    }

    /** `startParagraph(initialContent)`: replaces whatever was open by a fresh record. */
    method StartParagraph(initialContent: string, id: string, now: int) returns (p: Paragraph)
      modifies this`currentParagraph
      ensures Valid()
      ensures p == NewParagraph(id, initialContent, now) && currentParagraph == Some(p)
    {
      p := NewParagraph(id, initialContent, now);
      currentParagraph := Some(p);
    }

    /** `updateParagraph(content)`: opens a paragraph holding `content` (counts left at 0)
        when none is open, otherwise replaces its content and recounts. */
    method UpdateParagraph(content: string, id: string, now: int)
      requires Valid()
      modifies this`currentParagraph
      ensures Valid()
      ensures currentParagraph == Some(UpdatedParagraph(old(currentParagraph), content, id, now))
    {
      if currentParagraph.None? {
        var _ := StartParagraph(content, id, now);
      } else {
        var p := currentParagraph.value;
        currentParagraph := Some(p.(content := content,
                                    wordCount := Words.CountWords(content),
                                    characterCount := |content|));
      }
    }

    /** `endParagraph()`: with nothing open, returns nothing and changes nothing; otherwise
        stamps the open paragraph, links every activity of the last 15 minutes to it,
        appends it to `paragraphs`, empties the slot and returns the stored record. */
    method EndParagraph(now: int) returns (r: Option<Paragraph>)
      requires Valid()
      modifies this`currentParagraph, this`paragraphs
      ensures Valid() && currentParagraph == None
      ensures old(currentParagraph).None? ==> r == None && paragraphs == old(paragraphs)
      ensures old(currentParagraph).Some? ==>
                r == Some(Finished(old(currentParagraph).value, activities, now))
                && paragraphs == old(paragraphs) + [r.value]
    {
      if currentParagraph.None? {
        return None;
      }
      var p := currentParagraph.value;
      var sources := GetRecentActivities(SourceWindowMinutes, now);
      p := p.(endTime := Some(now), sources := sources,
              duration := Some(CalculateDuration(p.startTime, now)));
      paragraphs := paragraphs + [p];
      currentParagraph := None;
      r := Some(p);
    }

    /** `getRecentActivities(minutes)` called at instant `now`. */
    method GetRecentActivities(minutes: int, now: int) returns (r: seq<Activity>)
      ensures r == RecentActivities(activities, Cutoff(now, minutes))
    {
      r := RecentActivities(activities, Cutoff(now, minutes));
    }

    /** `getParagraph(id)`: the first stored paragraph with that id, if any. */
    method GetParagraph(paragraphId: string) returns (r: Option<Paragraph>)
      ensures r == FindParagraph(paragraphs, paragraphId)
    {
      r := FindParagraph(paragraphs, paragraphId);
    }

    method GetAllParagraphs() returns (r: seq<Paragraph>)
      ensures r == paragraphs
    {
      r := paragraphs;
    }

    method GetAllActivities() returns (r: seq<Activity>)
      ensures r == activities
    {
      r := activities;
    }

    /** `clearAllData()`: empties both logs and the open slot; the tracking switch and the
        last activity time are left as they are. */
    method ClearAllData()
      modifies this`activities, this`paragraphs, this`currentParagraph
      ensures Valid()
      ensures activities == [] && paragraphs == [] && currentParagraph == None
    {
      activities := [];
      paragraphs := [];
      currentParagraph := None;
    }

    /** `getStatistics()`: the lengths of both logs, the per-kind histogram, the word and
        character sums and the rounded average. */
    method GetStatistics() returns (s: Statistics)
      ensures s.totalParagraphs == |paragraphs| && s.totalActivities == |activities|
      ensures s.sourceTypes == KindHistogram(activities)
      ensures s.totalWords == TotalWords(paragraphs) && s.totalCharacters == TotalCharacters(paragraphs)
      ensures s.averageWordsPerParagraph == AverageWords(s.totalWords, s.totalParagraphs)
    {
      var sourceTypes := CountKinds(activities);
      var totalWords := TotalWords(paragraphs);
      s := Statistics(|paragraphs|, |activities|, totalWords, TotalCharacters(paragraphs),
                      sourceTypes, AverageWords(totalWords, |paragraphs|));
    }
  }
}
