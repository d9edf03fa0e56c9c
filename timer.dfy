/** The current timer store (`bot/models/timer.py`): the `Timer` record, the derivation of
    its system, structure and notes from the description, and the `TimerBoard` that holds
    the timers and hands out ids. */
module Timers {
  import opened Wrappers
  import opened Strings
  import opened DateTimes
  import opened Seqs
  import opened Patterns
  import opened Helpers
  import opened EveData
  import opened Discord

  /** `TimerBoard.STARTING_TIMER_ID`: ids are never below it. */
  const StartingTimerId: int := 1000

  /** A timer. `message_id` is never read or set by the board and is not modelled. */
  datatype Timer = Timer(
    time: Instant,
    description: string,
    timerId: int,
    system: string,
    structureName: string,
    notes: string,
    region: string)

  /** Timers are ordered and compared by the instant they denote. */
  function TimeKey(t: Timer): int {
    Seconds(t.time)
  }

  // ---------------------------------------------------------------------------------------
  // `([A-Z0-9-]+)\s*-\s*(.*?)(?:\s+\[.*\])?$`, anchored at the start (`re.match`), with
  // `minLen` 0, and the same pattern with `(.+?)` with `minLen` 1. The search below visits
  // the candidates in the order of the regex engine: the system run from longest to
  // shortest, then the whitespace after the dash from longest to shortest, then the
  // structure from shortest to longest; at each structure end the optional bracket tail is
  // tried before `$`. The whitespace before the dash has one candidate only: a shorter run
  // leaves a whitespace character where the dash must be.

  /** Where the groups of a match end: group 1 is `s[..systemEnd]`, group 2 is
      `s[structStart..structEnd]` and the whole match is `s[..matchEnd]`. */
  datatype DashMatch = DashMatch(systemEnd: nat, structStart: nat, structEnd: nat, matchEnd: nat)

  /** The structure group has ended at `q`: the optional `\s+\[.*\]` and then `$`. */
  function TailFrom(s: string, q: nat): (r: Option<(nat, nat)>)
    requires q <= |s|
    ensures r.Some? ==> q <= r.value.0 <= r.value.1 <= |s| && DollarAt(s, r.value.1)
    ensures r.Some? ==> NoNewline(s, q, r.value.0)
    ensures r.Some? ==> r.value.1 == r.value.0 || BracketTailAt(s, r.value.0)
    decreases |s| - q
  {
    if BracketTailAt(s, q) then Some((q, DollarEnd(s)))
    else if DollarAt(s, q) then Some((q, q))
    else if q < |s| && s[q] != '\n' then TailFrom(s, q + 1)
    else None
  }

  /** The structure group starts at `c0` or, backtracking, at an earlier position down to `lo`. */
  function StructFrom(s: string, n: nat, lo: nat, c0: nat, minLen: nat): (r: Option<DashMatch>)
    requires lo <= c0 <= |s|
    ensures r.Some? ==> r.value.systemEnd == n && lo <= r.value.structStart <= c0
    ensures r.Some? ==> r.value.structStart + minLen <= r.value.structEnd <= r.value.matchEnd <= |s|
    ensures r.Some? ==> NoNewline(s, r.value.structStart, r.value.structEnd) && DollarAt(s, r.value.matchEnd)
    decreases c0 - lo
  {
    var t := if c0 + minLen <= |s| && NoNewline(s, c0, c0 + minLen) then TailFrom(s, c0 + minLen) else None;
    if t.Some? then Some(DashMatch(n, c0, t.value.0, t.value.1))
    else if c0 == lo then None
    else StructFrom(s, n, lo, c0 - 1, minLen)
  }

  /** Group 1 is exactly `s[..n]`: the whitespace, the dash and the rest must follow. */
  function DashAttempt(s: string, n: nat, minLen: nat): (r: Option<DashMatch>)
    requires 1 <= n <= |s|
    ensures r.Some? ==> r.value.systemEnd == n
    ensures r.Some? ==> var p := RunEnd(s, n, Space);
      p < |s| && s[p] == '-' && p < r.value.structStart
    ensures r.Some? ==> r.value.structStart + minLen <= r.value.structEnd <= r.value.matchEnd <= |s|
    ensures r.Some? ==> NoNewline(s, r.value.structStart, r.value.structEnd) && DollarAt(s, r.value.matchEnd)
  {
    var p := RunEnd(s, n, Space);
    if p < |s| && s[p] == '-' then StructFrom(s, n, p + 1, RunEnd(s, p + 1, Space), minLen) else None
  }

  /** Group 1 is `s[..n]`, or, backtracking, a shorter run. */
  function SystemFrom(s: string, n: nat, minLen: nat): (r: Option<DashMatch>)
    requires 1 <= n <= |s|
    ensures r.Some? ==> 1 <= r.value.systemEnd <= n
    ensures r.Some? ==> var p := RunEnd(s, r.value.systemEnd, Space);
      p < |s| && s[p] == '-' && p < r.value.structStart
    ensures r.Some? ==> r.value.structStart + minLen <= r.value.structEnd <= r.value.matchEnd <= |s|
    ensures r.Some? ==> NoNewline(s, r.value.structStart, r.value.structEnd) && DollarAt(s, r.value.matchEnd)
    decreases n
  {
    var r := DashAttempt(s, n, minLen);
    if r.Some? then r
    else if n == 1 then None
    else SystemFrom(s, n - 1, minLen)
  }

  /** The whole match, if any. */
  function MatchDash(s: string, minLen: nat): (r: Option<DashMatch>)
    ensures r.Some? ==> r.value.structStart + minLen <= r.value.structEnd <= r.value.matchEnd <= |s|
    ensures r.Some? ==> 1 <= r.value.systemEnd <= r.value.structStart
    ensures r.Some? ==> forall k :: 0 <= k < r.value.systemEnd ==> In(s[k], SystemChar)
    ensures r.Some? ==> var p := RunEnd(s, r.value.systemEnd, Space);
      p < |s| && s[p] == '-' && p < r.value.structStart
    ensures r.Some? ==> NoNewline(s, r.value.structStart, r.value.structEnd) && DollarAt(s, r.value.matchEnd)
  {
    var l := RunEnd(s, 0, SystemChar);
    if l == 0 then None else SystemFrom(s, l, minLen)
  }

  /** What `__post_init__` writes over the constructor's arguments. */
  datatype Derived = Derived(system: string, structureName: string, notes: string)

  /** `Timer.__post_init__` (pattern with `.*?`): on a match the system is group 1, the
      structure is group 2 stripped and the notes are what follows the match, stripped;
      otherwise "Unknown", the whole description and no notes. The match runs to `$`, so
      the notes always come out empty. */
  function PostInit(description: string): (r: Derived)
    ensures r.notes == ""
    ensures MatchDash(description, 0).None? ==> r.system == "Unknown" && r.structureName == description
  {
    match MatchDash(description, 0)
    case Some(m) =>
      StripAfterDollar(description, m.matchEnd);
      Derived(description[..m.systemEnd], Strip(description[m.structStart..m.structEnd]), Strip(description[m.matchEnd..]))
    case None => Derived("Unknown", description, "")
  }

  /** On a match the system is a non-empty prefix of `[A-Z0-9-]` characters. */
  lemma PostInitSystem(description: string)
    requires MatchDash(description, 0).Some?
    ensures PostInit(description).system != []
    ensures PostInit(description).system <= description
    ensures forall k :: 0 <= k < |PostInit(description).system| ==> In(PostInit(description).system[k], SystemChar)
  {
    PostInitSystemChars(description);
  }

  lemma PostInitSystemChars(description: string)
    requires MatchDash(description, 0).Some?
    ensures forall k :: 0 <= k < |PostInit(description).system| ==> In(PostInit(description).system[k], SystemChar)
  {
  }

  /** A system run followed by `" -"` and a line the tail can finish gives that run as the
      system: the first (longest) attempt of the backtracking match already succeeds. */
  lemma PostInitSystemRun(d: string, n: nat)
    requires 1 <= n && n + 2 <= |d| && RunEnd(d, 0, SystemChar) == n
    requires RunEnd(d, n, Space) == n + 1 && d[n + 1] == '-'
    requires TailFrom(d, RunEnd(d, n + 2, Space)).Some?
    ensures PostInit(d).system == d[..n]
  {
    var c0 := RunEnd(d, n + 2, Space);
    var t := TailFrom(d, c0).value;
    var m := DashMatch(n, c0, t.0, t.1);
    assert StructFrom(d, n, n + 2, c0, 0) == Some(m);
    SystemFromFirst(d, n, 0);
    assert MatchDash(d, 0) == Some(m);
  }

  /** The first attempt of the system group, when its dash and structure match, is the match. */
  lemma SystemFromFirst(s: string, n: nat, minLen: nat)
    requires 1 <= n <= |s|
    requires RunEnd(s, n, Space) < |s| && s[RunEnd(s, n, Space)] == '-'
    requires var p := RunEnd(s, n, Space); StructFrom(s, n, p + 1, RunEnd(s, p + 1, Space), minLen).Some?
    ensures var p := RunEnd(s, n, Space); SystemFrom(s, n, minLen) == StructFrom(s, n, p + 1, RunEnd(s, p + 1, Space), minLen)
  {
  }

  /** On a match the structure holds no newline. */
  lemma PostInitStructure(description: string)
    requires MatchDash(description, 0).Some?
    ensures '\n' !in PostInit(description).structureName
  {
    var m := MatchDash(description, 0).value;
    assert PostInit(description).structureName == Strip(description[m.structStart..m.structEnd]);
    StripNoNewline(description, m.structStart, m.structEnd);
  }

  lemma StripAfterDollar(s: string, q: nat)
    requires q <= |s| && DollarAt(s, q)
    ensures Strip(s[q..]) == []
  {
    var rest := s[q..];
    assert forall i :: 0 <= i < |rest| ==> rest[i] == '\n';
    StripAllSpace(rest);
  }

  lemma StripNoNewline(s: string, a: nat, b: nat)
    requires a <= b <= |s| && NoNewline(s, a, b)
    ensures '\n' !in Strip(s[a..b])
  {
    var structure := s[a..b];
    StripShape(structure);
    forall k | 0 <= k < |structure| ensures structure[k] != '\n' {
      assert structure[k] == s[a + k];
    }
  }

  /** `Timer(...)`: the dataclass constructor followed by `__post_init__`. */
  function NewTimer(time: Instant, description: string, timerId: int, system: string,
                    structureName: string, notes: string, region: string): (t: Timer)
    ensures t.time == time && t.description == description && t.timerId == timerId && t.region == region
    ensures Derived(t.system, t.structureName, t.notes) == PostInit(description)
  {
    var d := PostInit(description);
    Timer(time, description, timerId, d.system, d.structureName, d.notes, region)
  }

  /** The system, structure and notes passed to the constructor make no difference. */
  lemma NewTimerIgnoresDerivedArguments(time: Instant, description: string, timerId: int, region: string,
                                        system1: string, structure1: string, notes1: string,
                                        system2: string, structure2: string, notes2: string)
    ensures NewTimer(time, description, timerId, system1, structure1, notes1, region) ==
            NewTimer(time, description, timerId, system2, structure2, notes2, region)
  {
  }

  /** `Timer.is_similar`: at most five minutes apart, with the same system and structure up
      to letter case. */
  predicate IsSimilar(a: Timer, b: Timer) {
    -300 <= TimeKey(a) - TimeKey(b) <= 300 &&
    Lower(a.system) == Lower(b.system) && Lower(a.structureName) == Lower(b.structureName)
  }

  lemma IsSimilarSymmetric(a: Timer, b: Timer)
    ensures IsSimilar(a, b) <==> IsSimilar(b, a)
  {
  }

  /** Changing the letter case of the system or structure does not change similarity. */
  lemma IsSimilarIgnoresCase(a: Timer, b: Timer)
    ensures IsSimilar(a, b) <==> IsSimilar(a.(system := Upper(a.system), structureName := Upper(a.structureName)), b)
  {
    LowerOfUpper(a.system);
    LowerOfUpper(a.structureName);
  }

  lemma LowerOfUpper(s: string)
    ensures Lower(Upper(s)) == Lower(s)
  {
    assert forall i :: 0 <= i < |s| ==> ToLower(ToUpper(s[i])) == ToLower(s[i]);
  }

  /** `[t for t in timers if t.is_similar(new)]`. */
  function SimilarTo(timers: seq<Timer>, t: Timer): (r: seq<Timer>)
    ensures |r| <= |timers|
    ensures forall x :: x in r <==> x in timers && IsSimilar(x, t)
  {
    if timers == [] then []
    else if IsSimilar(timers[0], t) then [timers[0]] + SimilarTo(timers[1..], t)
    else SimilarTo(timers[1..], t)
  }

  /** `Timer.to_string`: the time in backquotes, the system linked to its map page, the
      region in parentheses, the structure, the notes when present, and the id. */
  function ToString(t: Timer): string {
    "`" + Format(t.time) + "` [" + t.system + "](https://evemaps.dotlan.net/system/" +
    CleanSystemName(t.system) + ") (" + t.region + ") - " + t.structureName +
    (if t.notes != "" then " " + t.notes else "") + " (" + IntToString(t.timerId) + ")"
  }

  /** The `to_string` of each timer, in order. */
  function Lines(timers: seq<Timer>): seq<string> {
    MapSeq(timers, ToString)
  }

  /** The first line of the board. */
  function Header(now: Instant): string {
    "Current Time: " + Format(now) + "\n\n"
  }

  /** The board message of `update_timerboard`: the header, then one line per timer in time
      order, separated by newlines. */
  function BoardText(now: Instant, timers: seq<Timer>): string {
    Header(now) + Join("\n", Lines(SortBy(timers, TimeKey)))
  }

  lemma {:induction false} FormatDigits(t: Instant)
    ensures '\n' !in Format(t)
  {
    var a, b, c, d, e, f := Pad4(t.year), Pad2(t.month), Pad2(t.day), Pad2(t.hour), Pad2(t.minute), Pad2(t.second);
    assert Format(t) == a + "-" + b + "-" + c + " " + d + ":" + e + ":" + f;
    assert '\n' !in a;
  }

  /** A timer whose texts hold no newline is shown on one line. */
  lemma {:induction false} ToStringOneLine(t: Timer)
    requires '\n' !in t.system && '\n' !in t.structureName && '\n' !in t.notes && '\n' !in t.region
    ensures '\n' !in ToString(t)
  {
    FormatDigits(t.time);
    IdOneLine(t.timerId);
    SlugOneLine(t.system);
    LineParts(Format(t.time), t.system, CleanSystemName(t.system), t.region, t.structureName, t.notes,
              IntToString(t.timerId));
  }

  /** The shape of `to_string` with its pieces as parameters. */
  lemma LineParts(time: string, system: string, slug: string, region: string, structure: string,
                  notes: string, id: string)
    requires '\n' !in time && '\n' !in system && '\n' !in slug && '\n' !in region
    requires '\n' !in structure && '\n' !in notes && '\n' !in id
    ensures '\n' !in "`" + time + "` [" + system + "](https://evemaps.dotlan.net/system/" +
      slug + ") (" + region + ") - " + structure +
      (if notes != "" then " " + notes else "") + " (" + id + ")"
  {
    var link := "](https://evemaps.dotlan.net/system/";
    assert forall k :: 0 <= k < |link| ==> link[k] != '\n';
    var p := "`" + time + "` [" + system + link;
    assert '\n' !in p;
    p := p + slug + ") (" + region + ") - " + structure;
    assert '\n' !in p;
  }

  lemma IdOneLine(n: int)
    ensures '\n' !in IntToString(n)
  {
    if n < 0 {
      assert IntToString(n) == "-" + NatToString(-n);
    }
  }

  lemma SlugOneLine(system: string)
    ensures '\n' !in CleanSystemName(system)
  {
    CleanSystemNameChars(system);
  }

  /** Below the header, the board text splits at its newlines into exactly the timer lines in
      time order; an empty board shows the header alone. */
  lemma {:induction false} BoardTextLines(now: Instant, timers: seq<Timer>)
    requires forall t :: t in timers ==> '\n' !in ToString(t)
    ensures var text := BoardText(now, timers);
      |Header(now)| <= |text| && text[..|Header(now)|] == Header(now) &&
      (timers == [] ==> text == Header(now)) &&
      (timers != [] ==> SplitOn(text[|Header(now)|..], '\n') == Lines(SortBy(timers, TimeKey)))
  {
    var sorted := SortBy(timers, TimeKey);
    var lines := Lines(sorted);
    var text := BoardText(now, timers);
    assert text == Header(now) + Join("\n", lines);
    if timers == [] {
      assert |sorted| == 0;
      assert Join("\n", lines) == "";
    } else {
      forall i | 0 <= i < |lines| ensures '\n' !in lines[i] {
        assert sorted[i] in multiset(sorted);
        assert sorted[i] in timers;
      }
      SplitOnJoin(lines, '\n');
      assert text[|Header(now)|..] == Join("\n", lines);
    }
  }

  /** The first bot-written message among the 100 most recent, newest first. */
  function FirstBotMessage(history: seq<Message>): (r: Option<nat>)
    ensures r.Some? ==> r.value < |history| && r.value < HistoryLimit && history[r.value].fromBot
    ensures r.Some? ==> forall k :: 0 <= k < r.value ==> !history[k].fromBot
    ensures r.None? ==> forall k :: 0 <= k < |history| && k < HistoryLimit ==> !history[k].fromBot
  {
    FirstBotFrom(history, 0)
  }

  function FirstBotFrom(history: seq<Message>, i: nat): (r: Option<nat>)
    requires i <= HistoryLimit
    ensures r.Some? ==> i <= r.value < |history| && r.value < HistoryLimit && history[r.value].fromBot
    ensures r.Some? ==> forall k :: i <= k < r.value ==> !history[k].fromBot
    ensures r.None? ==> forall k :: i <= k < |history| && k < HistoryLimit ==> !history[k].fromBot
    decreases HistoryLimit - i
  {
    if i >= |history| || i == HistoryLimit then None
    else if history[i].fromBot then Some(i)
    else FirstBotFrom(history, i + 1)
  }

  /** The one call `update_timerboard` makes on a channel whose history (newest first) is
      `history`: edit the first bot message found, or send a new one. */
  function ChannelUpdate(history: seq<Message>, text: string): BoardOp {
    match FirstBotMessage(history)
    case Some(i) => Edit(i, text)
    case None => Send(text)
  }

  /** What `update_timerboard` does in one entry of its channel list: nothing when the
      channel is missing. */
  function ChannelOp(channel: Option<seq<Message>>, text: string): Option<BoardOp> {
    if channel.None? then None else Some(ChannelUpdate(channel.value, text))
  }

  /** The calls for a list of channels, in order. */
  function ChannelOps(channels: seq<Option<seq<Message>>>, text: string): (r: seq<Option<BoardOp>>)
    ensures |r| == |channels|
  {
    if channels == [] then []
    else ChannelOps(channels[..|channels| - 1], text) + [ChannelOp(channels[|channels| - 1], text)]
  }

  /** Each channel gets exactly its own call, and a missing one gets none. */
  lemma {:induction false} ChannelOpsEach(channels: seq<Option<seq<Message>>>, text: string)
    ensures forall k :: 0 <= k < |channels| ==> ChannelOps(channels, text)[k] == ChannelOp(channels[k], text)
    ensures forall k :: 0 <= k < |channels| ==> (ChannelOps(channels, text)[k].None? <==> channels[k].None?)
  {
    if channels != [] {
      var n := |channels| - 1;
      ChannelOpsEach(channels[..n], text);
      forall k | 0 <= k < n ensures ChannelOps(channels, text)[k] == ChannelOp(channels[k], text) {
        assert channels[..n][k] == channels[k];
      }
    }
  }

  /** A single channel gets the one call of `ChannelOp`. */
  lemma OneChannel(channel: Option<seq<Message>>, text: string)
    ensures ChannelOps([channel], text) == [ChannelOp(channel, text)]
  {
    assert [channel][..0] == [];
  }

  /** The channel after the call; a sent message becomes the newest. */
  function Apply(history: seq<Message>, op: BoardOp): seq<Message> {
    match op
    case Edit(i, text) => if i < |history| then history[i := Message(true, text)] else history
    case Send(text) => [Message(true, text)] + history
    case Delete(i) => if i < |history| then history[..i] + history[i + 1..] else history
  }

  /** After an update the message the next update would edit shows the board text, so
      repeated updates keep rewriting one message. */
  lemma UpdateShowsText(history: seq<Message>, text: string)
    ensures var after := Apply(history, ChannelUpdate(history, text));
      FirstBotMessage(after).Some? && after[FirstBotMessage(after).value].content == text
  {
    match FirstBotMessage(history)
    case Some(i) =>
      var after := history[i := Message(true, text)];
      assert after[i].fromBot;
      FirstBotFromEdited(history, text, i, 0);
    case None =>
      var after := [Message(true, text)] + history;
      assert FirstBotFrom(after, 0) == Some(0);
  }

  lemma {:induction false} FirstBotFromEdited(history: seq<Message>, text: string, i: nat, j: nat)
    requires FirstBotMessage(history) == Some(i)
    requires j <= i
    ensures FirstBotFrom(history[i := Message(true, text)], j) == Some(i)
    decreases i - j
  {
    var after := history[i := Message(true, text)];
    if j < i {
      assert !after[j].fromBot;
      FirstBotFromEdited(history, text, i, j + 1);
    }
  }

  function TimerId(t: Timer): int {
    t.timerId
  }

  /** What `update_next_id` sets: one past the largest id, never below 1000. */
  function NextIdFor(timers: seq<Timer>): (n: int)
    ensures n >= StartingTimerId
    ensures forall i :: 0 <= i < |timers| ==> timers[i].timerId < n
    ensures n == StartingTimerId || exists i :: 0 <= i < |timers| && timers[i].timerId == n - 1
  {
    if timers == [] then StartingTimerId
    else
      var m := MaxKey(timers, TimerId);
      if m + 1 >= StartingTimerId then m + 1 else StartingTimerId
  }

  /** The stored counter clamped by `load_data`: a missing one counts as 1000. */
  function RestoredNextId(stored: Option<int>): (n: int)
    ensures n >= StartingTimerId
    ensures stored.Some? ==> n >= stored.value
    ensures n == StartingTimerId || (stored.Some? && n == stored.value)
  {
    match stored
    case Some(v) => if v >= StartingTimerId then v else StartingTimerId
    case None => StartingTimerId
  }

  /** A timer as the save file holds it (`region` may be missing from older files). Entries
      the loader cannot read are skipped and do not appear here. */
  datatype SavedTimer = SavedTimer(
    time: Instant,
    description: string,
    timerId: int,
    system: string,
    structureName: string,
    notes: string,
    region: Option<string>)

  /** The save file: `next_id` may be missing. */
  datatype SavedBoard = SavedBoard(nextId: Option<int>, timers: seq<SavedTimer>)

  /** A loaded timer goes through the constructor again; a missing region is looked up. */
  function RestoreTimer(saved: SavedTimer, table: map<string, string>): (t: Timer)
    ensures t.timerId == saved.timerId && t.time == saved.time && t.description == saved.description
    ensures saved.region.Some? ==> t.region == saved.region.value
  {
    var region := if saved.region.Some? then saved.region.value else GetRegion(table, saved.system);
    NewTimer(saved.time, saved.description, saved.timerId, saved.system, saved.structureName, saved.notes, region)
  }

  /** The comprehension-free split at the expiry threshold used by `remove_expired`. */
  function ExpiryThreshold(now: Instant, expiryMinutes: int): int {
    Seconds(now) - 60 * expiryMinutes
  }

  /** The saved timers restored in file order. */
  function RestoreAll(saved: seq<SavedTimer>, table: map<string, string>): (r: seq<Timer>)
    ensures |r| == |saved|
    ensures forall k :: 0 <= k < |saved| ==> r[k] == RestoreTimer(saved[k], table)
  {
    MapSeq(saved, Restorer(table))
  }

  function Restorer(table: map<string, string>): SavedTimer -> Timer {
    t => RestoreTimer(t, table)
  }

  /** Every id in `s` is below `n`. */
  predicate IdsBelow(s: seq<Timer>, n: int) {
    forall i :: 0 <= i < |s| ==> s[i].timerId < n
  }

  /** `add_timer` keeps every id below `next_id`: the timer it adds takes `next_id`, which
      then grows by one, and that id was not in use. */
  lemma AddKeepsIds(s: seq<Timer>, t: Timer)
    requires IdsBelow(s, t.timerId)
    ensures IdsBelow(SortBy(s + [t], TimeKey), t.timerId + 1)
    ensures forall i :: 0 <= i < |s| ==> s[i].timerId != t.timerId
  {
    var u := SortBy(s + [t], TimeKey);
    forall i | 0 <= i < |u| ensures u[i].timerId < t.timerId + 1 {
      assert u[i] in multiset(u);
      assert u[i] in s + [t];
    }
  }

  /** Dropping one timer keeps every remaining id below the same bound. */
  lemma DropKeepsIds(s: seq<Timer>, i: nat, n: int)
    requires i < |s|
    ensures IdsBelow(s, n) ==> IdsBelow(s[..i] + s[i + 1..], n)
  {
    if IdsBelow(s, n) {
      var u := s[..i] + s[i + 1..];
      forall k | 0 <= k < |u| ensures u[k].timerId < n {
        if k < i { assert u[k] == s[k]; } else { assert u[k] == s[k + 1]; }
      }
    }
  }

  /** `TimerBoard`: the timers, the next id to hand out, and how many times the board was
      saved to disk (the save itself is not modelled, only when it happens). */
  class TimerBoard {
    var timers: seq<Timer>
    var nextId: int
    var saves: nat

    /** `next_id` never drops below the starting id. */
    ghost predicate Valid()
      reads this
    {
      nextId >= StartingTimerId
    }

    /** Every id in use is below `next_id`, so the next one handed out is fresh. */
    predicate IdsBelowNext()
      reads this
    {
      IdsBelow(timers, nextId)
    }

    /** `__init__` with `load_data`: an unreadable or missing file gives an empty board with
        id 1000; otherwise the stored counter is clamped and every readable timer is rebuilt
        in file order. */
    constructor (saved: Option<SavedBoard>, table: map<string, string>)
      ensures Valid()
      ensures saved.None? ==> timers == [] && nextId == StartingTimerId
      ensures saved.Some? ==> nextId == RestoredNextId(saved.value.nextId)
      ensures saved.Some? ==> timers == RestoreAll(saved.value.timers, table)
      ensures saves == 0
    {
      saves := 0;
      match saved
      case None =>
        nextId := StartingTimerId;
        timers := [];
      case Some(data) =>
        nextId := RestoredNextId(data.nextId);
        var loaded: seq<Timer> := [];
        var i := 0;
        while i < |data.timers|
          invariant 0 <= i <= |data.timers|
          invariant loaded == RestoreAll(data.timers[..i], table)
        {
          MapSeqTake(data.timers, i, Restorer(table));
          loaded := loaded + [RestoreTimer(data.timers[i], table)];
          i := i + 1;
        }
        assert data.timers[..i] == data.timers;
        timers := loaded;
    }

    /** `update_next_id`. */
    method UpdateNextId()
      modifies this
      ensures timers == old(timers) && saves == old(saves)
      ensures nextId == NextIdFor(timers)
      ensures Valid() && IdsBelowNext()
    {
      if timers != [] {
        var maxId := MaxKey(timers, TimerId);
        nextId := if maxId + 1 >= StartingTimerId then maxId + 1 else StartingTimerId;
      } else {
        nextId := StartingTimerId;
      }
    }

    /** `sort_timers`: a stable sort by time. */
    method SortTimers()
      modifies this
      ensures timers == SortBy(old(timers), TimeKey)
      ensures SortedBy(timers, TimeKey) && multiset(timers) == multiset(old(timers))
      ensures nextId == old(nextId) && saves == old(saves)
    {
      SortBySorted(timers, TimeKey);
      timers := SortBy(timers, TimeKey);
    }

    /** `add_timer`: always inserts. The new timer gets the current `next_id`, which then
        grows by one; the list is re-sorted by time and saved; the timers that were already
        there and are similar to the new one are returned alongside it. The region is looked
        up from the system of the pattern with `.+?`, while the system stored in the timer
        comes from `__post_init__`. The tags found by the pattern at timer.py:169 are only
        passed to the constructor, which discards them, and are not modelled. */
    method AddTimer(time: Instant, description: string, table: map<string, string>)
      returns (newTimer: Timer, similar: seq<Timer>)
      modifies this
      ensures newTimer == NewTimer(time, description, old(nextId), "", "", "", AddedRegion(description, table))
      ensures nextId == old(nextId) + 1
      ensures similar == SimilarTo(old(timers), newTimer)
      ensures timers == SortBy(old(timers) + [newTimer], TimeKey)
      ensures saves == old(saves) + 1
      ensures old(Valid()) ==> Valid() && newTimer.timerId >= StartingTimerId
      ensures old(IdsBelowNext()) ==> IdsBelowNext()
      ensures old(IdsBelowNext()) ==> forall i :: 0 <= i < |old(timers)| ==> old(timers)[i].timerId != newTimer.timerId
    {
      var region := AddedRegion(description, table);
      newTimer := NewTimer(time, description, nextId, "", "", "", region);
      similar := SimilarTo(timers, newTimer);
      Append(newTimer);
    }

    /** The storing half of `add_timer`: append, advance `next_id`, sort and save. */
    method Append(t: Timer)
      modifies this
      ensures timers == SortBy(old(timers) + [t], TimeKey)
      ensures nextId == old(nextId) + 1 && saves == old(saves) + 1
      ensures old(IdsBelowNext()) && t.timerId == old(nextId) ==>
        IdsBelowNext() && forall i :: 0 <= i < |old(timers)| ==> old(timers)[i].timerId != t.timerId
    {
      if IdsBelowNext() && t.timerId == nextId {
        AddKeepsIds(timers, t);
      }
      timers := timers + [t];
      nextId := nextId + 1;
      SortTimers();
      saves := saves + 1;
    }

    /** `remove_timer`: the first timer with the id is removed and returned, the others keep
        their order and the board is saved; an unknown id changes nothing. */
    method RemoveTimer(id: int) returns (removed: Option<Timer>)
      modifies this
      ensures nextId == old(nextId)
      ensures FirstWith(old(timers), TimerId, id).None? ==> removed.None? && timers == old(timers) && saves == old(saves)
      ensures FirstWith(old(timers), TimerId, id).Some? ==>
        var i := FirstWith(old(timers), TimerId, id).value;
        removed == Some(old(timers)[i]) && timers == old(timers)[..i] + old(timers)[i + 1..] && saves == old(saves) + 1
      ensures SortedBy(old(timers), TimeKey) ==> SortedBy(timers, TimeKey)
      ensures old(IdsBelowNext()) ==> IdsBelowNext()
    {
      var i := 0;
      while i < |timers|
        invariant 0 <= i <= |timers|
        invariant timers == old(timers) && saves == old(saves) && nextId == old(nextId)
        invariant forall k :: 0 <= k < i ==> timers[k].timerId != id
      {
        var timer := timers[i];
        if timer.timerId == id {
          RemoveFirstAt(timers, i);
          if SortedBy(timers, TimeKey) {
            RemoveAtSorted(timers, TimeKey, i);
          }
          DropKeepsIds(timers, i, nextId);
          timers := RemoveFirst(timers, timer);
          saves := saves + 1;
          return Some(timer);
        }
        i := i + 1;
      }
      return None;
    }

    /** `remove_expired`: the timers strictly before `now` minus the expiry time are returned
        in their order; the others stay in theirs. The board is saved only when something
        expired. */
    method RemoveExpired(now: Instant, expiryMinutes: int) returns (expired: seq<Timer>)
      modifies this
      ensures var threshold := ExpiryThreshold(now, expiryMinutes);
        expired == Below(old(timers), TimeKey, threshold) && timers == AtLeast(old(timers), TimeKey, threshold)
      ensures multiset(expired) + multiset(timers) == multiset(old(timers))
      ensures expired == [] ==> timers == old(timers)
      ensures saves == old(saves) + (if expired == [] then 0 else 1)
      ensures nextId == old(nextId)
      ensures SortedBy(old(timers), TimeKey) ==> SortedBy(timers, TimeKey)
      ensures old(IdsBelowNext()) ==> IdsBelowNext()
    {
      var threshold := ExpiryThreshold(now, expiryMinutes);
      SplitPartition(timers, TimeKey, threshold);
      expired := Below(timers, TimeKey, threshold);
      if expired != [] {
        if SortedBy(timers, TimeKey) {
          AtLeastSorted(timers, TimeKey, threshold);
        }
        ghost var before := timers;
        AtLeastMembers(timers, TimeKey, threshold);
        timers := AtLeast(timers, TimeKey, threshold);
        saves := saves + 1;
        if old(IdsBelowNext()) {
          forall i | 0 <= i < |timers| ensures timers[i].timerId < nextId {
            assert timers[i] in before;
          }
        }
      } else {
        AtLeastAll(timers, TimeKey, threshold);
      }
    }

    /** The message `update_timerboard` builds from the current timers. */
    function Text(now: Instant): string
      reads this
    {
      BoardText(now, timers)
    }

    /** `update_timerboard`: for every channel that exists, exactly one call: the first bot
        message among the 100 most recent is edited to the board text, or the text is sent
        as a new message. Missing channels are skipped. */
    method UpdateTimerboard(now: Instant, channels: seq<Option<seq<Message>>>) returns (ops: seq<Option<BoardOp>>)
      ensures ops == ChannelOps(channels, BoardText(now, timers))
    {
      var text := BoardText(now, timers);
      ops := [];
      var k := 0;
      while k < |channels|
        invariant 0 <= k <= |channels|
        invariant ops == ChannelOps(channels[..k], text)
      {
        assert channels[..k + 1][..k] == channels[..k];
        match channels[k] {
          case None =>
            ops := ops + [None];
          case Some(history) =>
            var found: Option<nat> := None;
            var i := 0;
            while i < |history| && i < HistoryLimit && found.None?
              invariant 0 <= i <= |history| && i <= HistoryLimit
              invariant found.None? ==> forall m :: 0 <= m < i ==> !history[m].fromBot
              invariant found.Some? ==> found == FirstBotMessage(history)
            {
              if history[i].fromBot {
                found := Some(i);
                FirstBotAt(history, i);
              }
              i := i + 1;
            }
            if found.None? {
              FirstBotNone(history, i);
            }
            var op := if found.Some? then Edit(found.value, text) else Send(text);
            ops := ops + [Some(op)];
        }
        k := k + 1;
      }
      assert channels[..k] == channels;
    }
  }

  /** The region `add_timer` stores: looked up from the system found by the pattern with
      `.+?` (timer.py:163), or empty when that pattern does not match. */
  function AddedRegion(description: string, table: map<string, string>): (r: string)
    ensures MatchDash(description, 1).None? ==> r == ""
    ensures MatchDash(description, 1).Some? ==>
      r == GetRegion(table, description[..MatchDash(description, 1).value.systemEnd])
  {
    match MatchDash(description, 1)
    case Some(m) =>
      SystemRunStrip(description, m.systemEnd);
      var system := Strip(description[..m.systemEnd]);
      if system != "" then GetRegion(table, system) else ""
    case None => ""
  }

  /** A non-empty run of `[A-Z0-9-]` at the start is its own strip. */
  lemma SystemRunStrip(s: string, n: nat)
    requires 1 <= n <= |s| && forall k :: 0 <= k < n ==> In(s[k], SystemChar)
    ensures Strip(s[..n]) == s[..n] != ""
  {
    StripNoSpace(s[..n]);
  }

  /** The two patterns agree whenever `__post_init__` finds a structure: the region is then
      that of the stored system. When `__post_init__` finds no match, no region is looked up. */
  lemma AddedRegionAgrees(description: string, table: map<string, string>)
    ensures MatchDash(description, 0).None? ==> AddedRegion(description, table) == ""
    ensures MatchDash(description, 0).Some? && PostInit(description).structureName != "" ==>
      AddedRegion(description, table) == GetRegion(table, PostInit(description).system)
  {
    var l := RunEnd(description, 0, SystemChar);
    if l != 0 {
      SystemFromShift(description, l);
    }
    assert ShiftAgrees(MatchDash(description, 0), MatchDash(description, 1));
  }

  /** A structure end after its start leaves `TailFrom` one position later unchanged, and
      a failure stays a failure. */
  lemma TailFromShift(s: string, q: nat)
    requires q < |s| && s[q] != '\n'
    ensures TailFrom(s, q).None? ==> TailFrom(s, q + 1).None?
    ensures TailFrom(s, q).Some? && TailFrom(s, q).value.0 > q ==> TailFrom(s, q + 1) == TailFrom(s, q)
  {
  }

  /** One attempt of the structure group at `c0`: the `.+?` attempt consumes one character
      before looking for the tail, the `.*?` one none. */
  lemma StructFromUnfold(s: string, n: nat, lo: nat, c0: nat)
    requires lo <= c0 <= |s|
    ensures var t0 := TailFrom(s, c0);
      StructFrom(s, n, lo, c0, 0) ==
      if t0.Some? then Some(DashMatch(n, c0, t0.value.0, t0.value.1)) else if c0 == lo then None else StructFrom(s, n, lo, c0 - 1, 0)
    ensures var t1 := if c0 < |s| && s[c0] != '\n' then TailFrom(s, c0 + 1) else None;
      StructFrom(s, n, lo, c0, 1) ==
      if t1.Some? then Some(DashMatch(n, c0, t1.value.0, t1.value.1)) else if c0 == lo then None else StructFrom(s, n, lo, c0 - 1, 1)
  {
    assert NoNewline(s, c0, c0);
    if c0 < |s| {
      assert NoNewline(s, c0, c0 + 1) <==> s[c0] != '\n';
    }
  }

  /** The `.+?` result `a1` fails where the `.*?` result `a0` fails, and is the same match
      where `a0` found a non-empty structure. */
  predicate ShiftAgrees(a0: Option<DashMatch>, a1: Option<DashMatch>) {
    (a0.None? ==> a1.None?) && (a0.Some? && a0.value.structStart < a0.value.structEnd ==> a1 == a0)
  }

  /** For one system end, whatever the structure's start. */
  lemma {:induction false} StructFromShift(s: string, n: nat, lo: nat, c0: nat)
    requires lo <= c0 <= |s|
    ensures ShiftAgrees(StructFrom(s, n, lo, c0, 0), StructFrom(s, n, lo, c0, 1))
    decreases c0 - lo
  {
    StructFromUnfold(s, n, lo, c0);
    var t0 := TailFrom(s, c0);
    if t0.Some? && t0.value.0 > c0 {
      assert s[c0] != '\n';
    }
    if c0 < |s| && s[c0] != '\n' {
      TailFromShift(s, c0);
    }
    if t0.None? && c0 > lo {
      StructFromShift(s, n, lo, c0 - 1);
    }
  }

  lemma {:induction false} SystemFromShift(s: string, n: nat)
    requires 1 <= n <= |s|
    ensures ShiftAgrees(SystemFrom(s, n, 0), SystemFrom(s, n, 1))
    decreases n
  {
    DashAttemptShift(s, n);
    if n > 1 {
      SystemFromShift(s, n - 1);
    }
  }

  lemma DashAttemptShift(s: string, n: nat)
    requires 1 <= n <= |s|
    ensures ShiftAgrees(DashAttempt(s, n, 0), DashAttempt(s, n, 1))
  {
    var p := RunEnd(s, n, Space);
    if p < |s| && s[p] == '-' {
      StructFromShift(s, n, p + 1, RunEnd(s, p + 1, Space));
    }
  }

  /** `"AB-C-"`: `__post_init__` stores the system `AB-C` with an empty structure, while the
      region is looked up for `AB`, the shorter system that leaves `.+?` a character. */
  lemma AddedRegionDivergesOnTrailingDash(table: map<string, string>)
    ensures PostInit("AB-C-").system == "AB-C"
    ensures AddedRegion("AB-C-", table) == GetRegion(table, "AB")
  {
    var s := "AB-C-";
    TrailingDashPostInit(s);
    TrailingDashAdded(s);
    assert s[..4] == "AB-C";
    assert s[..2] == "AB";
  }

  lemma TrailingDashPostInit(s: string)
    requires s == "AB-C-"
    ensures MatchDash(s, 0) == Some(DashMatch(4, 5, 5, 5))
  {
    RunEndIs(s, 0, 5, SystemChar);
    RunEndIs(s, 5, 5, Space);
    RunEndIs(s, 4, 4, Space);
    assert DashAttempt(s, 5, 0).None?;
    assert TailFrom(s, 5) == Some((5, 5));
    StructFromUnfold(s, 4, 5, 5);
    assert DashAttempt(s, 4, 0) == Some(DashMatch(4, 5, 5, 5));
    assert SystemFrom(s, 5, 0) == SystemFrom(s, 4, 0);
  }

  lemma TrailingDashAdded(s: string)
    requires s == "AB-C-"
    ensures MatchDash(s, 1) == Some(DashMatch(2, 3, 5, 5))
  {
    RunEndIs(s, 0, 5, SystemChar);
    RunEndIs(s, 5, 5, Space);
    RunEndIs(s, 4, 4, Space);
    RunEndIs(s, 3, 3, Space);
    RunEndIs(s, 2, 2, Space);
    assert DashAttempt(s, 5, 1).None?;
    StructFromUnfold(s, 4, 5, 5);
    assert DashAttempt(s, 4, 1).None?;
    assert DashAttempt(s, 3, 1).None?;
    assert TailFrom(s, 5) == Some((5, 5));
    assert TailFrom(s, 4) == Some((5, 5));
    StructFromUnfold(s, 2, 3, 3);
    assert DashAttempt(s, 2, 1) == Some(DashMatch(2, 3, 5, 5));
    assert SystemFrom(s, 3, 1) == SystemFrom(s, 2, 1);
    assert SystemFrom(s, 5, 1) == SystemFrom(s, 3, 1);
  }

  /** `"ABC -"`: `__post_init__` stores the system `ABC`, while `.+?` finds nothing after
      the dash and no region is looked up. */
  lemma AddedRegionDivergesOnBareDash(table: map<string, string>)
    ensures PostInit("ABC -").system == "ABC"
    ensures AddedRegion("ABC -", table) == ""
  {
    var s := "ABC -";
    BareDashPostInit(s);
    BareDashAdded(s);
    assert s[..3] == "ABC";
  }

  lemma BareDashPostInit(s: string)
    requires s == "ABC -"
    ensures MatchDash(s, 0) == Some(DashMatch(3, 5, 5, 5))
  {
    RunEndIs(s, 0, 3, SystemChar);
    RunEndIs(s, 3, 4, Space);
    RunEndIs(s, 5, 5, Space);
    assert TailFrom(s, 5) == Some((5, 5));
    StructFromUnfold(s, 3, 5, 5);
    assert DashAttempt(s, 3, 0) == Some(DashMatch(3, 5, 5, 5));
  }

  lemma BareDashAdded(s: string)
    requires s == "ABC -"
    ensures MatchDash(s, 1).None?
  {
    RunEndIs(s, 0, 3, SystemChar);
    RunEndIs(s, 3, 4, Space);
    RunEndIs(s, 5, 5, Space);
    RunEndIs(s, 2, 2, Space);
    RunEndIs(s, 1, 1, Space);
    StructFromUnfold(s, 3, 5, 5);
    assert DashAttempt(s, 3, 1).None?;
    assert DashAttempt(s, 2, 1).None?;
    assert DashAttempt(s, 1, 1).None?;
    assert SystemFrom(s, 2, 1).None?;
  }

  lemma FirstBotAt(history: seq<Message>, i: nat)
    requires i < |history| && i < HistoryLimit && history[i].fromBot
    requires forall m :: 0 <= m < i ==> !history[m].fromBot
    ensures FirstBotMessage(history) == Some(i)
  {
  }

  lemma FirstBotNone(history: seq<Message>, i: nat)
    requires i <= |history| && i <= HistoryLimit && (i == |history| || i == HistoryLimit)
    requires forall m :: 0 <= m < i ==> !history[m].fromBot
    ensures FirstBotMessage(history) == None
  {
  }
}
