/** The earlier single-file bot (`bot.py`): its own `Timer` record and `TimerBoard`, which
    refuses a timer similar to one already on the board, lays the board out in pages of at
    most 1900 characters, and keeps one Discord message per page. */
module LegacyBot {
  import opened Wrappers
  import opened Strings
  import opened DateTimes
  import opened Seqs
  import opened Patterns
  import opened Discord
  import opened Alerts
  import Timers
  import TimerCommands

  /** A timer of the single-file bot. The Discord message id and the gate distance it also
      carries are never set and are not modelled. */
  datatype LegacyTimer = LegacyTimer(
    time: Instant,
    description: string,
    timerId: int,
    system: string,
    structureName: string,
    notes: string)

  function TimeOf(t: LegacyTimer): int {
    Seconds(t.time)
  }

  function IdOf(t: LegacyTimer): int {
    t.timerId
  }

  // ---------------------------------------------------------------------------------------
  // `add_timer`, first pattern: `([A-Z0-9-]+)(\s*[»«].*?)(?=\s+\d+,\d+\s+km|\n|$)`, matched
  // at the start of the description.

  /** The lookahead `\s+\d+,\d+\s+km` holds at `q`. Each run is greedy, and giving back a
      character of a run only puts a character of the wrong kind where the next part needs
      its own, so the runs are taken whole. */
  predicate KmDistanceAt(d: string, q: nat)
    requires q <= |d|
  {
    var a := RunEnd(d, q, Space);
    var b := RunEnd(d, a, Digit);
    b < |d| && d[b] == ',' &&
    var c := RunEnd(d, b + 1, Digit);
    var e := RunEnd(d, c, Space);
    q < a && a < b && b + 1 < c && c < e && e + 2 <= |d| && d[e] == 'k' && d[e + 1] == 'm'
  }

  /** Where the lazy `.*?` stops: the first position at which a distance, a newline or the
      end of the text follows. */
  function AnsiblexEnd(d: string, q: nat): (e: nat)
    requires q <= |d|
    ensures q <= e <= |d| && NoNewline(d, q, e)
    ensures e == |d| || d[e] == '\n' || KmDistanceAt(d, e)
    ensures forall k :: q <= k < e ==> !KmDistanceAt(d, k)
    decreases |d| - q
  {
    if q == |d| || d[q] == '\n' || KmDistanceAt(d, q) then q else AnsiblexEnd(d, q + 1)
  }

  /** The first group ends at `n` or, backtracking, earlier; the result is the end of the
      first group and the end of the whole match. */
  function AnsiblexFrom(d: string, n: nat): (r: Option<(nat, nat)>)
    requires 1 <= n <= |d|
    ensures r.Some? ==> 1 <= r.value.0 <= n && RunEnd(d, r.value.0, Space) < r.value.1 <= |d|
    ensures r.Some? ==> d[RunEnd(d, r.value.0, Space)] in {'»', '«'}
    ensures r.Some? ==> NoNewline(d, RunEnd(d, r.value.0, Space) + 1, r.value.1)
    decreases n
  {
    var w := RunEnd(d, n, Space);
    if w < |d| && (d[w] == '»' || d[w] == '«') then Some((n, AnsiblexEnd(d, w + 1)))
    else if n == 1 then None
    else AnsiblexFrom(d, n - 1)
  }

  function AnsiblexMatch(d: string): Option<(nat, nat)> {
    var n := RunEnd(d, 0, SystemChar);
    if n == 0 then None else AnsiblexFrom(d, n)
  }

  lemma {:induction false} AnsiblexFromBelow(d: string, n: nat)
    requires 1 <= n < RunEnd(d, 0, SystemChar)
    ensures AnsiblexFrom(d, n) == None
    decreases n
  {
    RunEndIs(d, n, n, Space);
    if n > 1 {
      AnsiblexFromBelow(d, n - 1);
    }
  }

  /** The pattern matches exactly when the leading run of `[A-Z0-9-]` is followed, after
      optional whitespace, by `»` or `«`; backtracking never helps, so the first group is
      then that whole run. */
  lemma AnsiblexMatchIff(d: string)
    ensures var n := RunEnd(d, 0, SystemChar);
      var w := RunEnd(d, n, Space);
      AnsiblexMatch(d).Some? <==> (1 <= n && w < |d| && (d[w] == '»' || d[w] == '«'))
    ensures AnsiblexMatch(d).Some? ==> AnsiblexMatch(d).value.0 == RunEnd(d, 0, SystemChar)
  {
    var n := RunEnd(d, 0, SystemChar);
    if n > 1 {
      AnsiblexFromBelow(d, n - 1);
    }
  }

  // ---------------------------------------------------------------------------------------
  // `add_timer`, second pattern: `([^\s-]+(?:-[^\s]+)?)\s*-\s*(.+?)(?:\n|$)`, matched at the
  // start of the description.

  /** The groups of a match: the first group is `d[..systemEnd]`, the second
      `d[structStart..structEnd]`. */
  datatype SystemDash = SystemDash(systemEnd: nat, structStart: nat, structEnd: nat)

  /** `(.+?)(?:\n|$)` with the `\s*` before it ending at `w` or, backtracking, earlier (never
      before `lo`): the lazy group runs to the end of its line. */
  function StructureFrom(d: string, lo: nat, w: nat): (r: Option<(nat, nat)>)
    requires lo <= w <= |d|
    ensures r.Some? ==> lo <= r.value.0 < r.value.1 <= |d| && NoNewline(d, r.value.0, r.value.1)
    ensures r.Some? ==> r.value.1 == |d| || d[r.value.1] == '\n'
    decreases w
  {
    if w < |d| && d[w] != '\n' then Some((w, TimerCommands.LineEnd(d, w + 1)))
    else if w == lo then None
    else StructureFrom(d, lo, w - 1)
  }

  /** `\s*-\s*(.+?)(?:\n|$)` after a first group ending at `g`. The first `\s*` is taken
      whole: giving back a space puts a space where the dash must be. */
  function DashAfter(d: string, g: nat): (r: Option<(nat, nat)>)
    requires g <= |d|
    ensures r.Some? ==> g < r.value.0 < r.value.1 <= |d| && NoNewline(d, r.value.0, r.value.1)
    ensures r.Some? ==> r.value.1 == |d| || d[r.value.1] == '\n'
  {
    var w := RunEnd(d, g, Space);
    if w < |d| && d[w] == '-' then StructureFrom(d, w + 1, RunEnd(d, w + 1, Space)) else None
  }

  /** The first group with the optional `-[^\s]+` taken, ending at `b` or, backtracking,
      earlier but after `a + 1`. */
  function WithTail(d: string, a: nat, b: nat): (r: Option<SystemDash>)
    requires a + 2 <= b <= |d|
    requires forall k :: 0 <= k < b ==> !IsSpace(d[k])
    ensures r.Some? ==> a + 2 <= r.value.systemEnd <= b && r.value.systemEnd < r.value.structStart < r.value.structEnd <= |d|
    ensures r.Some? ==> NoNewline(d, r.value.structStart, r.value.structEnd)
    ensures r.Some? ==> forall k :: 0 <= k < r.value.systemEnd ==> !IsSpace(d[k])
    decreases b
  {
    match DashAfter(d, b)
    case Some((s, e)) => Some(SystemDash(b, s, e))
    case None => if b == a + 2 then None else WithTail(d, a, b - 1)
  }

  /** The first group with `[^\s-]+` ending at `a` or, backtracking, earlier: first with the
      optional tail, then without it. */
  function FirstGroupFrom(d: string, a: nat): (r: Option<SystemDash>)
    requires 1 <= a <= |d|
    requires forall k :: 0 <= k < a ==> In(d[k], NonSpaceNonDash)
    ensures r.Some? ==> 1 <= r.value.systemEnd < r.value.structStart < r.value.structEnd <= |d|
    ensures r.Some? ==> NoNewline(d, r.value.structStart, r.value.structEnd)
    ensures r.Some? ==> forall k :: 0 <= k < r.value.systemEnd ==> !IsSpace(d[k])
    decreases a
  {
    var b := if a < |d| && d[a] == '-' then RunEnd(d, a + 1, NonSpace) else a;
    assert forall k :: 0 <= k < b ==> !IsSpace(d[k]) by {
      forall k | 0 <= k < b ensures !IsSpace(d[k]) {
        if k < a {
          assert In(d[k], NonSpaceNonDash);
        } else if k > a {
          assert In(d[k], NonSpace);
        }
      }
    }
    var tail := if a + 2 <= b then WithTail(d, a, b) else None;
    var tried :=
      if tail.Some? then tail
      else match DashAfter(d, a)
        case Some((s, e)) => Some(SystemDash(a, s, e))
        case None => None;
    if tried.Some? || a == 1 then tried else FirstGroupFrom(d, a - 1)
  }

  function SystemDashMatch(d: string): (r: Option<SystemDash>)
    ensures r.Some? ==> 1 <= r.value.systemEnd < r.value.structStart < r.value.structEnd <= |d|
    ensures r.Some? ==> NoNewline(d, r.value.structStart, r.value.structEnd)
    ensures r.Some? ==> d[0] != '-' && forall k :: 0 <= k < r.value.systemEnd ==> !IsSpace(d[k])
  {
    var a := RunEnd(d, 0, NonSpaceNonDash);
    if a == 0 then None else FirstGroupFrom(d, a)
  }

  /** Stripping trailing characters of a class stops at the last character outside it. */
  lemma {:induction false} RStripKeeps(s: string, k: CharClass, j: nat)
    requires j < |s| && !In(s[j], k)
    ensures |RStrip(s, k)| > j
    decreases |s|
  {
    if j < |s| - 1 && In(s[|s| - 1], k) {
      RStripKeeps(s[..|s| - 1], k, j);
    }
  }

  /** Stripping a text that starts with a non-space keeps everything up to its last
      non-space. */
  lemma StripKeepsPrefix(s: string, j: nat)
    requires j < |s| && !IsSpace(s[0]) && !IsSpace(s[j])
    ensures s[..j + 1] <= Strip(s)
  {
    assert LStrip(s, Space) == s;
    RStripKeeps(s, Space, j);
  }

  /** `system` and `structure_name` as `add_timer` derives them: by the first pattern the
      system is the leading `[A-Z0-9-]` run and the structure keeps it as its prefix; by the
      second the system is a word without whitespace and the structure the rest of its line;
      otherwise the system is empty and the structure the whole description. */
  function Extract(d: string): (r: (string, string))
    ensures AnsiblexMatch(d).None? && SystemDashMatch(d).None? ==> r == ("", d)
  {
    match AnsiblexMatch(d)
    case Some((n, e)) => (d[..n], Strip(d[..e]))
    case None =>
      match SystemDashMatch(d)
      case Some(m) => (Strip(d[..m.systemEnd]), Strip(d[m.structStart..m.structEnd]))
      case None => ("", d)
  }

  /** By the first pattern the system is the leading `[A-Z0-9-]` run, and the structure
      starts with it. */
  lemma ExtractAnsiblex(d: string)
    requires AnsiblexMatch(d).Some?
    ensures Extract(d).0 == d[..RunEnd(d, 0, SystemChar)] && Extract(d).0 != []
    ensures Extract(d).0 <= Extract(d).1
  {
    var (n, e) := AnsiblexMatch(d).value;
    AnsiblexMatchIff(d);
    var w := RunEnd(d, n, Space);
    StripKeepsPrefix(d[..e], w);
    assert d[..n] <= d[..e][..w + 1];
  }

  /** By the second pattern the system is the first group itself, which stripping leaves
      as it is, and the structure stays on one line. */
  lemma ExtractSystemDash(d: string)
    requires AnsiblexMatch(d).None? && SystemDashMatch(d).Some?
    ensures Extract(d).0 == d[..SystemDashMatch(d).value.systemEnd]
    ensures '\n' !in Extract(d).1
  {
    var m := SystemDashMatch(d).value;
    SystemWordStrip(d, m.systemEnd);
    Timers.StripNoNewline(d, m.structStart, m.structEnd);
  }

  /** A group without whitespace is left as it is by stripping. */
  lemma SystemWordStrip(d: string, n: nat)
    requires n <= |d| && forall k :: 0 <= k < n ==> !IsSpace(d[k])
    ensures Strip(d[..n]) == d[..n]
  {
    StripNoSpace(d[..n]);
  }

  // ---------------------------------------------------------------------------------------
  // What `add_timer` makes of a description written `<system> - <structure>`.

  /** A word the first group of the second pattern takes whole: `[^\s-]+`, then optionally
      a dash and `[^\s]+`. */
  predicate DashWord(sys: string) {
    var a := RunEnd(sys, 0, NonSpaceNonDash);
    1 <= a &&
    (a == |sys| || (sys[a] == '-' && a + 1 < |sys| && forall k :: a < k < |sys| ==> !IsSpace(sys[k])))
  }

  /** A structure name on one line, framed by non-space characters. */
  predicate LineText(rest: string) {
    rest != [] && !IsSpace(rest[0]) && !IsSpace(rest[|rest| - 1]) && '\n' !in rest
  }

  /** Such a word holds no whitespace. */
  lemma DashWordNoSpace(sys: string)
    requires DashWord(sys)
    ensures forall k :: 0 <= k < |sys| ==> !IsSpace(sys[k])
  {
    var a := RunEnd(sys, 0, NonSpaceNonDash);
    forall k | 0 <= k < |sys|
      ensures !IsSpace(sys[k])
    {
      if k < a {
        assert In(sys[k], NonSpaceNonDash);
      }
    }
  }

  /** Without `»` or `«` in the word, the first pattern fails. */
  lemma DashSplitNoAnsiblex(sys: string, rest: string)
    requires DashWord(sys) && '»' !in sys && '«' !in sys
    ensures AnsiblexMatch(sys + " - " + rest).None?
  {
    var d := sys + " - " + rest;
    DashWordNoSpace(sys);
    AnsiblexMatchIff(d);
    var n := RunEnd(d, 0, SystemChar);
    assert d[|sys|] == ' ' && d[|sys| + 1] == '-';
    assert !In(d[|sys|], SystemChar);
    if n < |sys| {
      assert d[n] == sys[n];
      RunEndIs(d, n, n, Space);
    } else {
      RunEndIs(d, n, n + 1, Space);
    }
  }

  /** After the word, `\s*-\s*(.+?)(?:\n|$)` takes the separator and then the rest of the
      line. */
  lemma DashAfterSeparator(sys: string, rest: string)
    requires LineText(rest)
    ensures var d := sys + " - " + rest;
      DashAfter(d, |sys|) == Some((|sys| + 3, |d|))
  {
    var d := sys + " - " + rest;
    var g := |sys|;
    assert d[g] == ' ' && d[g + 1] == '-' && d[g + 2] == ' ' && d[g + 3] == rest[0];
    RunEndIs(d, g, g + 1, Space);
    RunEndIs(d, g + 2, g + 3, Space);
    assert forall k :: g + 3 <= k < |d| ==> d[k] == rest[k - g - 3];
    assert forall k :: g + 3 <= k < |d| ==> d[k] != '\n';
  }

  /** The second pattern takes the whole word as its first group and the rest of the line
      as its second. */
  lemma DashSplitMatch(sys: string, rest: string)
    requires DashWord(sys) && LineText(rest)
    ensures var d := sys + " - " + rest;
      SystemDashMatch(d) == Some(SystemDash(|sys|, |sys| + 3, |d|))
  {
    var d := sys + " - " + rest;
    var a0 := RunEnd(sys, 0, NonSpaceNonDash);
    DashWordNoSpace(sys);
    DashAfterSeparator(sys, rest);
    if a0 == |sys| {
      DashSplitPlain(sys, rest);
    } else {
      DashSplitTail(sys, rest, a0);
    }
  }

  /** A word without a dash: the first group stops at the space. */
  lemma DashSplitPlain(sys: string, rest: string)
    requires 1 <= |sys| && forall k :: 0 <= k < |sys| ==> In(sys[k], NonSpaceNonDash)
    requires DashAfter(sys + " - " + rest, |sys|) == Some((|sys| + 3, |sys + " - " + rest|))
    ensures var d := sys + " - " + rest;
      SystemDashMatch(d) == Some(SystemDash(|sys|, |sys| + 3, |d|))
  {
    var d := sys + " - " + rest;
    assert forall k :: 0 <= k < |sys| ==> d[k] == sys[k];
    assert d[|sys|] == ' ';
    RunEndIs(d, 0, |sys|, NonSpaceNonDash);
  }

  /** A word with a dash at `a`: the optional `-[^\s]+` takes the rest of the word. */
  lemma DashSplitTail(sys: string, rest: string, a: nat)
    requires 1 <= a && a + 1 < |sys| && forall k :: 0 <= k < a ==> In(sys[k], NonSpaceNonDash)
    requires sys[a] == '-' && forall k :: a < k < |sys| ==> !IsSpace(sys[k])
    requires DashAfter(sys + " - " + rest, |sys|) == Some((|sys| + 3, |sys + " - " + rest|))
    ensures var d := sys + " - " + rest;
      SystemDashMatch(d) == Some(SystemDash(|sys|, |sys| + 3, |d|))
  {
    var d := sys + " - " + rest;
    assert forall k :: 0 <= k < |sys| ==> d[k] == sys[k];
    assert d[|sys|] == ' ';
    RunEndIs(d, 0, a, NonSpaceNonDash);
    RunEndIs(d, a + 1, |sys|, NonSpace);
  }

  /** `<system> - <structure>`: the system is the word and the structure the rest, and the
      first pattern does not apply. */
  lemma ExtractDashSplit(sys: string, rest: string)
    requires DashWord(sys) && '»' !in sys && '«' !in sys
    requires LineText(rest)
    ensures AnsiblexMatch(sys + " - " + rest).None?
    ensures Extract(sys + " - " + rest) == (sys, rest)
  {
    DashSplitNoAnsiblex(sys, rest);
    DashSplitMatch(sys, rest);
    DashSplitSystem(sys, rest);
    DashSplitStructure(sys, rest);
  }

  /** Stripping the first group leaves the word ... */
  lemma DashSplitSystem(sys: string, rest: string)
    requires DashWord(sys)
    ensures Strip((sys + " - " + rest)[..|sys|]) == sys
  {
    DashWordNoSpace(sys);
    AppendTake(sys, " - ", rest);
    StripNoSpace(sys);
  }

  /** ... and stripping the second leaves the rest. */
  lemma DashSplitStructure(sys: string, rest: string)
    requires LineText(rest)
    ensures var d := sys + " - " + rest;
      Strip(d[|sys| + 3..|d|]) == rest
  {
    var d := sys + " - " + rest;
    AppendDrop(sys + " - ", rest);
    assert d[|sys| + 3..|d|] == d[|sys| + 3..];
    StripClassFramed("", rest, Space);
    EmptyAppend(rest);
  }

  // ---------------------------------------------------------------------------------------
  // `add_timer`, the notes: `\[(.*?)\](?:\[(.*?)\])*$`, searched.

  /** The notes pattern matches at `i`. It can only end at `$`, which past a final newline
      the groups cannot reach, so a match runs from a `[` at `i` to a `]` just before the
      end (or the final newline), with no newline in between; and given such a span the lazy
      first group can stretch to that last `]`. */
  predicate NotesAt(d: string, i: nat)
    requires i <= |d|
  {
    var e := DollarEnd(d);
    i + 2 <= e && d[i] == '[' && d[e - 1] == ']' && NoNewline(d, i, e)
  }

  function NotesFrom(d: string, i: nat): (r: string)
    requires i <= |d|
    ensures r == "" <==> forall k :: i <= k <= |d| ==> !NotesAt(d, k)
    ensures r != "" ==> exists k :: i <= k <= |d| && NotesAt(d, k) && r == d[k..DollarEnd(d)]
    ensures r != "" ==> |r| <= DollarEnd(d) && d[..DollarEnd(d)] == d[..DollarEnd(d) - |r|] + r
    decreases |d| - i
  {
    if NotesAt(d, i) then
      assert d[..DollarEnd(d)] == d[..i] + d[i..DollarEnd(d)];
      d[i..DollarEnd(d)]
    else if i == |d| then ""
    else NotesFrom(d, i + 1)
  }

  /** `notes_match.group(0)`, or `""` without a match: the leftmost bracketed tail of the
      last line. */
  function Notes(d: string): (r: string)
    ensures r == "" <==> forall k :: 0 <= k <= |d| ==> !NotesAt(d, k)
    ensures r != "" ==> r[0] == '[' && r[|r| - 1] == ']' && '\n' !in r
    ensures r != "" ==> |r| <= DollarEnd(d) && d[..DollarEnd(d)] == d[..DollarEnd(d) - |r|] + r
  {
    NotesFrom(d, 0)
  }

  /** The notes are empty unless the description, ignoring one final newline, ends in `]`. */
  lemma NotesNeedClosingBracket(d: string)
    requires DollarEnd(d) == 0 || d[DollarEnd(d) - 1] != ']'
    ensures Notes(d) == ""
  {
  }

  /** A description whose last line ends in `[...]` tags gets notes starting at the first
      `[` of that last line. */
  lemma NotesOfTaggedLine(d: string, i: nat)
    requires i + 2 <= DollarEnd(d) && d[i] == '[' && d[DollarEnd(d) - 1] == ']'
    requires NoNewline(d, i, DollarEnd(d))
    requires forall k :: 0 <= k < i ==> d[k] != '[' || !NoNewline(d, k, DollarEnd(d))
    ensures Notes(d) == d[i..DollarEnd(d)]
  {
    NotesFromAt(d, 0, i);
  }

  lemma {:induction false} NotesFromAt(d: string, j: nat, i: nat)
    requires j <= i && i + 2 <= DollarEnd(d) && NotesAt(d, i)
    requires forall k :: j <= k < i ==> !NotesAt(d, k)
    ensures NotesFrom(d, j) == d[i..DollarEnd(d)]
    decreases i - j
  {
    if j < i {
      NotesFromAt(d, j + 1, i);
    }
  }

  // ---------------------------------------------------------------------------------------
  // The timer record.

  /** The timer `add_timer` builds: system and structure from the patterns, the notes tail. */
  function NewLegacyTimer(time: Instant, description: string, timerId: int): (t: LegacyTimer)
    ensures t.time == time && t.description == description && t.timerId == timerId
    ensures t.system == Extract(description).0 && t.structureName == Extract(description).1
    ensures t.notes == Notes(description)
  {
    var (system, structure) := Extract(description);
    LegacyTimer(time, description, timerId, system, structure, Notes(description))
  }

  /** `is_similar`: at most five minutes apart, same system and structure up to case. */
  predicate IsSimilar(a: LegacyTimer, b: LegacyTimer) {
    -300 <= TimeOf(a) - TimeOf(b) <= 300 &&
    Lower(a.system) == Lower(b.system) && Lower(a.structureName) == Lower(b.structureName)
  }

  /** Similarity is symmetric and reflexive, so the same description submitted again within
      five minutes is always similar to the first. */
  lemma ResubmissionIsSimilar(time1: Instant, time2: Instant, description: string, id1: int, id2: int)
    requires -300 <= Seconds(time1) - Seconds(time2) <= 300
    ensures IsSimilar(NewLegacyTimer(time1, description, id1), NewLegacyTimer(time2, description, id2))
    ensures IsSimilar(NewLegacyTimer(time2, description, id2), NewLegacyTimer(time1, description, id1))
  {
  }

  /** `[t for t in self.timers if t.is_similar(new_timer)]`. */
  function SimilarTo(timers: seq<LegacyTimer>, t: LegacyTimer): (r: seq<LegacyTimer>)
    ensures |r| <= |timers|
    ensures forall x :: x in r <==> x in timers && IsSimilar(x, t)
  {
    if timers == [] then []
    else if IsSimilar(timers[0], t) then [timers[0]] + SimilarTo(timers[1..], t)
    else SimilarTo(timers[1..], t)
  }

  /** `to_string`, used in the similar-timers warning. */
  function ToString(t: LegacyTimer): string {
    var notesText := if t.notes != "" then " " + StripChars(t.notes, {'[', ']'}) else "";
    "```" + Format(t.time) + "```  **" + t.system + "** - " + t.structureName + "  " + notesText +
    " (" + IntToString(t.timerId) + ")"
  }

  /** What `update_next_id` sets: one past the largest id, never below 1000. */
  function NextIdFor(timers: seq<LegacyTimer>): (n: int)
    ensures n >= Timers.StartingTimerId
    ensures forall i :: 0 <= i < |timers| ==> timers[i].timerId < n
    ensures n == Timers.StartingTimerId || exists i :: 0 <= i < |timers| && timers[i].timerId == n - 1
  {
    if timers == [] then Timers.StartingTimerId
    else
      var m := MaxKey(timers, IdOf);
      if m + 1 >= Timers.StartingTimerId then m + 1 else Timers.StartingTimerId
  }

  /** No two different timers of `s` are similar. */
  predicate NoSimilarIn(s: seq<LegacyTimer>) {
    forall x, y :: x in s && y in s && x != y ==> !IsSimilar(x, y)
  }

  predicate IdsBelow(s: seq<LegacyTimer>, n: int) {
    forall i :: 0 <= i < |s| ==> s[i].timerId < n
  }

  /** Keeping only timers of a list keeps its timers pairwise dissimilar and its ids low. */
  lemma SubsetKeeps(s: seq<LegacyTimer>, u: seq<LegacyTimer>, n: int)
    requires forall x :: x in u ==> x in s
    ensures NoSimilarIn(s) ==> NoSimilarIn(u)
    ensures IdsBelow(s, n) ==> IdsBelow(u, n)
  {
    if IdsBelow(s, n) {
      forall i | 0 <= i < |u| ensures u[i].timerId < n {
        assert u[i] in s;
      }
    }
  }

  /** Removing the timer at `i` keeps the same two properties. */
  lemma DropKeeps(s: seq<LegacyTimer>, i: nat, n: int)
    requires i < |s|
    ensures NoSimilarIn(s) ==> NoSimilarIn(s[..i] + s[i + 1..])
    ensures IdsBelow(s, n) ==> IdsBelow(s[..i] + s[i + 1..], n)
  {
    var u := s[..i] + s[i + 1..];
    forall x | x in u ensures x in s {
      var k :| 0 <= k < |u| && u[k] == x;
      if k < i {
        assert s[k] == x;
      } else {
        assert s[k + 1] == x;
      }
    }
    SubsetKeeps(s, u, n);
  }

  /** What `remove_timer` does to the list when the first timer with the id is at `i`. */
  lemma RemoveAt(s: seq<LegacyTimer>, i: nat, n: int)
    requires i < |s| && forall k :: 0 <= k < i ==> s[k].timerId != s[i].timerId
    ensures FirstWith(s, IdOf, s[i].timerId) == Some(i)
    ensures RemoveFirst(s, s[i]) == s[..i] + s[i + 1..]
    ensures SortedBy(s, TimeOf) ==> SortedBy(RemoveFirst(s, s[i]), TimeOf)
    ensures NoSimilarIn(s) ==> NoSimilarIn(RemoveFirst(s, s[i]))
    ensures IdsBelow(s, n) ==> IdsBelow(RemoveFirst(s, s[i]), n)
  {
    FirstWithAt(s, IdOf, i);
    RemoveFirstAt(s, i);
    if SortedBy(s, TimeOf) {
      RemoveAtSorted(s, TimeOf, i);
    }
    DropKeeps(s, i, n);
  }

  /** Adding a timer that nothing on the board is similar to, with an unused id, keeps the
      board pairwise dissimilar and its ids below the grown counter, in any order. */
  lemma AddKeeps(s: seq<LegacyTimer>, t: LegacyTimer, u: seq<LegacyTimer>, n: int)
    requires SimilarTo(s, t) == []
    requires multiset(u) == multiset(s + [t])
    requires t.timerId == n
    ensures NoSimilarIn(s) ==> NoSimilarIn(u)
    ensures IdsBelow(s, n) ==> IdsBelow(u, n + 1)
  {
    forall x | x in u ensures x in s + [t] {
      assert x in multiset(u);
    }
    if NoSimilarIn(s) {
      forall x, y | x in u && y in u && x != y ensures !IsSimilar(x, y) {
        assert x in s + [t] && y in s + [t];
        if x == t {
          assert y in s && y !in SimilarTo(s, t);
        } else if y == t {
          assert x in s && x !in SimilarTo(s, t);
        }
      }
    }
    if IdsBelow(s, n) {
      forall i | 0 <= i < |u| ensures u[i].timerId < n + 1 {
        assert u[i] in s + [t];
      }
    }
  }

  /** What `add_timer` stores when nothing is similar keeps the board sorted by time,
      pairwise dissimilar and with every id below the grown counter. */
  lemma AddKeepsBoard(s: seq<LegacyTimer>, t: LegacyTimer)
    requires SimilarTo(s, t) == []
    ensures SortedBy(SortBy(s + [t], TimeOf), TimeOf)
    ensures NoSimilarIn(s) ==> NoSimilarIn(SortBy(s + [t], TimeOf))
    ensures IdsBelow(s, t.timerId) ==> IdsBelow(SortBy(s + [t], TimeOf), t.timerId + 1)
  {
    SortBySorted(s + [t], TimeOf);
    AddKeeps(s, t, SortBy(s + [t], TimeOf), t.timerId);
  }

  // ---------------------------------------------------------------------------------------
  // `update_timerboard`: the board text in pages, then one Discord message per page.

  const MaxMessageLength: nat := 1900
  const NoActiveTimers: string := "No active timers."

  /** One line of the board. */
  function BoardLine(t: LegacyTimer): (r: string)
    ensures r != ""
  {
    "`" + Format(t.time) + "` " + SystemLink(t.system) + " - " + t.structureName + " " + t.notes +
    " (" + IntToString(t.timerId) + ")\n"
  }

  function BoardLines(timers: seq<LegacyTimer>): seq<string> {
    MapSeq(timers, BoardLine)
  }

  /** The text of a page: its lines one after the other. */
  function Concat(page: seq<string>): string {
    if page == [] then "" else Concat(page[..|page| - 1]) + page[|page| - 1]
  }

  lemma ConcatSnoc(page: seq<string>, line: string)
    ensures Concat(page + [line]) == Concat(page) + line
  {
    assert (page + [line])[..|page|] == page;
  }

  /** The pages still to come when the page being filled holds `page` and `lines` remain: a
      line that would push the page past 1900 characters closes it and opens the next; at
      the end a page with any text is kept. */
  function PagesFrom(lines: seq<string>, page: seq<string>): seq<seq<string>>
    decreases |lines|
  {
    if lines == [] then (if Concat(page) != "" then [page] else [])
    else if |Concat(page)| + |lines[0]| > MaxMessageLength then [page] + PagesFrom(lines[1..], [lines[0]])
    else PagesFrom(lines[1..], page + [lines[0]])
  }

  function Pages(lines: seq<string>): seq<seq<string>> {
    PagesFrom(lines, [])
  }

  /** The messages: each page's text, stripped. */
  function PageText(page: seq<string>): string {
    Strip(Concat(page))
  }

  function Contents(pages: seq<seq<string>>): (r: seq<string>)
    ensures |r| == |pages|
  {
    if pages == [] then [] else [PageText(pages[0])] + Contents(pages[1..])
  }

  lemma ContentsCons(page: seq<string>, after: seq<seq<string>>)
    ensures Contents([page] + after) == [PageText(page)] + Contents(after)
  {
    assert ([page] + after)[1..] == after;
  }

  function Flatten(pages: seq<seq<string>>): seq<string> {
    if pages == [] then [] else pages[0] + Flatten(pages[1..])
  }

  predicate NoEmptyLine(lines: seq<string>) {
    forall i :: 0 <= i < |lines| ==> lines[i] != ""
  }

  lemma ConcatEmpty(page: seq<string>)
    requires NoEmptyLine(page) && page != []
    ensures Concat(page) != ""
  {
  }

  lemma NoEmptyStep(lines: seq<string>, page: seq<string>)
    requires NoEmptyLine(lines) && NoEmptyLine(page) && lines != []
    ensures NoEmptyLine(lines[1..]) && NoEmptyLine([lines[0]]) && NoEmptyLine(page + [lines[0]])
  {
    assert forall i :: 1 <= i < |lines| ==> lines[1..][i - 1] == lines[i];
  }

  /** One step of the page loop. */
  lemma PagesStep(lines: seq<string>, page: seq<string>)
    requires lines != []
    ensures PagesFrom(lines, page) ==
      if |Concat(page)| + |lines[0]| > MaxMessageLength then [page] + PagesFrom(lines[1..], [lines[0]])
      else PagesFrom(lines[1..], page + [lines[0]])
  {
  }

  lemma {:induction false} PagesFromFlatten(lines: seq<string>, page: seq<string>)
    requires NoEmptyLine(lines) && NoEmptyLine(page)
    ensures Flatten(PagesFrom(lines, page)) == page + lines
    decreases |lines|
  {
    if lines == [] {
      if page != [] {
        ConcatEmpty(page);
        assert Flatten([page]) == page + [];
      }
    } else {
      var rest := lines[1..];
      NoEmptyStep(lines, page);
      assert lines == [lines[0]] + rest;
      if |Concat(page)| + |lines[0]| > MaxMessageLength {
        var after := PagesFrom(rest, [lines[0]]);
        PagesFromFlatten(rest, [lines[0]]);
        assert ([page] + after)[1..] == after;
        AppendAssoc(page, [lines[0]], rest);
      } else {
        PagesFromFlatten(rest, page + [lines[0]]);
        AppendAssoc(page, [lines[0]], rest);
      }
    }
  }

  /** Every line lands in exactly one page, in order. */
  lemma PagesKeepLines(lines: seq<string>)
    requires NoEmptyLine(lines)
    ensures Flatten(Pages(lines)) == lines
  {
    PagesFromFlatten(lines, []);
  }

  lemma {:induction false} PagesFromBound(lines: seq<string>, page: seq<string>)
    requires |Concat(page)| <= MaxMessageLength || |page| == 1
    ensures forall k :: 0 <= k < |PagesFrom(lines, page)| ==>
      |Concat(PagesFrom(lines, page)[k])| <= MaxMessageLength || |PagesFrom(lines, page)[k]| == 1
    decreases |lines|
  {
    if lines != [] {
      var rest := lines[1..];
      if |Concat(page)| + |lines[0]| > MaxMessageLength {
        PagesFromBound(rest, [lines[0]]);
      } else {
        ConcatSnoc(page, lines[0]);
        PagesFromBound(rest, page + [lines[0]]);
      }
    }
  }

  /** A page over 1900 characters holds a single line: a second line is only added while
      the page stays within the limit. */
  lemma PagesWithinLimit(lines: seq<string>)
    ensures forall k :: 0 <= k < |Pages(lines)| ==> |Concat(Pages(lines)[k])| <= MaxMessageLength || |Pages(lines)[k]| == 1
  {
    PagesFromBound(lines, []);
  }

  lemma {:induction false} PagesFromHead(lines: seq<string>, page: seq<string>)
    requires NoEmptyLine(lines) && NoEmptyLine(page) && page != []
    ensures PagesFrom(lines, page) != [] && page <= PagesFrom(lines, page)[0]
    decreases |lines|
  {
    if lines == [] {
      ConcatEmpty(page);
    } else if |Concat(page)| + |lines[0]| <= MaxMessageLength {
      NoEmptyStep(lines, page);
      PagesFromHead(lines[1..], page + [lines[0]]);
      assert page <= page + [lines[0]];
    }
  }

  /** Page `k + 1` has lines, and its first line did not fit on page `k`. */
  predicate GreedyAt(pages: seq<seq<string>>, k: nat)
    requires k + 1 < |pages|
  {
    pages[k + 1] != [] && |Concat(pages[k])| + |pages[k + 1][0]| > MaxMessageLength
  }

  lemma {:induction false} PagesFromGreedy(lines: seq<string>, page: seq<string>)
    requires NoEmptyLine(lines) && NoEmptyLine(page)
    ensures forall k :: 0 <= k < |PagesFrom(lines, page)| - 1 ==> GreedyAt(PagesFrom(lines, page), k)
    decreases |lines|
  {
    if lines != [] {
      var rest := lines[1..];
      NoEmptyStep(lines, page);
      PagesStep(lines, page);
      if |Concat(page)| + |lines[0]| > MaxMessageLength {
        var after := PagesFrom(rest, [lines[0]]);
        PagesFromGreedy(rest, [lines[0]]);
        PagesFromHead(rest, [lines[0]]);
        assert after[0] != [] && after[0][0] == lines[0] by {
          assert [lines[0]] <= after[0];
          assert [lines[0]][0] == lines[0];
        }
        var r := [page] + after;
        forall k | 0 <= k < |r| - 1 ensures GreedyAt(r, k) {
          if k > 0 {
            assert GreedyAt(after, k - 1);
            assert r[k] == after[k - 1] && r[k + 1] == after[k];
          } else {
            assert r[1] == after[0] && after[0][0] == lines[0];
          }
        }
      } else {
        PagesFromGreedy(rest, page + [lines[0]]);
      }
    }
  }

  /** Pages are filled greedily: each page is closed only because the first line of the next
      one would not fit, and every page after the first has lines. */
  lemma PagesGreedy(lines: seq<string>)
    requires NoEmptyLine(lines)
    ensures forall k :: 0 <= k < |Pages(lines)| - 1 ==> GreedyAt(Pages(lines), k)
  {
    PagesFromGreedy(lines, []);
  }

  /** The first page is empty exactly when the first line alone is over 1900 characters; it
      is then sent as an empty message. */
  lemma FirstPageEmpty(lines: seq<string>)
    requires NoEmptyLine(lines) && lines != []
    ensures Pages(lines) != []
    ensures Pages(lines)[0] == [] <==> |lines[0]| > MaxMessageLength
  {
    assert Concat([]) == "";
    assert [] + [lines[0]] == [lines[0]];
    PagesStep(lines, []);
    NoEmptyStep(lines, []);
    if |lines[0]| <= MaxMessageLength {
      PagesFromHead(lines[1..], [lines[0]]);
    }
  }

  /** The page loop of `update_timerboard`. */
  method Paginate(lines: seq<string>) returns (messages: seq<string>)
    ensures messages == Contents(Pages(lines))
  {
    messages := [];
    var current := "";
    ghost var page: seq<string> := [];
    var i := 0;
    while i < |lines|
      invariant 0 <= i <= |lines|
      invariant current == Concat(page)
      invariant messages + Contents(PagesFrom(lines[i..], page)) == Contents(Pages(lines))
    {
      var line := lines[i];
      assert lines[i..][0] == line && lines[i..][1..] == lines[i + 1..];
      PagesStep(lines[i..], page);
      if |current| + |line| > MaxMessageLength {
        var after := PagesFrom(lines[i + 1..], [line]);
        ContentsCons(page, after);
        AppendAssoc(messages, [PageText(page)], Contents(after));
        messages := messages + [Strip(current)];
        assert Strip(current) == PageText(page);
        current := line;
        page := [line];
        assert current == Concat(page) by {
          ConcatSnoc([], line);
        }
      } else {
        ConcatSnoc(page, line);
        current := current + line;
        page := page + [line];
      }
      i := i + 1;
    }
    assert lines[i..] == [];
    if current != "" {
      assert Contents([page]) == [PageText(page)];
      messages := messages + [Strip(current)];
    } else {
      assert Contents([]) == [];
      AppendEmpty(messages);
    }
  }

  /** The messages the board consists of. */
  function BoardPages(timers: seq<LegacyTimer>): seq<string> {
    if timers == [] then [NoActiveTimers] else Contents(Pages(BoardLines(timers)))
  }

  /** The bot's own messages among the 100 most recent of a newest-first history, reversed
      to oldest first. */
  function BotMessages(history: seq<Message>): seq<string> {
    OldestFirst(if |history| <= HistoryLimit then history else history[..HistoryLimit])
  }

  function OldestFirst(history: seq<Message>): seq<string> {
    if history == [] then []
    else OldestFirst(history[1..]) + (if history[0].fromBot then [history[0].content] else [])
  }

  /** The calls of one sync with `existing` earlier messages: page `i` edits message `i` while
      there is one and is sent otherwise, then the messages past the last page are deleted.
      `Edit` and `Delete` name a message by its position among the existing ones. */
  function WriteOps(existing: nat, pages: seq<string>): (r: seq<BoardOp>)
    ensures |r| == |pages|
  {
    if pages == [] then []
    else
      var i := |pages| - 1;
      WriteOps(existing, pages[..i]) + [if i < existing then Edit(i, pages[i]) else Send(pages[i])]
  }

  function DeleteOps(lo: nat, hi: nat): seq<BoardOp>
    decreases hi
  {
    if hi <= lo then [] else DeleteOps(lo, hi - 1) + [Delete(hi - 1)]
  }

  function SyncOps(existing: nat, pages: seq<string>): seq<BoardOp> {
    WriteOps(existing, pages) + DeleteOps(|pages|, existing)
  }

  /** What the channel shows of the bot's messages: `None` for a deleted one. */
  function ApplyOp(slots: seq<Option<string>>, op: BoardOp): seq<Option<string>> {
    match op
    case Edit(i, text) => if i < |slots| then slots[i := Some(text)] else slots
    case Send(text) => slots + [Some(text)]
    case Delete(i) => if i < |slots| then slots[i := None] else slots
  }

  function Replay(slots: seq<Option<string>>, ops: seq<BoardOp>): seq<Option<string>>
    decreases |ops|
  {
    if ops == [] then slots else Replay(ApplyOp(slots, ops[0]), ops[1..])
  }

  function Present(slots: seq<Option<string>>): seq<string> {
    if slots == [] then [] else (if slots[0].Some? then [slots[0].value] else []) + Present(slots[1..])
  }

  function Somes(texts: seq<string>): (r: seq<Option<string>>)
    ensures |r| == |texts| && forall i :: 0 <= i < |r| ==> r[i] == Some(texts[i])
  {
    if texts == [] then [] else [Some(texts[0])] + Somes(texts[1..])
  }

  function Nones(n: nat): (r: seq<Option<string>>)
    ensures |r| == n && forall i :: 0 <= i < n ==> r[i] == None
  {
    if n == 0 then [] else [None] + Nones(n - 1)
  }

  lemma {:induction false} ReplayAppend(slots: seq<Option<string>>, a: seq<BoardOp>, b: seq<BoardOp>)
    ensures Replay(slots, a + b) == Replay(Replay(slots, a), b)
    decreases |a|
  {
    if a == [] {
      assert a + b == b;
    } else {
      assert (a + b)[0] == a[0] && (a + b)[1..] == a[1..] + b;
      ReplayAppend(ApplyOp(slots, a[0]), a[1..], b);
    }
  }

  lemma ReplayOne(slots: seq<Option<string>>, op: BoardOp)
    ensures Replay(slots, [op]) == ApplyOp(slots, op)
  {
    assert [op][1..] == [];
  }

  /** After the writes of `pages`, slot `i` shows page `i` for every page, and the earlier
      message otherwise. */
  lemma {:induction false} AfterWrites(existing: seq<string>, pages: seq<string>)
    ensures var r := Replay(Somes(existing), WriteOps(|existing|, pages));
      |r| == if |pages| <= |existing| then |existing| else |pages|
    ensures var r := Replay(Somes(existing), WriteOps(|existing|, pages));
      forall i :: 0 <= i < |r| ==> r[i] == if i < |pages| then Some(pages[i]) else Some(existing[i])
    decreases |pages|
  {
    if pages != [] {
      var i := |pages| - 1;
      var op := if i < |existing| then Edit(i, pages[i]) else Send(pages[i]);
      AfterWrites(existing, pages[..i]);
      ReplayAppend(Somes(existing), WriteOps(|existing|, pages[..i]), [op]);
      ReplayOne(Replay(Somes(existing), WriteOps(|existing|, pages[..i])), op);
    }
  }

  lemma {:induction false} AfterDeletes(slots: seq<Option<string>>, lo: nat, hi: nat)
    requires hi <= |slots|
    ensures |Replay(slots, DeleteOps(lo, hi))| == |slots|
    ensures forall i :: 0 <= i < |slots| ==>
      Replay(slots, DeleteOps(lo, hi))[i] == if lo <= i < hi then None else slots[i]
    decreases hi
  {
    if lo < hi {
      AfterDeletes(slots, lo, hi - 1);
      ReplayAppend(slots, DeleteOps(lo, hi - 1), [Delete(hi - 1)]);
      ReplayOne(Replay(slots, DeleteOps(lo, hi - 1)), Delete(hi - 1));
    }
  }

  lemma {:induction false} PresentSomesNones(texts: seq<string>, n: nat)
    ensures Present(Somes(texts) + Nones(n)) == texts
    decreases |texts| + n
  {
    var slots := Somes(texts) + Nones(n);
    if texts != [] {
      assert slots[1..] == Somes(texts[1..]) + Nones(n);
      PresentSomesNones(texts[1..], n);
      assert texts == [texts[0]] + texts[1..];
    } else if n > 0 {
      assert slots[1..] == Somes([]) + Nones(n - 1);
      PresentSomesNones([], n - 1);
    }
  }

  lemma SlotsShape(slots: seq<Option<string>>, texts: seq<string>, n: nat)
    requires |slots| == |texts| + n
    requires forall i :: 0 <= i < |slots| ==> slots[i] == if i < |texts| then Some(texts[i]) else None
    ensures slots == Somes(texts) + Nones(n)
  {
  }

  /** After a sync the bot's messages in the channel are exactly the pages, in order, each
      in one message: as many messages as pages, whatever was there before. */
  lemma SyncShowsPages(existing: seq<string>, pages: seq<string>)
    ensures Present(Replay(Somes(existing), SyncOps(|existing|, pages))) == pages
  {
    var written := Replay(Somes(existing), WriteOps(|existing|, pages));
    AfterWrites(existing, pages);
    ReplayAppend(Somes(existing), WriteOps(|existing|, pages), DeleteOps(|pages|, |existing|));
    AfterDeletes(written, |pages|, |existing|);
    var final := Replay(written, DeleteOps(|pages|, |existing|));
    var extra := if |pages| <= |existing| then |existing| - |pages| else 0;
    SlotsShape(final, pages, extra);
    PresentSomesNones(pages, extra);
  }

  /** The save file: `next_id` may be missing; entries the loader cannot read are skipped and
      do not appear here. */
  datatype SavedBoard = SavedBoard(nextId: Option<int>, timers: seq<LegacyTimer>)

  /** The single-file `TimerBoard`: the timers, the next id and how many times it was saved
      (the save itself is not modelled, only when it happens). */
  class LegacyTimerBoard {
    var timers: seq<LegacyTimer>
    var nextId: int
    var saves: nat

    predicate IdsBelowNext()
      reads this
    {
      IdsBelow(timers, nextId)
    }

    /** No two different timers on the board are similar: `add_timer` refuses the second. */
    predicate NoSimilarPair()
      reads this
    {
      NoSimilarIn(timers)
    }

    /** `__init__` with `load_data`: no file gives an empty board with id 1000; otherwise
        the stored counter is clamped and the stored timers are taken as they are. */
    constructor (saved: Option<SavedBoard>)
      ensures saved.None? ==> timers == [] && nextId == Timers.StartingTimerId
      ensures saved.Some? ==> timers == saved.value.timers && nextId == Timers.RestoredNextId(saved.value.nextId)
      ensures nextId >= Timers.StartingTimerId
      ensures saves == 0
    {
      saves := 0;
      match saved
      case None =>
        timers := [];
        nextId := Timers.StartingTimerId;
      case Some(data) =>
        timers := data.timers;
        nextId := Timers.RestoredNextId(data.nextId);
    }

    /** `update_next_id`. */
    method UpdateNextId()
      modifies this
      ensures timers == old(timers) && saves == old(saves)
      ensures nextId == NextIdFor(timers)
      ensures IdsBelowNext()
    {
      if timers != [] {
        var maxId := MaxKey(timers, IdOf);
        nextId := if maxId + 1 >= Timers.StartingTimerId then maxId + 1 else Timers.StartingTimerId;
      } else {
        nextId := Timers.StartingTimerId;
      }
    }

    /** `sort_timers`: a stable sort by time. */
    method SortTimers()
      modifies this
      ensures timers == SortBy(old(timers), TimeOf)
      ensures SortedBy(timers, TimeOf) && multiset(timers) == multiset(old(timers))
      ensures nextId == old(nextId) && saves == old(saves)
    {
      SortBySorted(timers, TimeOf);
      timers := SortBy(timers, TimeOf);
    }

    /** `add_timer`: the new timer takes the current `next_id`. If any timer on the board is
        similar to it, nothing changes and the similar timers are returned; otherwise it is
        appended, `next_id` grows by one, the list is sorted by time and saved. */
    method AddTimer(time: Instant, description: string) returns (newTimer: LegacyTimer, similar: seq<LegacyTimer>)
      modifies this
      ensures newTimer == NewLegacyTimer(time, description, old(nextId))
      ensures similar == SimilarTo(old(timers), newTimer)
      ensures similar != [] ==> timers == old(timers) && nextId == old(nextId) && saves == old(saves)
      ensures similar == [] ==>
        timers == SortBy(old(timers) + [newTimer], TimeOf) && nextId == old(nextId) + 1 && saves == old(saves) + 1
    {
      newTimer := NewLegacyTimer(time, description, nextId);
      similar := SimilarTo(timers, newTimer);
      if similar == [] {
        Append(newTimer);
      }
    }

    /** The unconflicted half of `add_timer`: append, advance `next_id`, sort and save. */
    method Append(t: LegacyTimer)
      modifies this
      ensures timers == SortBy(old(timers) + [t], TimeOf)
      ensures nextId == old(nextId) + 1 && saves == old(saves) + 1
    {
      timers := timers + [t];
      nextId := nextId + 1;
      SortTimers();
      saves := saves + 1;
    }

    /** `remove_timer`: the first timer with the id is removed and returned, the others keep
        their order and the board is saved; an unknown id changes nothing. */
    method RemoveTimer(id: int) returns (removed: Option<LegacyTimer>)
      modifies this
      ensures nextId == old(nextId)
      ensures FirstWith(old(timers), IdOf, id).None? ==> removed.None? && timers == old(timers) && saves == old(saves)
      ensures FirstWith(old(timers), IdOf, id).Some? ==>
        var i := FirstWith(old(timers), IdOf, id).value;
        removed == Some(old(timers)[i]) && timers == old(timers)[..i] + old(timers)[i + 1..] && saves == old(saves) + 1
      ensures SortedBy(old(timers), TimeOf) ==> SortedBy(timers, TimeOf)
      ensures old(NoSimilarPair()) ==> NoSimilarPair()
      ensures old(IdsBelowNext()) ==> IdsBelowNext()
    {
      var i := 0;
      while i < |timers|
        invariant 0 <= i <= |timers|
        invariant timers == old(timers) && saves == old(saves) && nextId == old(nextId)
        invariant forall k :: 0 <= k < i ==> timers[k].timerId != id
      {
        var timer := timers[i];
        if timer.timerId == id {
          RemoveAt(timers, i, nextId);
          timers := RemoveFirst(timers, timer);
          saves := saves + 1;
          return Some(timer);
        }
        i := i + 1;
      }
      return None;
    }

    /** `remove_expired`: the timers strictly before `now` minus the expiry time are removed
        and returned in their order; the board is saved only when something expired. */
    method RemoveExpired(now: Instant, expiryMinutes: int) returns (expired: seq<LegacyTimer>)
      modifies this
      ensures var threshold := Timers.ExpiryThreshold(now, expiryMinutes);
        expired == Below(old(timers), TimeOf, threshold) && timers == AtLeast(old(timers), TimeOf, threshold)
      ensures multiset(expired) + multiset(timers) == multiset(old(timers))
      ensures expired == [] ==> timers == old(timers)
      ensures saves == old(saves) + (if expired == [] then 0 else 1)
      ensures nextId == old(nextId)
      ensures SortedBy(old(timers), TimeOf) ==> SortedBy(timers, TimeOf)
      ensures old(NoSimilarPair()) ==> NoSimilarPair()
      ensures old(IdsBelowNext()) ==> IdsBelowNext()
    {
      var threshold := Timers.ExpiryThreshold(now, expiryMinutes);
      SplitPartition(timers, TimeOf, threshold);
      expired := Below(timers, TimeOf, threshold);
      if expired != [] {
        if SortedBy(timers, TimeOf) {
          AtLeastSorted(timers, TimeOf, threshold);
        }
        AtLeastMembers(timers, TimeOf, threshold);
        SubsetKeeps(timers, AtLeast(timers, TimeOf, threshold), nextId);
        timers := AtLeast(timers, TimeOf, threshold);
        saves := saves + 1;
      } else {
        AtLeastAll(timers, TimeOf, threshold);
      }
    }

    /** `update_timerboard`: the bot's earlier messages are edited to the new pages in order,
        pages beyond them are sent, and earlier messages beyond the pages are deleted. Without
        timers the board is the single page "No active timers.". Without a channel the call
        fails before it makes any call, and nothing is sent. */
    method UpdateTimerboard(channel: Option<seq<Message>>) returns (ops: seq<BoardOp>)
      ensures channel.None? ==> ops == []
      ensures channel.Some? ==> ops == SyncOps(|BotMessages(channel.value)|, BoardPages(timers))
      ensures channel.Some? ==> Present(Replay(Somes(BotMessages(channel.value)), ops)) == BoardPages(timers)
    {
      if channel.None? {
        return [];
      }
      var existing := BotMessages(channel.value);
      var n := |existing|;
      var pages: seq<string>;
      if timers != [] {
        pages := Paginate(BoardLines(timers));
        var writes := WriteCalls(n, pages);
        var deletes := DeleteCalls(|pages|, n);
        ops := writes + deletes;
      } else {
        pages := [NoActiveTimers];
        var first := if n > 0 then Edit(0, NoActiveTimers) else Send(NoActiveTimers);
        var deletes := DeleteCalls(1, n);
        assert pages[..0] == [];
        assert [first] == WriteOps(n, pages);
        ops := [first] + deletes;
      }
      SyncShowsPages(existing, pages);
    }
  }

  /** The loop over the pages: edit the earlier message with the same position, or send. */
  method WriteCalls(n: nat, pages: seq<string>) returns (ops: seq<BoardOp>)
    ensures ops == WriteOps(n, pages)
  {
    ops := [];
    var i := 0;
    while i < |pages|
      invariant 0 <= i <= |pages|
      invariant ops == WriteOps(n, pages[..i])
    {
      assert pages[..i + 1][..i] == pages[..i];
      ops := ops + [if i < n then Edit(i, pages[i]) else Send(pages[i])];
      i := i + 1;
    }
    assert pages[..i] == pages;
  }

  /** The loop deleting the earlier messages from position `lo` on. */
  method DeleteCalls(lo: nat, n: nat) returns (ops: seq<BoardOp>)
    ensures ops == DeleteOps(lo, n)
  {
    ops := [];
    var j := lo;
    while j < n
      invariant lo <= j && (j <= n || j == lo)
      invariant ops == DeleteOps(lo, j)
    {
      ops := ops + [Delete(j)];
      j := j + 1;
    }
  }

  // ---------------------------------------------------------------------------------------
  // `check_timers`: the same alert rule and texts as the current bot, over these timers.

  function AlertFor(t: LegacyTimer, now: Instant, notificationMinutes: int): Option<string> {
    match Classify(TimeOf(t) - Seconds(now), notificationMinutes)
    case Notify => Some(NotificationText(notificationMinutes, t.system, t.structureName, t.notes, t.time, t.timerId))
    case StartingNow => Some(StartText(t.system, t.structureName, t.notes, t.timerId))
    case Silent => None
  }

  function AlertOf(now: Instant, notificationMinutes: int): LegacyTimer -> Option<string> {
    t => AlertFor(t, now, notificationMinutes)
  }

  /** The messages of one alert pass, in the order of the timers, at most one per timer. */
  function AlertTexts(timers: seq<LegacyTimer>, now: Instant, notificationMinutes: int): (r: seq<string>)
    ensures |r| <= |timers|
  {
    Collect(timers, AlertOf(now, notificationMinutes))
  }

  /** The loop's step: the next timer adds its own alert, if it has one, after the alerts of
      the timers before it. */
  lemma AlertTextsStep(timers: seq<LegacyTimer>, i: nat, now: Instant, notificationMinutes: int)
    requires i < |timers|
    ensures var alert := AlertFor(timers[i], now, notificationMinutes);
      AlertTexts(timers[..i + 1], now, notificationMinutes) ==
      AlertTexts(timers[..i], now, notificationMinutes) + (if alert.Some? then [alert.value] else [])
  {
    CollectStep(timers, i, AlertOf(now, notificationMinutes));
  }

  /** The pass is silent exactly when every timer is outside both windows. */
  lemma AlertTextsEmpty(timers: seq<LegacyTimer>, now: Instant, notificationMinutes: int)
    ensures AlertTexts(timers, now, notificationMinutes) == [] <==>
      forall i :: 0 <= i < |timers| ==> AlertFor(timers[i], now, notificationMinutes).None?
  {
    CollectEmpty(timers, AlertOf(now, notificationMinutes));
  }

  /** One iteration of the loop: the alerts at the instant `now` (sent only when the command
      channel exists), then `remove_expired`, which reads the clock again (`sweepNow`, after
      every alert was sent; nothing orders the two readings), then a board update only if
      something expired. A missing board channel makes the update fail, which the loop
      catches. */
  method CheckTimersCycle(board: LegacyTimerBoard, now: Instant, sweepNow: Instant,
                          notificationMinutes: int, expiryMinutes: int,
                          cmdChannel: bool, timerboardChannel: Option<seq<Message>>)
    returns (sent: seq<string>, expired: seq<LegacyTimer>, ops: seq<BoardOp>)
    modifies board
    ensures sent == if cmdChannel then AlertTexts(old(board.timers), now, notificationMinutes) else []
    ensures var threshold := Timers.ExpiryThreshold(sweepNow, expiryMinutes);
      expired == Below(old(board.timers), TimeOf, threshold) &&
      board.timers == AtLeast(old(board.timers), TimeOf, threshold)
    ensures expired == [] ==> ops == [] && board.timers == old(board.timers) && board.saves == old(board.saves)
    ensures expired != [] && timerboardChannel.Some? ==>
      ops == SyncOps(|BotMessages(timerboardChannel.value)|, BoardPages(board.timers))
    ensures timerboardChannel.None? ==> ops == []
    ensures board.nextId == old(board.nextId)
    ensures old(board.NoSimilarPair()) ==> board.NoSimilarPair()
  {
    var timers := board.timers;
    sent := [];
    var i := 0;
    while i < |timers|
      invariant 0 <= i <= |timers|
      invariant unchanged(board)
      invariant sent == if cmdChannel then AlertTexts(timers[..i], now, notificationMinutes) else []
    {
      var alert := AlertFor(timers[i], now, notificationMinutes);
      var piece := if alert.Some? then [alert.value] else [];
      AlertTextsStep(timers, i, now, notificationMinutes);
      if cmdChannel {
        sent := sent + piece;
      }
      i := i + 1;
    }
    assert timers[..i] == timers;
    expired := board.RemoveExpired(sweepNow, expiryMinutes);
    ops := [];
    if expired != [] {
      ops := board.UpdateTimerboard(timerboardChannel);
    }
  }

  // ---------------------------------------------------------------------------------------
  // The `add` and `rm` commands.

  datatype AddError = NoSpace | InvalidTime

  function ErrorReply(e: AddError): string {
    match e
    case NoSpace => "Invalid format. Use: !add YYYY-MM-DD HH:MM:SS description"
    case InvalidTime =>
      "Invalid time format. Use: YYYY-MM-DD HH:MM:SS or system structure Reinforced until YYYY.MM.DD HH:MM:SS [tags]"
  }

  /** `add` up to the board: the reinforced format with the same patterns as the current
      bot, else the text before the first space as the time; then the time conversion, whose
      `ValueError` gives the second error. */
  function ParseAdd(input: string): (r: Result<(Instant, string), AddError>)
    ensures r == Err(NoSpace) ==> ' ' !in input
  {
    match TimerCommands.SingleLineParts(input)
    case None => Err(NoSpace)
    case Some((timeText, description)) =>
      match Strptime(timeText)
      case None => Err(InvalidTime)
      case Some(time) => Ok((time, description))
  }

  /** On text that is not in the current bot's three-line format, both bots read the same
      time and description, and refuse the same inputs for the same reason. The three-line
      format is unknown to this bot. */
  lemma SingleLineAsCurrent(input: string)
    requires !TimerCommands.IsMultiLine(input)
    ensures ParseAdd(input).Ok? <==> TimerCommands.ParseAdd(input).Ok?
    ensures ParseAdd(input).Ok? ==> ParseAdd(input).value == TimerCommands.ParseAdd(input).value
    ensures ParseAdd(input) == Err(NoSpace) <==> TimerCommands.ParseAdd(input) == Err(TimerCommands.BadFormat)
  {
  }

  function ToStrings(timers: seq<LegacyTimer>): seq<string> {
    MapSeq(timers, ToString)
  }

  /** The reply to `add`. With similar timers it lists them and says "Added anyway", although
      the board refused the timer. */
  function AddedReply(newTimer: LegacyTimer, similar: seq<LegacyTimer>): string {
    if similar != [] then
      "\U{26A0}\U{FE0F} Warning: Similar timers found:\n" + Join("\n", ToStrings(similar)) +
      "\nAdded anyway with ID " + IntToString(newTimer.timerId)
    else "Timer added with ID " + IntToString(newTimer.timerId)
  }

  /** `add`: an input that does not parse gets its error and changes nothing; otherwise the
      board's `add_timer` runs, the reply is sent and the board channel is updated, also when
      the timer was refused as similar. */
  method AddCommand(board: LegacyTimerBoard, input: string, channel: Option<seq<Message>>)
    returns (reply: string, ops: seq<BoardOp>)
    modifies board
    ensures ParseAdd(input).Err? ==>
      reply == ErrorReply(ParseAdd(input).error) && ops == [] &&
      board.timers == old(board.timers) && board.nextId == old(board.nextId) && board.saves == old(board.saves)
    ensures ParseAdd(input).Ok? ==>
      var t := NewLegacyTimer(ParseAdd(input).value.0, ParseAdd(input).value.1, old(board.nextId));
      var similar := SimilarTo(old(board.timers), t);
      reply == AddedReply(t, similar) &&
      (similar != [] ==>
        board.timers == old(board.timers) && board.nextId == old(board.nextId) && board.saves == old(board.saves)) &&
      (similar == [] ==>
        board.timers == SortBy(old(board.timers) + [t], TimeOf) && board.nextId == old(board.nextId) + 1) &&
      ops == (if channel.None? then [] else SyncOps(|BotMessages(channel.value)|, BoardPages(board.timers)))
  {
    match ParseAdd(input)
    case Err(e) =>
      reply := ErrorReply(e);
      ops := [];
    case Ok((time, description)) =>
      reply, ops := AddParsed(board, time, description, channel);
  }

  /** The part of `add` after a successful parse. */
  method AddParsed(board: LegacyTimerBoard, time: Instant, description: string, channel: Option<seq<Message>>)
    returns (reply: string, ops: seq<BoardOp>)
    modifies board
    ensures var t := NewLegacyTimer(time, description, old(board.nextId));
      var similar := SimilarTo(old(board.timers), t);
      reply == AddedReply(t, similar) &&
      (similar != [] ==>
        board.timers == old(board.timers) && board.nextId == old(board.nextId) && board.saves == old(board.saves)) &&
      (similar == [] ==>
        board.timers == SortBy(old(board.timers) + [t], TimeOf) && board.nextId == old(board.nextId) + 1) &&
      ops == (if channel.None? then [] else SyncOps(|BotMessages(channel.value)|, BoardPages(board.timers)))
  {
    var newTimer, similar := board.AddTimer(time, description);
    reply := AddedReply(newTimer, similar);
    ops := board.UpdateTimerboard(channel);
  }

  function RemovedReply(t: LegacyTimer): string {
    "Removed timer: " + SystemLink(t.system) + " - " + t.structureName + " " + t.notes + " at `" +
    Format(t.time) + "` (ID: " + IntToString(t.timerId) + ")"
  }

  /** `rm`: a known id is removed, confirmed and the board channel updated; an unknown id
      gets "No timer found" and the board is neither changed nor re-rendered. */
  method RmCommand(board: LegacyTimerBoard, timerId: int, channel: Option<seq<Message>>)
    returns (reply: string, ops: seq<BoardOp>)
    modifies board
    ensures FirstWith(old(board.timers), IdOf, timerId).None? ==>
      reply == "No timer found with ID " + IntToString(timerId) && ops == [] &&
      board.timers == old(board.timers) && board.saves == old(board.saves)
    ensures FirstWith(old(board.timers), IdOf, timerId).Some? ==>
      var i := FirstWith(old(board.timers), IdOf, timerId).value;
      reply == RemovedReply(old(board.timers)[i]) &&
      board.timers == old(board.timers)[..i] + old(board.timers)[i + 1..] &&
      ops == (if channel.None? then [] else SyncOps(|BotMessages(channel.value)|, BoardPages(board.timers)))
    ensures board.nextId == old(board.nextId)
    ensures old(board.NoSimilarPair()) ==> board.NoSimilarPair()
  {
    var removed := board.RemoveTimer(timerId);
    match removed
    case None =>
      reply := "No timer found with ID " + IntToString(timerId);
      ops := [];
    case Some(t) =>
      reply := RemovedReply(t);
      ops := board.UpdateTimerboard(channel);
  }
}
