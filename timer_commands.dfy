/** The `add` and `rm` commands of the current bot (`bot/cogs/timer_commands.py`): the three
    input formats of `add`, the conversion of the time string, and the replies. */
module TimerCommands {
  import opened Wrappers
  import opened Strings
  import opened DateTimes
  import opened Seqs
  import opened Patterns
  import opened Discord
  import opened Timers

  /** The replies that end `add` before the store is touched. */
  datatype AddError = SystemNotParsed | BadReinforcedTime | BadFormat | BadTime

  function ErrorReply(e: AddError): string {
    match e
    case SystemNotParsed => "Could not parse system name from structure"
    case BadReinforcedTime => "Invalid reinforced time format"
    case BadFormat => "Invalid format. Use: !add YYYY-MM-DD HH:MM:SS description"
    // The exception text that follows is not modelled.
    case BadTime => "Invalid time format: "
  }

  // ---------------------------------------------------------------------------------------
  // Multi-line format: structure name, distance, "Reinforced until ..." on the third line.

  /** The multi-line format is chosen when there are at least three lines and the third
      mentions "Reinforced until". */
  predicate IsMultiLine(input: string) {
    var lines := SplitOn(input, '\n');
    |lines| >= 3 && Contains(lines[2], "Reinforced until")
  }

  /** A one-line input never takes the multi-line branch. */
  lemma OneLineIsNotMultiLine(input: string)
    requires '\n' !in input
    ensures !IsMultiLine(input)
  {
    SplitOnNoSep(input, '\n');
  }

  // `([A-Z0-9-]+)(?:\s*[»>]\s*.*)?(?:\s*-\s*.*)?$` anchored at the start of a line. Once
  // group 1 has ended at `n`, the rest matches iff the line ends there or the first
  // character after the whitespace is `»`, `>` or `-` (the `.*` then runs to the end).

  predicate ContinuesAt(s: string, n: nat)
    requires n <= |s|
  {
    var w := RunEnd(s, n, Space);
    n == |s| || (w < |s| && s[w] in {'»', '>', '-'})
  }

  /** Group 1 is the longest prefix of the run, of length at most `n`, after which the rest
      of the pattern matches. */
  function SystemEndFrom(s: string, n: nat): (r: Option<nat>)
    requires n <= |s|
    ensures r.Some? ==> 1 <= r.value <= n && ContinuesAt(s, r.value)
    ensures r.Some? ==> forall k :: r.value < k <= n ==> !ContinuesAt(s, k)
    ensures r.None? ==> forall k :: 1 <= k <= n ==> !ContinuesAt(s, k)
    decreases n
  {
    if n == 0 then None
    else if ContinuesAt(s, n) then Some(n)
    else SystemEndFrom(s, n - 1)
  }

  /** Where group 1 ends on the stripped first line, if the pattern matches. */
  function StructureLineMatch(s: string): (r: Option<nat>)
    ensures r.Some? ==> 1 <= r.value <= |s| && forall k :: 0 <= k < r.value ==> In(s[k], SystemChar)
  {
    SystemEndFrom(s, RunEnd(s, 0, SystemChar))
  }

  /** Group 1 is the whole `[A-Z0-9-]` run exactly when the rest of the pattern matches right
      after it; the backtracking to a shorter run is never needed then. */
  lemma StructureLineMatchRun(s: string, n: nat)
    requires 1 <= n <= |s| && forall k :: 0 <= k < n ==> In(s[k], SystemChar)
    requires n == |s| || !In(s[n], SystemChar)
    ensures StructureLineMatch(s) == Some(n) <==> ContinuesAt(s, n)
  {
    RunEndIs(s, 0, n, SystemChar);
  }

  /** The first line of the documented example keeps `4M-QXK` as the system. */
  lemma StructureLineExample()
    ensures StructureLineMatch("4M-QXK - PRIVATE") == Some(6)
  {
    var s := "4M-QXK - PRIVATE";
    RunEndIs(s, 6, 7, Space);
    assert ContinuesAt(s, 6);
    StructureLineMatchRun(s, 6);
  }

  /** The structure name is what follows the system, stripped; a leading `»` is stripped
      off together with spaces, then a leading `-` likewise. */
  function CleanStructure(rest: string): string {
    var a := Strip(rest);
    var b := if a != [] && a[0] == '»' then StripChars(a, {'»', ' '}) else a;
    if b != [] && b[0] == '-' then StripChars(b, {'-', ' '}) else b
  }

  /** A name that begins and ends with neither whitespace nor `-` nor `»`. */
  predicate PlainName(name: string) {
    name != [] &&
    !IsSpace(name[0]) && name[0] !in {'-', '»'} &&
    !IsSpace(name[|name| - 1]) && name[|name| - 1] !in {'-', '»'}
  }

  /** The two stripping steps of `CleanStructure`, one at a time. */
  lemma CleanStructureSteps(rest: string)
    ensures var a := Strip(rest);
      a != [] && a[0] == '-' ==> CleanStructure(rest) == StripChars(a, {'-', ' '})
    ensures var a := Strip(rest); var b := StripChars(a, {'»', ' '});
      a != [] && a[0] == '»' && (b == [] || b[0] != '-') ==> CleanStructure(rest) == b
  {
  }

  /** Stripping `" " + sep + " " + name` leaves the separator and the name. */
  lemma SeparatorStrip(name: string, sep: char)
    requires PlainName(name) && sep in {'-', '»'}
    ensures Strip([' ', sep, ' '] + name) == [sep, ' '] + name
  {
    var a := [sep, ' '] + name;
    assert a[|a| - 1] == name[|name| - 1];
    StripClassFramed(" ", a, Space);
    SeparatorText(name, sep);
  }

  lemma SeparatorText(name: string, sep: char)
    ensures " " + ([sep, ' '] + name) == [' ', sep, ' '] + name
  {
  }

  /** Stripping the separator and the spaces after it leaves the name. */
  lemma SeparatorStripChars(name: string, sep: char)
    requires PlainName(name) && sep in {'-', '»'}
    ensures StripChars([sep, ' '] + name, {sep, ' '}) == name
  {
    StripClassFramed([sep, ' '], name, OneOf({sep, ' '}));
  }

  /** After a dash separator the structure name comes out as written. */
  lemma CleanStructureAfterDash(name: string)
    requires PlainName(name)
    ensures CleanStructure(" - " + name) == name
  {
    SeparatorStrip(name, '-');
    SeparatorStripChars(name, '-');
    CleanStructureSteps(" - " + name);
  }

  /** After a `»` separator likewise. */
  lemma CleanStructureAfterArrow(name: string)
    requires PlainName(name)
    ensures CleanStructure(" » " + name) == name
  {
    SeparatorStrip(name, '»');
    SeparatorStripChars(name, '»');
    CleanStructureSteps(" » " + name);
  }

  // `Reinforced until (<stamp>)\s*(\[.*\](?:\[.*\])*)?$`, searched on the third line.

  /** After the stamp ending at `q`: optional whitespace, then either the end of the line or
      bracket tags running to it. The tags are returned ("" when absent). */
  function TagsTail(t: string, q: nat): (r: Option<string>)
    requires q <= |t|
    ensures r.Some? && r.value != [] ==> r.value[0] == '[' && r.value[|r.value| - 1] == ']' && |r.value| <= |t| && r.value == t[|t| - |r.value|..]
  {
    var j := RunEnd(t, q, Space);
    if j == |t| then Some("")
    else if t[j] == '[' && j + 2 <= |t| && t[|t| - 1] == ']' then Some(t[j..])
    else None
  }

  /** The time pattern matches at `i`: the stamp, then optional tags up to the end. */
  predicate TimeMatchAt(t: string, i: nat) {
    ReinforcedAt(t, i) && TagsTail(t, i + 36).Some?
  }

  /** `re.search` for the time pattern: the leftmost position from `i` where it matches. */
  function SearchTime(t: string, i: nat): (r: Option<nat>)
    requires i <= |t|
    ensures r.Some? ==> i <= r.value && TimeMatchAt(t, r.value)
    ensures r.Some? ==> forall k :: i <= k < r.value ==> !TimeMatchAt(t, k)
    ensures r.None? ==> forall k :: i <= k <= |t| ==> !TimeMatchAt(t, k)
    decreases |t| - i
  {
    if TimeMatchAt(t, i) then Some(i)
    else if i == |t| then None
    else SearchTime(t, i + 1)
  }

  /** The captured stamp with its dots turned into dashes. */
  function StampAt(s: string, i: nat): (r: string)
    requires ReinforcedAt(s, i)
    ensures IsStamp(r)
  {
    ReplaceChar(s[i + 17..i + 36], '.', '-')
  }

  /** What the multi-line branch extracts. */
  datatype MultiLine = MultiLine(system: string, structureName: string, tags: string, timeText: string)

  /** `"<system> - <structure>"`, then `" <tags>"` only when there are tags. */
  function MultiLineDescription(m: MultiLine): string {
    m.system + " - " + m.structureName + (if m.tags != "" then " " + m.tags else "")
  }

  function ParseMultiLine(input: string): (r: Result<MultiLine, AddError>)
    requires IsMultiLine(input)
    ensures r.Err? ==> r.error == SystemNotParsed || r.error == BadReinforcedTime
    ensures r.Ok? ==> r.value.system != [] && forall k :: 0 <= k < |r.value.system| ==> In(r.value.system[k], SystemChar)
    ensures r.Ok? ==> IsStamp(r.value.timeText)
    ensures r.Ok? ==> '\n' !in r.value.structureName && '\n' !in r.value.tags
  {
    var lines := SplitOn(input, '\n');
    var s := Strip(lines[0]);
    match StructureLineMatch(s)
    case None => Err(SystemNotParsed)
    case Some(n) =>
      // Group 1 holds no whitespace, so stripping it changes nothing.
      StructureNoNewline(lines[0], s, n);
      WithTime(s[..n], CleanStructure(s[n..]), lines[2])
  }

  /** The third line's part of the multi-line branch: the time and the tags. */
  function WithTime(system: string, structure: string, line2: string): (r: Result<MultiLine, AddError>)
    requires '\n' !in line2
    ensures r.Err? ==> r.error == BadReinforcedTime
    ensures r.Ok? ==> r.value.system == system && r.value.structureName == structure
    ensures r.Ok? ==> IsStamp(r.value.timeText) && '\n' !in r.value.tags
  {
    match SearchTime(line2, 0)
    case None => Err(BadReinforcedTime)
    case Some(i) =>
      TagsNoNewline(line2, i + 36);
      Ok(MultiLine(system, structure, TagsTail(line2, i + 36).value, StampAt(line2, i)))
  }

  /** A structure name cut from a line holds no newline. */
  lemma StructureNoNewline(line0: string, s: string, n: nat)
    requires '\n' !in line0 && s == Strip(line0) && n <= |s|
    ensures '\n' !in CleanStructure(s[n..])
  {
    StripShape(line0);
    assert '\n' !in s[n..] by {
      forall k | 0 <= k < |s| - n ensures s[n..][k] != '\n' {
        assert s[n..][k] in s;
      }
    }
    CleanStructureChars(s[n..]);
  }

  /** Cleaning a structure name only removes characters. */
  lemma CleanStructureChars(rest: string)
    ensures forall c :: c in CleanStructure(rest) ==> c in rest
  {
    var a := Strip(rest);
    StripShape(rest);
    StripCharsShape(a, {'»', ' '});
    var b := if a != [] && a[0] == '»' then StripChars(a, {'»', ' '}) else a;
    StripCharsShape(b, {'-', ' '});
  }

  /** Tags cut from a line hold no newline. */
  lemma TagsNoNewline(line2: string, q: nat)
    requires '\n' !in line2 && q <= |line2| && TagsTail(line2, q).Some?
    ensures '\n' !in TagsTail(line2, q).value
  {
    var tags := TagsTail(line2, q).value;
    if tags != [] {
      assert tags == line2[RunEnd(line2, q, Space)..];
    }
  }

  lemma StripCharsShape(s: string, chars: set<char>)
    ensures forall c :: c in StripChars(s, chars) ==> c in s
  {
    LStripChars(s, OneOf(chars));
    RStripChars(LStrip(s, OneOf(chars)), OneOf(chars));
  }

  // ---------------------------------------------------------------------------------------
  // Single-line format, also the one of the single-file bot:
  // `(.*?)Reinforced until (<stamp>)(?:\s+(\[.*\]))?`, searched.

  /** The lazy `(.*?)` from a start: the first position, before any newline, where the
      literal and the stamp follow. */
  function LazyScan(s: string, m: nat): (r: Option<nat>)
    requires m <= |s|
    ensures r.Some? ==> m <= r.value && ReinforcedAt(s, r.value) && NoNewline(s, m, r.value)
  {
    LazyUntil(s, m, Reinforced(s))
  }

  function Reinforced(s: string): nat -> bool {
    (k: nat) => ReinforcedAt(s, k)
  }

  /** Lazy: the scan stops at the first place where the literal and the stamp follow. */
  lemma LazyScanFirst(s: string, m: nat)
    requires m <= |s| && LazyScan(s, m).Some?
    ensures forall k :: m <= k < LazyScan(s, m).value ==> !ReinforcedAt(s, k)
  {
    LazyUntilFirst(s, m, Reinforced(s));
    forall k | m <= k < LazyScan(s, m).value
      ensures !ReinforcedAt(s, k)
    {
      assert !Reinforced(s)(k);
    }
  }

  /** The leftmost match: its start (group 1 begins there) and where the literal begins. */
  function SearchReinforced(s: string, p: nat): (r: Option<(nat, nat)>)
    requires p <= |s|
    ensures r.Some? ==> p <= r.value.0 <= r.value.1 && ReinforcedAt(s, r.value.1) && NoNewline(s, r.value.0, r.value.1)
    decreases |s| - p
  {
    match LazyScan(s, p)
    case Some(m) => Some((p, m))
    case None => if p == |s| then None else SearchReinforced(s, p + 1)
  }

  /** A failed scan from `p` means the pattern does not start at `p`, and, unless `p` holds
      a newline, the scan from `p + 1` fails too. */
  lemma LazyScanStep(s: string, p: nat)
    requires p < |s| && LazyScan(s, p).None?
    ensures !ReinforcedAt(s, p)
    ensures s[p] != '\n' ==> LazyScan(s, p + 1).None?
  {
    assert Reinforced(s)(p) == ReinforcedAt(s, p);
  }

  /** `re.search` takes the leftmost start: the match is the first occurrence of the literal
      and the stamp from `p`, ... */
  lemma {:induction false} SearchReinforcedFirst(s: string, p: nat)
    requires p <= |s| && SearchReinforced(s, p).Some?
    ensures forall k :: p <= k < SearchReinforced(s, p).value.1 ==> !ReinforcedAt(s, k)
    decreases |s| - p
  {
    if LazyScan(s, p).Some? {
      LazyScanFirst(s, p);
    } else {
      assert SearchReinforced(s, p) == SearchReinforced(s, p + 1);
      LazyScanStep(s, p);
      SearchReinforcedFirst(s, p + 1);
    }
  }

  /** ... and group 1 starts at `p` or right after the newline that precedes it. */
  lemma {:induction false} SearchReinforcedLineStart(s: string, p: nat)
    requires p <= |s| && SearchReinforced(s, p).Some?
    ensures var start := SearchReinforced(s, p).value.0;
      start == p || s[start - 1] == '\n'
    decreases |s| - p
  {
    if LazyScan(s, p).None? {
      var r := SearchReinforced(s, p + 1);
      assert SearchReinforced(s, p) == r;
      LazyScanStep(s, p);
      SearchReinforcedLineStart(s, p + 1);
      if s[p] != '\n' {
        assert r == SearchReinforced(s, p + 2);
        assert p + 2 <= r.value.0;
      }
    } else {
      assert SearchReinforced(s, p) == Some((p, LazyScan(s, p).value));
    }
  }

  /** The search fails exactly when the literal and the stamp occur nowhere from `p`. */
  lemma {:induction false} SearchReinforcedComplete(s: string, p: nat)
    requires p <= |s|
    ensures SearchReinforced(s, p).None? <==> forall k :: p <= k <= |s| ==> !ReinforcedAt(s, k)
    decreases |s| - p
  {
    if LazyScan(s, p).None? {
      if p < |s| {
        LazyScanStep(s, p);
        SearchReinforcedComplete(s, p + 1);
      } else {
        assert !Reinforced(s)(p);
      }
    }
  }

  /** Without the literal's first letter nothing is found. */
  lemma {:induction false} SearchReinforcedNone(s: string, p: nat)
    requires p <= |s| && 'R' !in s
    ensures SearchReinforced(s, p) == None
    decreases |s| - p
  {
    LazyScanNone(s, p);
    if p < |s| {
      SearchReinforcedNone(s, p + 1);
    }
  }

  lemma LazyScanNone(s: string, m: nat)
    requires m <= |s| && 'R' !in s
    ensures LazyScan(s, m) == None
  {
    forall k | m <= k <= |s|
      ensures !Reinforced(s)(k)
    {
      if k + |ReinforcedUntil| <= |s| {
        assert s[k..k + |ReinforcedUntil|][0] == s[k] != ReinforcedUntil[0];
      }
    }
    LazyUntilNever(s, m, Reinforced(s));
  }

  /** The first newline at or after `a`, or the end. */
  function LineEnd(s: string, a: nat): (e: nat)
    requires a <= |s|
    ensures a <= e <= |s| && NoNewline(s, a, e) && (e < |s| ==> s[e] == '\n')
    decreases |s| - a
  {
    if a == |s| || s[a] == '\n' then a else LineEnd(s, a + 1)
  }

  /** The last `]` in `s[a..e]`. */
  function LastClose(s: string, a: nat, e: nat): (r: Option<nat>)
    requires a <= e <= |s|
    ensures r.Some? ==> a <= r.value < e && s[r.value] == ']'
    ensures r.Some? ==> forall k :: r.value < k < e ==> s[k] != ']'
    ensures r.None? ==> forall k :: a <= k < e ==> s[k] != ']'
    decreases e - a
  {
    if e == a then None
    else if s[e - 1] == ']' then Some(e - 1)
    else LastClose(s, a, e - 1)
  }

  /** Group 3, `\s+(\[.*\])` after the stamp ending at `q`: whitespace (newlines included),
      an opening bracket, and the text up to the last closing bracket on that line; "" when
      the optional group does not match. */
  function BracketGroup(s: string, q: nat): (r: string)
    requires q <= |s|
    ensures r != [] ==> r[0] == '[' && r[|r| - 1] == ']' && '\n' !in r
    ensures var j := RunEnd(s, q, Space);
      r != [] ==>
        q < j && j + |r| <= |s| && r == s[j..j + |r|] &&
        forall k :: j + |r| <= k < LineEnd(s, j + 1) ==> s[k] != ']'
    ensures var j := RunEnd(s, q, Space);
      r == [] <==> j == q || j == |s| || s[j] != '[' || forall k :: j < k < LineEnd(s, j + 1) ==> s[k] != ']'
  {
    var j := RunEnd(s, q, Space);
    if j == q || j == |s| || s[j] != '[' then ""
    else
      var e := LineEnd(s, j + 1);
      match LastClose(s, j + 1, e)
      case None => ""
      case Some(k) =>
        assert NoNewline(s, j, k + 1);
        s[j..k + 1]
  }

  // `([^\s]+)\s+(.+?)(?:\s+\d+\s*km)?$` anchored on the stripped prefix.

  /** `\s+\d+\s*km$` from `e`: the optional distance at the end of the prefix. */
  predicate KmTailAt(p: string, e: nat)
    requires e <= |p|
  {
    var a := RunEnd(p, e, Space);
    var b := RunEnd(p, a, Digit);
    var c := RunEnd(p, b, Space);
    e < a < b && c + 2 <= |p| && p[c] == 'k' && p[c + 1] == 'm' && DollarAt(p, c + 2)
  }

  /** Where the structure group may end: the distance or the end of the text follows. */
  predicate StructureEndAt(p: string, e: nat) {
    e <= |p| && (KmTailAt(p, e) || DollarAt(p, e))
  }

  /** The lazy `(.+?)` from `w`, currently ending at `e`: it stops at the first end after
      which the distance (tried first) or the end of the text follows. */
  function LazyStructure(p: string, w: nat, e: nat): (r: Option<nat>)
    requires w < e <= |p|
    ensures r.Some? ==> e <= r.value && StructureEndAt(p, r.value)
  {
    LazyUntil(p, e, StructureEnd(p))
  }

  function StructureEnd(p: string): nat -> bool {
    (k: nat) => StructureEndAt(p, k)
  }

  /** The lazy group ends at the first position that can end the structure. */
  lemma LazyStructureAt(p: string, w: nat, m: nat)
    requires w < m <= |p| && StructureEnd(p)(m) && NoNewline(p, w + 1, m)
    requires forall k :: w + 1 <= k < m ==> !StructureEnd(p)(k)
    ensures LazyStructure(p, w, w + 1) == Some(m)
  {
    LazyUntilAt(p, w + 1, StructureEnd(p), m);
  }

  lemma StructureEndNone(p: string, a: nat, m: nat)
    requires forall k :: a <= k < m ==> !StructureEndAt(p, k)
    ensures forall k :: a <= k < m ==> !StructureEnd(p)(k)
  {
  }

  lemma StructureEndHolds(p: string, m: nat)
    requires StructureEndAt(p, m)
    ensures StructureEnd(p)(m)
  {
  }

  /** Lazy: no earlier position could end the structure. */
  lemma LazyStructureFirst(p: string, w: nat, e: nat)
    requires w < e <= |p| && LazyStructure(p, w, e).Some?
    ensures forall k :: e <= k < LazyStructure(p, w, e).value ==> !StructureEndAt(p, k)
  {
    LazyUntilFirst(p, e, StructureEnd(p));
    forall k | e <= k < LazyStructure(p, w, e).value
      ensures !StructureEndAt(p, k)
    {
      assert !StructureEnd(p)(k);
    }
  }

  /** Where the system and structure groups lie: `p[..systemEnd]` and
      `p[structStart..structEnd]`. */
  datatype PrefixMatch = PrefixMatch(systemEnd: nat, structStart: nat, structEnd: nat)

  /** The whitespace between the groups ends at `w` or, backtracking, earlier. */
  function PrefixFrom(p: string, t: nat, w: nat): (r: Option<PrefixMatch>)
    requires t < w <= |p|
    ensures r.Some? ==> r.value.systemEnd == t < r.value.structStart <= w && r.value.structStart < r.value.structEnd <= |p|
    decreases w
  {
    var m := if w < |p| && p[w] != '\n' then LazyStructure(p, w, w + 1) else None;
    if m.Some? then Some(PrefixMatch(t, w, m.value))
    else if w == t + 1 then None
    else PrefixFrom(p, t, w - 1)
  }

  function PrefixMatchOf(p: string): (r: Option<PrefixMatch>)
    ensures r.Some? ==> 1 <= r.value.systemEnd < r.value.structStart < r.value.structEnd <= |p|
    ensures r.Some? ==> forall k :: 0 <= k < r.value.systemEnd ==> !IsSpace(p[k])
  {
    var t := RunEnd(p, 0, NonSpace);
    var w := RunEnd(p, t, Space);
    if t == 0 || w == t then None else PrefixFrom(p, t, w)
  }

  /** The pair (time text, description) of the single-line format, if the pattern is found:
      `"<system> - <structure> <tags>"` when the prefix splits, else the whole input. */
  function ParseReinforced(input: string): (r: Option<(string, string)>)
    ensures r.Some? ==> IsStamp(r.value.0)
  {
    match SearchReinforced(input, 0)
    case None => None
    case Some((start, m)) =>
      var prefix := Strip(input[start..m]);
      var tags := BracketGroup(input, m + 36);
      Some((StampAt(input, m), ReinforcedDescription(input, prefix, tags)))
  }

  /** `"<system> - <structure> <tags>"` when the prefix splits, else the whole input. */
  function ReinforcedDescription(input: string, prefix: string, tags: string): string {
    match PrefixMatchOf(prefix)
    case Some(pm) => prefix[..pm.systemEnd] + " - " + prefix[pm.structStart..pm.structEnd] + " " + tags
    case None => input
  }

  // ---------------------------------------------------------------------------------------
  // What the single-line pattern makes of a command written as documented:
  // `<system> <structure> <n> km Reinforced until <stamp> [<tags>]`.

  /** Tags as the documented format writes them: absent, or one bracketed group on the line. */
  predicate TagsText(tags: string) {
    tags == [] || (|tags| >= 2 && tags[0] == '[' && tags[|tags| - 1] == ']' && '\n' !in tags)
  }

  /** What follows the stamp: nothing, or one space and the tags. */
  function TagsSuffix(tags: string): string {
    if tags == [] then "" else " " + tags
  }

  /** The search finds the first occurrence when it lies on the first line. */
  lemma SearchReinforcedAt(s: string, m: nat)
    requires ReinforcedAt(s, m) && NoNewline(s, 0, m)
    requires forall k :: 0 <= k < m ==> !ReinforcedAt(s, k)
    ensures SearchReinforced(s, 0) == Some((0, m))
  {
    forall k | 0 <= k < m
      ensures !Reinforced(s)(k)
    {
    }
    assert Reinforced(s)(m);
    LazyUntilAt(s, 0, Reinforced(s), m);
  }

  /** After any prefix, the literal, a dotted stamp and the tags give the stamp with dashes
      and the tags as group 3. */
  lemma StampAndTags(pre: string, stamp: string, tags: string)
    requires |stamp| == 19 && DottedStampAt(stamp, 0) && TagsText(tags)
    ensures var s := pre + ReinforcedUntil + stamp + TagsSuffix(tags);
      ReinforcedAt(s, |pre|) && StampAt(s, |pre|) == ReplaceChar(stamp, '.', '-') &&
      BracketGroup(s, |pre| + 36) == tags
  {
    var s := pre + ReinforcedUntil + stamp + TagsSuffix(tags);
    var m := |pre|;
    FourParts(pre, ReinforcedUntil, stamp, TagsSuffix(tags));
    DottedStampCopied(s, m + 17, stamp);
    BracketGroupAtEnd(s, m + 36, tags);
  }

  /** Group 3 of a line that ends with the tags after one space, or ends right away. */
  lemma BracketGroupAtEnd(s: string, q: nat, tags: string)
    requires q <= |s| && s[q..] == TagsSuffix(tags) && TagsText(tags)
    ensures BracketGroup(s, q) == tags
  {
    if tags == [] {
      RunEndIs(s, q, q, Space);
    } else {
      assert s[q..][0] == ' ' && s[q..][1] == '[';
      RunEndIs(s, q, q + 1, Space);
      forall k | q + 1 <= k < |s|
        ensures s[k] == tags[k - q - 1]
      {
        assert s[q..][k - q] == s[k];
      }
      assert LineEnd(s, q + 2) == |s|;
      assert LastClose(s, q + 2, |s|) == Some(|s| - 1);
      assert s[q + 1..|s|] == tags;
    }
  }

  /** A character of an occurrence of `text`. */
  lemma LiteralChar(s: string, k: nat, text: string, i: nat)
    requires i < |text|
    ensures LiteralAt(s, k, text) ==> k + i < |s| && s[k + i] == text[i]
  {
    if LiteralAt(s, k, text) {
      assert s[k..k + |text|][i] == text[i];
    }
  }

  /** `sub` occurs in `x` wherever its characters are found. */
  lemma ContainsAt(x: string, k: nat, sub: string)
    requires k + |sub| <= |x| && forall i :: 0 <= i < |sub| ==> x[k + i] == sub[i]
    ensures Contains(x, sub)
  {
    assert sub <= x[k..];
  }

  /** An occurrence of the literal that lies within `x`, but for its final space, puts
      `Reinforced until` into `x`. */
  lemma LiteralWithin(x: string, rest: string, k: nat)
    requires k + 16 <= |x|
    ensures LiteralAt(x + rest, k, ReinforcedUntil) ==> Contains(x, "Reinforced until")
  {
    var s := x + rest;
    if LiteralAt(s, k, ReinforcedUntil) {
      forall i | 0 <= i < 16
        ensures x[k + i] == "Reinforced until"[i]
      {
        LiteralChar(s, k, ReinforcedUntil, i);
      }
      ContainsAt(x, k, "Reinforced until");
    }
  }

  /** Before the distance no occurrence of the literal can start: one inside the text would
      contain `Reinforced until`, one reaching the digits would need a digit in the literal,
      and the rest holds no `R`. */
  lemma NoLiteralBeforeKm(x: string, n: string, rest: string, k: nat)
    requires n != [] && forall i :: 0 <= i < |n| ==> IsDigit(n[i])
    requires !Contains(x, "Reinforced until")
    requires k < |x| + |n| + 5
    ensures !LiteralAt(x + " " + n + " km " + rest, k, ReinforcedUntil)
  {
    var s := x + " " + n + " km " + rest;
    if k + 16 <= |x| {
      assert s == x + (" " + n + " km " + rest);
      LiteralWithin(x, " " + n + " km " + rest, k);
    } else if k < |x| {
      assert s[|x| + 1] == n[0];
      LiteralChar(s, k, ReinforcedUntil, |x| + 1 - k);
      assert forall i :: 0 <= i < |ReinforcedUntil| ==> !IsDigit(ReinforcedUntil[i]);
    } else {
      assert s[k] != 'R' by {
        if k == |x| {
          assert s[k] == ' ';
        } else if k <= |x| + |n| {
          assert s[k] == n[k - |x| - 1];
        } else {
          assert s[k] == " km "[k - |x| - |n| - 1];
        }
      }
      LiteralChar(s, k, ReinforcedUntil, 0);
    }
  }

  /** Before the literal that follows a word and one space, no earlier occurrence can start:
      the word holds no space where the literal needs one. */
  lemma NoLiteralBeforeWord(word: string, rest: string, k: nat)
    requires forall i :: 0 <= i < |word| ==> !IsSpace(word[i])
    requires k <= |word|
    ensures !LiteralAt(word + " " + ReinforcedUntil + rest, k, ReinforcedUntil)
  {
    var s := word + " " + ReinforcedUntil + rest;
    assert s[|word|] == ' ' && s[|word| + 1] == 'R';
    if k < |word| && k + 10 < |word| {
      assert s[k + 10] == word[k + 10];
      LiteralChar(s, k, ReinforcedUntil, 10);
    } else if k < |word| && k + 10 > |word| {
      LiteralChar(s, k, ReinforcedUntil, |word| - k);
    } else if k < |word| {
      LiteralChar(s, k, ReinforcedUntil, 11);
    } else {
      LiteralChar(s, k, ReinforcedUntil, 0);
    }
  }

  /** `\s+\d+\s*km$` matches right after `x` in `x + " " + n + " km"`. */
  lemma KmTailAtEnd(x: string, n: string)
    requires n != [] && forall i :: 0 <= i < |n| ==> IsDigit(n[i])
    ensures KmTailAt(x + " " + n + " km", |x|)
  {
    var p := x + " " + n + " km";
    var b := |x| + 1 + |n|;
    forall i | 0 <= i < |n|
      ensures p[|x| + 1 + i] == n[i]
    {
    }
    assert p[|x|] == ' ' && p[b] == ' ' && p[b + 1] == 'k' && p[b + 2] == 'm' && |p| == b + 3;
    RunEndIs(p, |x|, |x| + 1, Space);
    RunEndIs(p, |x| + 1, b, Digit);
    RunEndIs(p, b, b + 1, Space);
  }

  /** Inside `x`, when `x` ends with a non-space, the distance cannot start: its digits would
      have to run from there up to the final ` km`. */
  lemma NoKmTailInside(x: string, n: string, e: nat)
    requires n != [] && forall i :: 0 <= i < |n| ==> IsDigit(n[i])
    requires x != [] && !IsSpace(x[|x| - 1]) && e < |x|
    ensures !KmTailAt(x + " " + n + " km", e)
  {
    var p := x + " " + n + " km";
    var a := RunEnd(p, e, Space);
    var b := RunEnd(p, a, Digit);
    var c := RunEnd(p, b, Space);
    assert |p| == |x| + |n| + 4;
    assert p[|p| - 1] == 'm' && p[|p| - 3] == ' ' && p[|p| - 4] == n[|n| - 1];
    assert p[|x|] == ' ' && p[|x| - 1] == x[|x| - 1];
    assert KmTailAt(p, e) ==> c == |p| - 2;
    assert KmTailAt(p, e) ==> b == |p| - 3;
    assert KmTailAt(p, e) ==> a > |x|;
  }

  /** The lazy structure group from `w` stops where `x` ends, before the distance. */
  lemma StructureStopsAtKm(x: string, n: string, w: nat)
    requires n != [] && forall i :: 0 <= i < |n| ==> IsDigit(n[i])
    requires w < |x| && !IsSpace(x[|x| - 1]) && forall i :: w < i < |x| ==> x[i] != '\n'
    ensures LazyStructure(x + " " + n + " km", w, w + 1) == Some(|x|)
  {
    var p := x + " " + n + " km";
    KmTailAtEnd(x, n);
    forall k | w + 1 <= k < |x|
      ensures !StructureEndAt(p, k)
    {
      NoKmTailInside(x, n, k);
    }
    assert NoNewline(p, w + 1, |x|) by {
      forall i | w + 1 <= i < |x|
        ensures p[i] != '\n'
      {
        assert p[i] == x[i];
      }
    }
    StructureEndNone(p, w + 1, |x|);
    StructureEndHolds(p, |x|);
    LazyStructureAt(p, w, |x|);
  }

  /** The split of `sys + " " + name + " " + n + " km"`: the system, then exactly the name. */
  lemma PrefixSplits(sys: string, name: string, n: string)
    requires sys != [] && forall i :: 0 <= i < |sys| ==> !IsSpace(sys[i])
    requires name != [] && !IsSpace(name[0]) && !IsSpace(name[|name| - 1]) && '\n' !in name
    requires n != [] && forall i :: 0 <= i < |n| ==> IsDigit(n[i])
    ensures var x := sys + " " + name;
      PrefixMatchOf(x + " " + n + " km") == Some(PrefixMatch(|sys|, |sys| + 1, |x|))
  {
    var x := sys + " " + name;
    var p := x + " " + n + " km";
    var w := |sys| + 1;
    assert forall i :: 0 <= i < |sys| ==> p[i] == sys[i];
    assert p[|sys|] == ' ' && p[w] == name[0] && x[|x| - 1] == name[|name| - 1];
    assert forall i :: w < i < |x| ==> x[i] == name[i - w];
    RunEndIs(p, 0, |sys|, NonSpace);
    RunEndIs(p, |sys|, w, Space);
    StructureStopsAtKm(x, n, w);
  }

  /** A first line that holds no earlier occurrence of the literal: group 1 is the text
      before it, and the stamp and tags follow. */
  lemma ParseReinforcedAfter(pre: string, stamp: string, tags: string)
    requires forall k :: 0 <= k < |pre| ==> pre[k] != '\n'
    requires |stamp| == 19 && DottedStampAt(stamp, 0) && TagsText(tags)
    requires forall k :: 0 <= k < |pre| ==> !ReinforcedAt(pre + ReinforcedUntil + stamp + TagsSuffix(tags), k)
    ensures var input := pre + ReinforcedUntil + stamp + TagsSuffix(tags);
      ParseReinforced(input) == Some((ReplaceChar(stamp, '.', '-'), ReinforcedDescription(input, Strip(pre), tags)))
  {
    var input := pre + ReinforcedUntil + stamp + TagsSuffix(tags);
    StampAndTags(pre, stamp, tags);
    assert NoNewline(input, 0, |pre|) by {
      forall k | 0 <= k < |pre|
        ensures input[k] != '\n'
      {
        assert input[k] == pre[k];
      }
    }
    SearchReinforcedAt(input, |pre|);
    ParseReinforcedFound(input, |pre|);
    AppendTake(pre, ReinforcedUntil, stamp + TagsSuffix(tags));
    AppendAssoc(pre + ReinforcedUntil, stamp, TagsSuffix(tags));
  }

  /** What the pattern gives once the search has found a match from the start. */
  lemma ParseReinforcedFound(input: string, m: nat)
    requires m <= |input| && SearchReinforced(input, 0) == Some((0, m))
    ensures ParseReinforced(input) ==
      Some((StampAt(input, m), ReinforcedDescription(input, Strip(input[0..m]), BracketGroup(input, m + 36))))
  {
  }

  /** The description made of the documented prefix `sys + " " + name + " " + n + " km "`. */
  lemma SplitDescription(sys: string, name: string, n: string, input: string, tags: string)
    requires sys != [] && forall i :: 0 <= i < |sys| ==> !IsSpace(sys[i])
    requires name != [] && !IsSpace(name[0]) && !IsSpace(name[|name| - 1]) && '\n' !in name
    requires n != [] && forall i :: 0 <= i < |n| ==> IsDigit(n[i])
    ensures ReinforcedDescription(input, Strip(sys + " " + name + " " + n + " km "), tags) ==
            sys + " - " + name + " " + tags
  {
    var x := sys + " " + name;
    var p := x + " " + n + " km";
    assert p + " " == sys + " " + name + " " + n + " km ";
    StripSpaceAfter(p);
    PrefixSplits(sys, name, n);
    PrefixGroups(sys, name, n);
  }

  /** One trailing space is stripped from a text framed by other characters. */
  lemma StripSpaceAfter(t: string)
    requires t != [] && !IsSpace(t[0]) && !IsSpace(t[|t| - 1])
    ensures Strip(t + " ") == t
  {
    StripClassBetween("", t, " ", Space);
    assert "" + t + " " == t + " ";
  }

  /** The groups of the documented prefix are the system and the name. */
  lemma PrefixGroups(sys: string, name: string, n: string)
    ensures var x := sys + " " + name;
      var p := x + " " + n + " km";
      p[..|sys|] == sys && p[|sys| + 1..|x|] == name
  {
  }

  /** The documented prefix holds neither a newline nor an occurrence of the literal. */
  lemma SplitPrefixClear(sys: string, name: string, n: string, rest: string)
    requires forall i :: 0 <= i < |sys| ==> !IsSpace(sys[i])
    requires '\n' !in name
    requires n != [] && forall i :: 0 <= i < |n| ==> IsDigit(n[i])
    requires !Contains(sys + " " + name, "Reinforced until")
    ensures var pre := sys + " " + name + " " + n + " km ";
      (forall k :: 0 <= k < |pre| ==> pre[k] != '\n') &&
      forall k :: 0 <= k < |pre| ==> !ReinforcedAt(pre + rest, k)
  {
    var x := sys + " " + name;
    var pre := sys + " " + name + " " + n + " km ";
    assert pre + rest == x + " " + n + " km " + rest;
    forall k | 0 <= k < |pre|
      ensures !ReinforcedAt(pre + rest, k)
    {
      NoLiteralBeforeKm(x, n, rest, k);
    }
    forall k | 0 <= k < |pre|
      ensures pre[k] != '\n'
    {
      if k < |sys| {
        assert pre[k] == sys[k];
      } else if |sys| < k < |x| {
        assert pre[k] == name[k - |sys| - 1];
      } else if |x| < k < |x| + 1 + |n| {
        assert pre[k] == n[k - |x| - 1];
      }
    }
  }

  /** The documented single-line command: the stamp with dashes, and the description
      `"<system> - <structure> <tags>"`, whatever the distance. */
  lemma ParseReinforcedSplits(sys: string, name: string, n: string, stamp: string, tags: string)
    requires sys != [] && forall i :: 0 <= i < |sys| ==> !IsSpace(sys[i])
    requires name != [] && !IsSpace(name[0]) && !IsSpace(name[|name| - 1]) && '\n' !in name
    requires n != [] && forall i :: 0 <= i < |n| ==> IsDigit(n[i])
    requires !Contains(sys + " " + name, "Reinforced until")
    requires |stamp| == 19 && DottedStampAt(stamp, 0) && TagsText(tags)
    ensures ParseReinforced(sys + " " + name + " " + n + " km " + ReinforcedUntil + stamp + TagsSuffix(tags)) ==
            Some((ReplaceChar(stamp, '.', '-'), sys + " - " + name + " " + tags))
  {
    var pre := sys + " " + name + " " + n + " km ";
    var input := pre + ReinforcedUntil + stamp + TagsSuffix(tags);
    AppendAssoc(pre, ReinforcedUntil + stamp, TagsSuffix(tags));
    AppendAssoc(pre, ReinforcedUntil, stamp);
    SplitPrefixClear(sys, name, n, ReinforcedUntil + stamp + TagsSuffix(tags));
    ParseReinforcedAfter(pre, stamp, tags);
    SplitDescription(sys, name, n, input, tags);
  }

  /** A single word with the space after it: nothing to split. */
  lemma WordDescription(word: string, input: string, tags: string)
    requires word != [] && forall i :: 0 <= i < |word| ==> !IsSpace(word[i])
    ensures ReinforcedDescription(input, Strip(word + " "), tags) == input
  {
    StripClassBetween("", word, " ", Space);
    assert "" + word + " " == word + " ";
    RunEndIs(word, 0, |word|, NonSpace);
    RunEndIs(word, |word|, |word|, Space);
  }

  /** A single word before the literal is no system and structure: the description is the
      whole input. */
  lemma ParseReinforcedWhole(word: string, stamp: string, tags: string)
    requires word != [] && forall i :: 0 <= i < |word| ==> !IsSpace(word[i])
    requires |stamp| == 19 && DottedStampAt(stamp, 0) && TagsText(tags)
    ensures var input := word + " " + ReinforcedUntil + stamp + TagsSuffix(tags);
      ParseReinforced(input) == Some((ReplaceChar(stamp, '.', '-'), input))
  {
    var pre := word + " ";
    var rest := stamp + TagsSuffix(tags);
    var input := word + " " + ReinforcedUntil + stamp + TagsSuffix(tags);
    assert input == word + " " + ReinforcedUntil + rest;
    assert input == pre + ReinforcedUntil + stamp + TagsSuffix(tags);
    forall k | 0 <= k < |pre|
      ensures !ReinforcedAt(input, k)
    {
      NoLiteralBeforeWord(word, rest, k);
    }
    forall k | 0 <= k < |pre|
      ensures pre[k] != '\n'
    {
      if k < |word| {
        assert pre[k] == word[k];
      }
    }
    ParseReinforcedAfter(pre, stamp, tags);
    WordDescription(word, input, tags);
  }

  // What the multi-line branch makes of a command written as documented:
  // `<system> - <structure>`, a line with the distance, then `Reinforced until <stamp> [<tags>]`.

  /** Group 3 of the time pattern: the tags after one space, or nothing. */
  lemma TagsTailAtEnd(t: string, q: nat, tags: string)
    requires q <= |t| && t[q..] == TagsSuffix(tags) && TagsText(tags)
    ensures TagsTail(t, q) == Some(tags)
  {
    if tags == [] {
      RunEndIs(t, q, q, Space);
    } else {
      assert t[q..][0] == ' ' && t[q..][1] == '[';
      RunEndIs(t, q, q + 1, Space);
      assert t[q + 1..] == t[q..][1..];
    }
  }

  /** The time pattern matches a third line written as documented right at its start. */
  lemma TimeLineDocumented(stamp: string, tags: string)
    requires |stamp| == 19 && DottedStampAt(stamp, 0) && TagsText(tags)
    ensures var line2 := ReinforcedUntil + stamp + TagsSuffix(tags);
      SearchTime(line2, 0) == Some(0) && StampAt(line2, 0) == ReplaceChar(stamp, '.', '-') &&
      TagsTail(line2, 36) == Some(tags)
  {
    var line2 := ReinforcedUntil + stamp + TagsSuffix(tags);
    StampAndTags("", stamp, tags);
    EmptyAppend(ReinforcedUntil);
    AppendDrop(ReinforcedUntil + stamp, TagsSuffix(tags));
    TagsTailAtEnd(line2, 36, tags);
    assert TimeMatchAt(line2, 0);
  }

  /** Such a line holds no newline. */
  lemma TimeLineNoNewline(stamp: string, tags: string)
    requires |stamp| == 19 && DottedStampAt(stamp, 0) && TagsText(tags)
    ensures '\n' !in ReinforcedUntil + stamp + TagsSuffix(tags)
  {
    NoNewlineInStamp(stamp);
  }

  /** A third line written as documented: the stamp with dashes and the tags. */
  lemma WithTimeDocumented(system: string, structure: string, stamp: string, tags: string)
    requires |stamp| == 19 && DottedStampAt(stamp, 0) && TagsText(tags)
    ensures var line2 := ReinforcedUntil + stamp + TagsSuffix(tags);
      '\n' !in line2 &&
      WithTime(system, structure, line2) == Ok(MultiLine(system, structure, tags, ReplaceChar(stamp, '.', '-')))
  {
    TimeLineNoNewline(stamp, tags);
    TimeLineDocumented(stamp, tags);
  }

  /** A dotted stamp holds no newline. */
  lemma NoNewlineInStamp(stamp: string)
    requires |stamp| == 19 && DottedStampAt(stamp, 0)
    ensures '\n' !in stamp
  {
    var d := ReplaceChar(stamp[0..19], '.', '-');
    assert stamp[0..19] == stamp;
    forall k | 0 <= k < 19
      ensures stamp[k] != '\n'
    {
      assert d[k] == (if stamp[k] == '.' then '-' else stamp[k]);
      assert d[k] != '\n';
    }
  }

  /** The first line `<system> - <structure>` is already stripped: the system, then the
      separator and the name. */
  lemma StructureLineStripped(sys: string, name: string)
    requires sys != [] && forall k :: 0 <= k < |sys| ==> In(sys[k], SystemChar)
    requires PlainName(name)
    ensures var s := Strip(sys + " - " + name);
      |s| == |sys| + 3 + |name| && s[..|sys|] == sys && s[|sys|..] == " - " + name
  {
    var l0 := sys + " - " + name;
    assert l0[0] == sys[0] && l0[|l0| - 1] == name[|name| - 1];
    StripClassFramed("", l0, Space);
    assert "" + l0 == l0;
    AppendAssoc(sys, " - ", name);
    AppendDrop(sys, " - " + name);
  }

  /** Group 1 ends at `n` when a `[A-Z0-9-]` run up to `n` is followed by a space and a
      dash. */
  lemma StructureLineMatchAt(s: string, n: nat)
    requires 1 <= n && n + 1 < |s| && forall k :: 0 <= k < n ==> In(s[k], SystemChar)
    requires s[n] == ' ' && s[n + 1] == '-'
    ensures StructureLineMatch(s) == Some(n)
  {
    RunEndIs(s, n, n + 1, Space);
    assert ContinuesAt(s, n);
    StructureLineMatchRun(s, n);
  }

  /** The first line `<system> - <structure>`: group 1 is the system and the cleaned
      remainder is the structure name. */
  lemma StructureLineDocumented(sys: string, name: string)
    requires sys != [] && forall k :: 0 <= k < |sys| ==> In(sys[k], SystemChar)
    requires PlainName(name)
    ensures var s := Strip(sys + " - " + name);
      StructureLineMatch(s) == Some(|sys|) && s[..|sys|] == sys && CleanStructure(s[|sys|..]) == name
  {
    var s := Strip(sys + " - " + name);
    StructureLineStripped(sys, name);
    assert s[|sys|] == s[|sys|..][0] && s[|sys| + 1] == s[|sys|..][1];
    assert forall k :: 0 <= k < |sys| ==> s[k] == s[..|sys|][k];
    StructureLineMatchAt(s, |sys|);
    CleanStructureAfterDash(name);
  }

  /** The documented multi-line command: the system, the structure name, the tags and the
      stamp with dashes, whatever the second line says. */
  lemma ParseMultiLineDocumented(sys: string, name: string, line1: string, stamp: string, tags: string)
    requires sys != [] && forall k :: 0 <= k < |sys| ==> In(sys[k], SystemChar)
    requires PlainName(name) && '\n' !in name && '\n' !in line1
    requires |stamp| == 19 && DottedStampAt(stamp, 0) && TagsText(tags)
    ensures var input := sys + " - " + name + "\n" + line1 + "\n" + ReinforcedUntil + stamp + TagsSuffix(tags);
      IsMultiLine(input) &&
      ParseMultiLine(input) == Ok(MultiLine(sys, name, tags, ReplaceChar(stamp, '.', '-')))
  {
    var l0 := sys + " - " + name;
    var line2 := ReinforcedUntil + stamp + TagsSuffix(tags);
    var input := sys + " - " + name + "\n" + line1 + "\n" + ReinforcedUntil + stamp + TagsSuffix(tags);
    MultiLineInput(sys, name, line1, stamp, tags);
    WithTimeDocumented(sys, name, stamp, tags);
    StructureLineNoNewline(sys, name);
    assert line2[..16] == "Reinforced until" by {
      LiteralStart(stamp + TagsSuffix(tags));
    }
    ThreeLinesMultiLine(l0, line1, line2);
    ParseMultiLineOfLines(input, sys, name, line2);
  }

  /** A line that starts with the literal starts with `Reinforced until`. */
  lemma LiteralStart(rest: string)
    ensures (ReinforcedUntil + rest)[..16] == "Reinforced until"
  {
  }

  /** Three lines, the third mentioning the literal, take the multi-line branch. */
  lemma ThreeLinesMultiLine(l0: string, l1: string, l2: string)
    requires '\n' !in l0 && '\n' !in l1 && '\n' !in l2
    requires |l2| >= 16 && l2[..16] == "Reinforced until"
    ensures var lines := SplitOn(l0 + "\n" + l1 + "\n" + l2, '\n');
      IsMultiLine(l0 + "\n" + l1 + "\n" + l2) && lines[0] == l0 && lines[2] == l2
  {
    SplitThreeLines(l0, l1, l2);
    assert "Reinforced until" <= l2[0..];
  }

  /** The multi-line branch on an input whose first line is `<system> - <structure>`. */
  lemma ParseMultiLineOfLines(input: string, sys: string, name: string, line2: string)
    requires IsMultiLine(input)
    requires SplitOn(input, '\n')[0] == sys + " - " + name && SplitOn(input, '\n')[2] == line2
    requires sys != [] && forall k :: 0 <= k < |sys| ==> In(sys[k], SystemChar)
    requires PlainName(name)
    ensures ParseMultiLine(input) == WithTime(sys, name, line2)
  {
    StructureLineDocumented(sys, name);
  }

  /** The documented command is its three lines joined by newlines. */
  lemma MultiLineInput(sys: string, name: string, line1: string, stamp: string, tags: string)
    ensures sys + " - " + name + "\n" + line1 + "\n" + ReinforcedUntil + stamp + TagsSuffix(tags) ==
            (sys + " - " + name) + "\n" + line1 + "\n" + (ReinforcedUntil + stamp + TagsSuffix(tags))
  {
  }

  /** The first line holds no newline. */
  lemma StructureLineNoNewline(sys: string, name: string)
    requires forall k :: 0 <= k < |sys| ==> In(sys[k], SystemChar)
    requires '\n' !in name
    ensures '\n' !in sys + " - " + name
  {
    var l0 := sys + " - " + name;
    forall k | 0 <= k < |l0|
      ensures l0[k] != '\n'
    {
      if k < |sys| {
        assert l0[k] == sys[k];
      } else if k >= |sys| + 3 {
        assert l0[k] == name[k - |sys| - 3];
      }
    }
  }

  lemma JoinThree(l0: string, l1: string, l2: string)
    ensures l0 + "\n" + (l1 + "\n" + l2) == l0 + "\n" + l1 + "\n" + l2
  {
  }

  /** Three lines without newlines, joined, split back into themselves. */
  lemma SplitThreeLines(l0: string, l1: string, l2: string)
    requires '\n' !in l0 && '\n' !in l1 && '\n' !in l2
    ensures SplitOn(l0 + "\n" + l1 + "\n" + l2, '\n') == [l0, l1, l2]
  {
    SplitOnJoin([l0, l1, l2], '\n');
    assert Join("\n", [l1, l2]) == l1 + "\n" + l2;
    assert Join("\n", [l0, l1, l2]) == l0 + "\n" + (l1 + "\n" + l2);
    JoinThree(l0, l1, l2);
  }

  // ---------------------------------------------------------------------------------------
  // The whole command.

  /** The time text and description of a one-line input: the reinforced format, else the
      text before the first space and the rest. */
  function SingleLineParts(input: string): (r: Option<(string, string)>)
    ensures r.None? <==> ParseReinforced(input).None? && ' ' !in input
  {
    match ParseReinforced(input)
    case Some(pair) => Some(pair)
    case None => SplitOnce(input, ' ')
  }

  /** The three formats in order, then the time conversion. */
  function ParseAdd(input: string): (r: Result<(Instant, string), AddError>)
    ensures r.Err? && r.error == SystemNotParsed ==> IsMultiLine(input)
    ensures r.Err? && r.error == BadReinforcedTime ==> IsMultiLine(input)
    ensures r.Err? && r.error == BadFormat ==> !IsMultiLine(input) && ' ' !in input
  {
    var parsed: Result<(string, string), AddError> :=
      if IsMultiLine(input) then
        match ParseMultiLine(input)
        case Err(e) => Err(e)
        case Ok(m) => Ok((m.timeText, MultiLineDescription(m)))
      else
        match SingleLineParts(input)
        case None => Err(BadFormat)
        case Some(parts) => Ok(parts);
    var (timeText, description) :- parsed;
    match Strptime(timeText)
    case None => Err(BadTime)
    case Some(time) => Ok((time, description))
  }

  /** In the two reinforced formats the time is accepted exactly when the captured stamp
      names a real date and time. */
  lemma MultiLineTime(input: string)
    requires IsMultiLine(input) && ParseMultiLine(input).Ok?
    ensures var stamp := ParseMultiLine(input).value.timeText;
      ParseAdd(input) == if Valid(StampFields(stamp))
        then Ok((StampFields(stamp), MultiLineDescription(ParseMultiLine(input).value)))
        else Err(BadTime)
  {
    StrptimeStamp(ParseMultiLine(input).value.timeText);
  }

  lemma SingleLineTime(input: string)
    requires !IsMultiLine(input) && ParseReinforced(input).Some?
    ensures var (stamp, description) := ParseReinforced(input).value;
      ParseAdd(input) == if Valid(StampFields(stamp)) then Ok((StampFields(stamp), description)) else Err(BadTime)
  {
    StrptimeStamp(ParseReinforced(input).value.0);
  }

  /** The direct format takes as time text only what precedes the first space; unless that
      text holds another whitespace character (a tab, a newline) it cannot match the
      two-part time format, so `add 2024-01-01 12:00:00 ...` is always refused. */
  lemma DirectNeedsOtherWhitespace(input: string)
    requires !IsMultiLine(input) && ParseReinforced(input).None?
    requires SplitOnce(input, ' ').Some?
    requires forall k :: 0 <= k < |SplitOnce(input, ' ').value.0| ==> !IsSpace(SplitOnce(input, ' ').value.0[k])
    ensures ParseAdd(input) == Err(BadTime)
  {
    StrptimeNeedsSpace(SplitOnce(input, ' ').value.0);
  }

  /** The documented direct format, a formatted time followed by a space and a
      description, is always refused. */
  lemma DirectDocumentedFormatRefused(t: Instant, description: string)
    requires '\n' !in description && 'R' !in description
    ensures ParseAdd(Format(t) + " " + description) == Err(BadTime)
  {
    var f := Format(t);
    var input := f + " " + description;
    FormatIsStamp(t);
    assert '\n' !in input && 'R' !in input;
    OneLineIsNotMultiLine(input);
    SearchReinforcedNone(input, 0);
    FirstSpaceAt(input, 10);
    DirectNeedsOtherWhitespace(input);
  }

  /** A tab instead of the space between date and time slips through the direct format. */
  lemma DirectTabAccepted(t: Instant, description: string)
    requires '\n' !in description && 'R' !in description
    ensures ParseAdd(Format(t)[10 := '\t'] + " " + description) == Ok((t, description))
  {
    var f := Format(t)[10 := '\t'];
    var input := f + " " + description;
    FormatIsStamp(t);
    assert '\n' !in input && 'R' !in input;
    OneLineIsNotMultiLine(input);
    SearchReinforcedNone(input, 0);
    FirstSpaceAt(input, 19);
    assert input[..19] == f;
    StrptimeFormatAnySpace(t, '\t');
  }

  /** Splitting once on a space that is the first one. */
  lemma FirstSpaceAt(s: string, i: nat)
    requires i < |s| && s[i] == ' ' && forall k :: 0 <= k < i ==> s[k] != ' '
    ensures SplitOnce(s, ' ') == Some((s[..i], s[i + 1..]))
  {
    var r := SplitOnce(s, ' ').value;
    var n := |r.0|;
    assert s == r.0 + [' '] + r.1;
    assert s[n] == ' ';
    if n < i {
      assert false;
    }
    assert r.0 == s[..i];
    assert r.1 == s[i + 1..];
  }

  /** The description built by the multi-line format gives the timer that system back: the
      timer's own parse of its description recovers it. */
  lemma {:induction false} MultiLineSystemRecovered(m: MultiLine)
    requires m.system != [] && forall k :: 0 <= k < |m.system| ==> In(m.system[k], SystemChar)
    requires '\n' !in m.structureName && '\n' !in m.tags
    ensures PostInit(MultiLineDescription(m)).system == m.system
  {
    var d := MultiLineDescription(m);
    var n := |m.system|;
    DescriptionShape(m);
    RunEndIs(d, 0, n, SystemChar);
    RunEndIs(d, n, n + 1, Space);
    var c0 := RunEnd(d, n + 2, Space);
    TailFromSucceeds(d, c0);
    PostInitSystemRun(d, n);
  }

  /** The multi-line description is the system, `" - "`, then a line without newlines. */
  lemma DescriptionShape(m: MultiLine)
    requires '\n' !in m.structureName && '\n' !in m.tags
    ensures var d := MultiLineDescription(m); var n := |m.system|;
      n + 3 <= |d| && d[..n] == m.system && d[n] == ' ' && d[n + 1] == '-' && NoNewline(d, n + 2, |d|)
  {
    var d := MultiLineDescription(m);
    var n := |m.system|;
    var tail := m.structureName + (if m.tags != "" then " " + m.tags else "");
    assert d == m.system + " - " + tail;
    assert d[..n] == m.system;
    forall k | n + 2 <= k < |d| ensures d[k] != '\n' {
      if k >= n + 3 {
        assert d[k] == tail[k - n - 3];
      }
    }
  }

  /** `.*?` followed by `$` always succeeds on a text without newlines. */
  lemma {:induction false} TailFromSucceeds(s: string, q: nat)
    requires q <= |s| && NoNewline(s, q, |s|)
    ensures TailFrom(s, q).Some?
    decreases |s| - q
  {
    if !BracketTailAt(s, q) && !DollarAt(s, q) {
      TailFromSucceeds(s, q + 1);
    }
  }

  /** The reply after a successful `add`. */
  function AddedReply(newTimer: Timer, similar: seq<Timer>): string {
    if similar != [] then
      "\U{26A0}\U{FE0F} Warning: Similar timers found:\n" + Join("\n", Lines(similar)) +
      "\nAdded anyway with ID " + IntToString(newTimer.timerId)
    else "Timer added with ID " + IntToString(newTimer.timerId)
  }

  /** `add`: on a parse error only the error is replied and the store is untouched;
      otherwise the timer is added, the reply names it (and any similar ones), and the board
      channel (which may be missing) is updated. Any other exception is not modelled. */
  method AddCommand(board: TimerBoard, input: string, table: map<string, string>, now: Instant,
                    channel: Option<seq<Message>>)
    returns (reply: string, ops: seq<Option<BoardOp>>)
    modifies board
    ensures ParseAdd(input).Err? ==>
      reply == ErrorReply(ParseAdd(input).error) && ops == [] &&
      board.timers == old(board.timers) && board.nextId == old(board.nextId) && board.saves == old(board.saves)
    ensures ParseAdd(input).Ok? ==>
      var (time, description) := ParseAdd(input).value;
      var t := NewTimer(time, description, old(board.nextId), "", "", "", AddedRegion(description, table));
      board.timers == SortBy(old(board.timers) + [t], TimeKey) && board.nextId == old(board.nextId) + 1 &&
      reply == AddedReply(t, SimilarTo(old(board.timers), t)) &&
      ops == [ChannelOp(channel, BoardText(now, board.timers))]
  {
    match ParseAdd(input)
    case Err(e) =>
      reply := ErrorReply(e);
      ops := [];
    case Ok((time, description)) =>
      reply, ops := AddParsed(board, time, description, table, now, channel);
  }

  /** The part of `add` after a successful parse. */
  method AddParsed(board: TimerBoard, time: Instant, description: string, table: map<string, string>,
                   now: Instant, channel: Option<seq<Message>>)
    returns (reply: string, ops: seq<Option<BoardOp>>)
    modifies board
    ensures var t := NewTimer(time, description, old(board.nextId), "", "", "", AddedRegion(description, table));
      board.timers == SortBy(old(board.timers) + [t], TimeKey) && board.nextId == old(board.nextId) + 1 &&
      reply == AddedReply(t, SimilarTo(old(board.timers), t)) &&
      ops == [ChannelOp(channel, BoardText(now, board.timers))]
  {
    var newTimer, similar := board.AddTimer(time, description, table);
    reply := AddedReply(newTimer, similar);
    ops := board.UpdateTimerboard(now, [channel]);
    OneChannel(channel, BoardText(now, board.timers));
  }

  /** The confirmation after a removal. */
  function RemovedReply(t: Timer): string {
    "Removed timer: [" + t.system + "](https://evemaps.dotlan.net/system/" + Helpers.CleanSystemName(t.system) +
    ") - " + t.structureName + " " + t.notes + " at `" + Format(t.time) + "` (ID: " + IntToString(t.timerId) + ")"
  }

  /** `rm`: a known id is removed, confirmed and the board channel updated; an unknown id
      gets "No timer found" and the board is neither changed nor re-rendered. */
  method RmCommand(board: TimerBoard, timerId: int, now: Instant, channel: Option<seq<Message>>)
    returns (reply: string, ops: seq<Option<BoardOp>>)
    modifies board
    ensures FirstWith(old(board.timers), TimerId, timerId).None? ==>
      reply == "No timer found with ID " + IntToString(timerId) && ops == [] &&
      board.timers == old(board.timers) && board.saves == old(board.saves)
    ensures FirstWith(old(board.timers), TimerId, timerId).Some? ==>
      var i := FirstWith(old(board.timers), TimerId, timerId).value;
      board.timers == old(board.timers)[..i] + old(board.timers)[i + 1..] &&
      reply == RemovedReply(old(board.timers)[i]) && board.saves == old(board.saves) + 1 &&
      ops == [ChannelOp(channel, BoardText(now, board.timers))]
    ensures board.nextId == old(board.nextId)
  {
    var removed := board.RemoveTimer(timerId);
    if removed.Some? {
      reply := RemovedReply(removed.value);
      ops := board.UpdateTimerboard(now, [channel]);
      OneChannel(channel, BoardText(now, board.timers));
    } else {
      reply := "No timer found with ID " + IntToString(timerId);
      ops := [];
    }
  }
}
