/** Building blocks shared by the hand-written matchers that mirror the bot's regular
    expressions (Python `re`, no flags: `.` stops at a newline, `$` matches at the very end
    or just before a final newline). */
module Patterns {
  import opened Wrappers
  import opened Strings
  import opened DateTimes

  /** `$` at position `q`. */
  predicate DollarAt(s: string, q: nat) {
    q == |s| || (q + 1 == |s| && s[q] == '\n')
  }

  /** The one place where `...\]$` can end: before a final newline, else at the end. */
  function DollarEnd(s: string): (e: nat)
    ensures e <= |s| && DollarAt(s, e)
  {
    if s != [] && s[|s| - 1] == '\n' then |s| - 1 else |s|
  }

  /** A lazy `.*?` from `e`: the first position, before any newline, where what follows
      (`stop`) matches. */
  function LazyUntil(s: string, e: nat, stop: nat -> bool): (r: Option<nat>)
    requires e <= |s|
    ensures r.Some? ==> e <= r.value <= |s| && stop(r.value) && NoNewline(s, e, r.value)
    decreases |s| - e
  {
    if stop(e) then Some(e)
    else if e < |s| && s[e] != '\n' then LazyUntil(s, e + 1, stop)
    else None
  }

  /** Lazy: no earlier position is one where what follows matches. */
  lemma {:induction false} LazyUntilFirst(s: string, e: nat, stop: nat -> bool)
    requires e <= |s| && LazyUntil(s, e, stop).Some?
    ensures forall k :: e <= k < LazyUntil(s, e, stop).value ==> !stop(k)
    decreases |s| - e
  {
    if !stop(e) {
      LazyUntilFirst(s, e + 1, stop);
    }
  }

  /** The lazy scan stops at the first position where what follows matches. */
  lemma {:induction false} LazyUntilAt(s: string, e: nat, stop: nat -> bool, m: nat)
    requires e <= m <= |s| && stop(m) && NoNewline(s, e, m)
    requires forall k :: e <= k < m ==> !stop(k)
    ensures LazyUntil(s, e, stop) == Some(m)
    decreases m - e
  {
    if e < m {
      LazyUntilAt(s, e + 1, stop, m);
    }
  }

  /** Where what follows never matches, the lazy scan fails. */
  lemma {:induction false} LazyUntilNever(s: string, e: nat, stop: nat -> bool)
    requires e <= |s| && forall k :: e <= k <= |s| ==> !stop(k)
    ensures LazyUntil(s, e, stop) == None
    decreases |s| - e
  {
    if e < |s| && s[e] != '\n' {
      LazyUntilNever(s, e + 1, stop);
    }
  }

  /** `s[a..b]` can be consumed by `.*`. */
  predicate NoNewline(s: string, a: nat, b: nat)
    requires a <= b <= |s|
  {
    forall k :: a <= k < b ==> s[k] != '\n'
  }

  /** `\s+\[.*\]$` matches from `q`: a run of whitespace, then a bracket that opens there and
      closes as the last character before `$`, with no newline inside. */
  predicate BracketTailAt(s: string, q: nat)
    requires q <= |s|
  {
    var j := RunEnd(s, q, Space);
    var e := DollarEnd(s);
    q < j && j + 1 < e && s[j] == '[' && s[e - 1] == ']' && NoNewline(s, j + 1, e - 1)
  }

  /** `text` occurs at position `i` of `s`. */
  predicate LiteralAt(s: string, i: nat, text: string) {
    i + |text| <= |s| && s[i..i + |text|] == text
  }

  /** `\d{4}\.\d{2}\.\d{2} \d{2}:\d{2}:\d{2}` at position `i`. */
  predicate DottedStampAt(s: string, i: nat) {
    i + 19 <= |s| && s[i + 4] == '.' && s[i + 7] == '.' && IsStamp(ReplaceChar(s[i..i + 19], '.', '-'))
  }

  /** A dotted stamp copied into a longer text is a dotted stamp there too. */
  lemma DottedStampCopied(s: string, i: nat, stamp: string)
    requires i + 19 <= |s| && s[i..i + 19] == stamp && DottedStampAt(stamp, 0)
    ensures DottedStampAt(s, i)
  {
    assert s[i + 4] == stamp[4] && s[i + 7] == stamp[7];
    assert stamp[0..19] == stamp;
  }

  const ReinforcedUntil: string := "Reinforced until "

  /** `Reinforced until (\d{4}\.\d{2}\.\d{2} \d{2}:\d{2}:\d{2})` at position `i`; the group is
      `s[i + 17..i + 36]`. */
  predicate ReinforcedAt(s: string, i: nat) {
    i + 36 <= |s| && LiteralAt(s, i, ReinforcedUntil) && DottedStampAt(s, i + 17)
  }
}
