/** The parts of Python's `str` that the bot relies on, restricted to ASCII
    character classes (non-ASCII characters are never spaces, letters or digits here). */
module Strings {
  import opened Wrappers

  /** `str.isspace()` on ASCII: tab, newline, vertical tab, form feed, carriage return,
      the separators 0x1C to 0x1F, and space. It is also what `\s` matches in a `re` pattern. */
  predicate IsSpace(c: char) {
    9 <= c as int <= 13 || 28 <= c as int <= 32
  }

  /** `\d`, restricted to ASCII digits. */
  predicate IsDigit(c: char) { '0' <= c <= '9' }

  function DigitValue(c: char): int
    requires IsDigit(c)
  {
    c as int - '0' as int
  }

  function DigitChar(d: int): (c: char)
    requires 0 <= d <= 9
    ensures IsDigit(c) && DigitValue(c) == d
  {
    ('0' as int + d) as char
  }

  predicate IsLowerLetter(c: char) { 'a' <= c <= 'z' }

  predicate IsUpperLetter(c: char) { 'A' <= c <= 'Z' }

  function ToUpper(c: char): char {
    if IsLowerLetter(c) then (c as int - 32) as char else c
  }

  function ToLower(c: char): char {
    if IsUpperLetter(c) then (c as int + 32) as char else c
  }

  /** `str.upper()`: ASCII letters are mapped, everything else is kept. */
  function Upper(s: string): (r: string)
    ensures |r| == |s|
    ensures forall i :: 0 <= i < |s| ==> r[i] == ToUpper(s[i])
  {
    if s == [] then [] else [ToUpper(s[0])] + Upper(s[1..])
  }

  /** `str.lower()`: ASCII letters are mapped, everything else is kept. */
  function Lower(s: string): (r: string)
    ensures |r| == |s|
    ensures forall i :: 0 <= i < |s| ==> r[i] == ToLower(s[i])
  {
    if s == [] then [] else [ToLower(s[0])] + Lower(s[1..])
  }

  /** Upper-casing twice is upper-casing once. */
  lemma UpperIdempotent(s: string)
    ensures Upper(Upper(s)) == Upper(s)
  {
    var u := Upper(s);
    assert forall i :: 0 <= i < |s| ==> ToUpper(u[i]) == u[i];
  }

  /** An upper-cased string holds no lower-case ASCII letter. */
  lemma UpperHasNoLowerLetter(s: string)
    ensures forall i :: 0 <= i < |s| ==> !IsLowerLetter(Upper(s)[i])
  {
  }

  /** The character classes the bot's patterns and strip calls use. */
  datatype CharClass =
    | Space            // `\s`
    | NonSpace         // `[^\s]`
    | Digit            // `\d`
    | SystemChar       // `[A-Z0-9-]`
    | NonSpaceNonDash  // `[^\s-]`
    | OneOf(chars: set<char>)  // the argument of `str.strip(chars)`

  predicate In(c: char, k: CharClass) {
    match k
    case Space => IsSpace(c)
    case NonSpace => !IsSpace(c)
    case Digit => IsDigit(c)
    case SystemChar => IsUpperLetter(c) || IsDigit(c) || c == '-'
    case NonSpaceNonDash => !IsSpace(c) && c != '-'
    case OneOf(cs) => c in cs
  }

  /** The end of the run of characters of class `k` that starts at `i`. */
  function RunEnd(s: string, i: nat, k: CharClass): (j: nat)
    requires i <= |s|
    ensures i <= j <= |s|
    ensures forall m :: i <= m < j ==> In(s[m], k)
    ensures j < |s| ==> !In(s[j], k)
    decreases |s| - i
  {
    if i < |s| && In(s[i], k) then RunEnd(s, i + 1, k) else i
  }

  /** `s.lstrip(chars)` for the characters of class `k`. */
  function LStrip(s: string, k: CharClass): (r: string)
    ensures |r| <= |s| && r == s[|s| - |r|..]
    ensures r != [] ==> !In(r[0], k)
  {
    if s != [] && In(s[0], k) then LStrip(s[1..], k) else s
  }

  /** `s.rstrip(chars)` for the characters of class `k`. */
  function RStrip(s: string, k: CharClass): (r: string)
    ensures |r| <= |s| && r == s[..|r|]
    ensures r != [] ==> !In(r[|r| - 1], k)
  {
    if s != [] && In(s[|s| - 1], k) then RStrip(s[..|s| - 1], k) else s
  }

  /** `s.strip(chars)` for the characters of class `k`. */
  function StripClass(s: string, k: CharClass): string {
    RStrip(LStrip(s, k), k)
  }

  /** `s.strip()`. */
  function Strip(s: string): string {
    StripClass(s, Space)
  }

  /** `s.strip(chars)` for an explicit set of characters. */
  function StripChars(s: string, chars: set<char>): string {
    StripClass(s, OneOf(chars))
  }

  /** Stripping keeps only characters of the original and leaves no space at either end. */
  lemma StripShape(s: string)
    ensures var r := Strip(s);
      |r| <= |s| &&
      (r != [] ==> !IsSpace(r[0]) && !IsSpace(r[|r| - 1])) &&
      forall c :: c in r ==> c in s
  {
    var l := LStrip(s, Space);
    var r := RStrip(l, Space);
    assert forall c :: c in r ==> c in l;
    assert forall c :: c in l ==> c in s;
  }

  /** Stripping the class `k` from a text framed by characters outside `k`, after a prefix
      made only of `k`, leaves exactly the text. */
  lemma StripClassFramed(pre: string, text: string, k: CharClass)
    requires forall i :: 0 <= i < |pre| ==> In(pre[i], k)
    requires text != [] && !In(text[0], k) && !In(text[|text| - 1], k)
    ensures StripClass(pre + text, k) == text
  {
    LStripPrefix(pre, text, k);
  }

  lemma {:induction false} LStripPrefix(pre: string, text: string, k: CharClass)
    requires forall i :: 0 <= i < |pre| ==> In(pre[i], k)
    requires text != [] && !In(text[0], k)
    ensures LStrip(pre + text, k) == text
  {
    if pre == [] {
      assert pre + text == text;
    } else {
      assert (pre + text)[1..] == pre[1..] + text;
      LStripPrefix(pre[1..], text, k);
    }
  }

  /** Stripping also drops a suffix made only of `k` when what precedes it is framed. */
  lemma StripClassBetween(pre: string, text: string, post: string, k: CharClass)
    requires forall i :: 0 <= i < |pre| ==> In(pre[i], k)
    requires forall i :: 0 <= i < |post| ==> In(post[i], k)
    requires text != [] && !In(text[0], k) && !In(text[|text| - 1], k)
    ensures StripClass(pre + text + post, k) == text
  {
    assert pre + text + post == pre + (text + post);
    LStripPrefix(pre, text + post, k);
    RStripSuffix(text, post, k);
  }

  lemma {:induction false} RStripSuffix(text: string, post: string, k: CharClass)
    requires forall i :: 0 <= i < |post| ==> In(post[i], k)
    requires text != [] && !In(text[|text| - 1], k)
    ensures RStrip(text + post, k) == text
  {
    if post == [] {
      assert text + post == text;
    } else {
      var u := post[..|post| - 1];
      assert (text + post)[..|text + post| - 1] == text + u;
      RStripSuffix(text, u, k);
    }
  }

  /** Stripping a string without spaces changes nothing. */
  lemma StripNoSpace(s: string)
    requires forall k :: 0 <= k < |s| ==> !IsSpace(s[k])
    ensures Strip(s) == s
  {
    assert LStrip(s, Space) == s;
  }

  /** Stripping a string that is all spaces (or empty) gives the empty string. */
  lemma StripAllSpace(s: string)
    requires forall i :: 0 <= i < |s| ==> IsSpace(s[i])
    ensures Strip(s) == ""
  {
  }

  /** `s.replace(a, b)` for single characters. */
  function ReplaceChar(s: string, a: char, b: char): (r: string)
    ensures |r| == |s|
    ensures forall i :: 0 <= i < |s| ==> r[i] == (if s[i] == a then b else s[i])
  {
    if s == [] then [] else [if s[0] == a then b else s[0]] + ReplaceChar(s[1..], a, b)
  }

  /** `sep.join(parts)`. */
  function Join(sep: string, parts: seq<string>): string {
    if parts == [] then ""
    else if |parts| == 1 then parts[0]
    else parts[0] + sep + Join(sep, parts[1..])
  }

  /** A join contains only characters of the separator and of the parts. */
  lemma {:induction false} JoinChars(sep: string, parts: seq<string>, c: char)
    requires c !in sep
    requires forall i :: 0 <= i < |parts| ==> c !in parts[i]
    ensures c !in Join(sep, parts)
  {
    if |parts| > 1 {
      JoinChars(sep, parts[1..], c);
    }
  }

  /** A non-empty run of non-space characters. */
  predicate IsToken(w: string) {
    w != [] && forall k :: 0 <= k < |w| ==> !IsSpace(w[k])
  }

  /** `str.split()` with no argument: the maximal runs of non-space characters, in order. */
  function SplitWs(s: string): (r: seq<string>)

    decreases |s|
  {
    var t := LStrip(s, Space);
    if t == [] then []
    else
      var n := RunEnd(t, 0, NonSpace);
      assert In(t[0], NonSpace);
      [t[..n]] + SplitWs(t[n..])
  }

  /** One step of `str.split()`: the first token, then the split of what follows it. Both
      hold only characters of `s`. */
  lemma SplitWsStep(s: string) returns (w: string, rest: string)
    requires LStrip(s, Space) != []
    ensures IsToken(w) && |rest| < |s|
    ensures SplitWs(s) == [w] + SplitWs(rest)
    ensures forall c :: c in w ==> c in s
    ensures forall c :: c in rest ==> c in s
  {
    var t := LStrip(s, Space);
    var n := RunEnd(t, 0, NonSpace);
    assert In(t[0], NonSpace);
    w, rest := t[..n], t[n..];
    assert SplitWs(s) == [w] + SplitWs(rest);
    RunIsToken(t, n);
    LStripChars(s, Space);
    PiecesChars(t, n);
  }

  lemma RunIsToken(t: string, n: nat)
    requires 1 <= n <= |t| && forall m :: 0 <= m < n ==> In(t[m], NonSpace)
    ensures IsToken(t[..n])
  {
    forall m | 0 <= m < n ensures !IsSpace(t[..n][m]) {
      assert In(t[m], NonSpace);
    }
  }

  /** Stripping keeps only characters of the original. */
  lemma LStripChars(s: string, k: CharClass)
    ensures forall c :: c in LStrip(s, k) ==> c in s
  {
    var t := LStrip(s, k);
    assert t == s[|s| - |t|..];
    SuffixChars(s, |s| - |t|);
  }

  lemma RStripChars(s: string, k: CharClass)
    ensures forall c :: c in RStrip(s, k) ==> c in s
  {
    var t := RStrip(s, k);
    assert t == s[..|t|];
    PrefixChars(s, |t|);
  }

  lemma PrefixChars(s: string, i: nat)
    requires i <= |s|
    ensures forall c :: c in s[..i] ==> c in s
  {
    assert s == s[..i] + s[i..];
  }

  lemma SuffixChars(s: string, i: nat)
    requires i <= |s|
    ensures forall c :: c in s[i..] ==> c in s
  {
    assert s == s[..i] + s[i..];
  }

  lemma PiecesChars(t: string, n: nat)
    requires n <= |t|
    ensures forall c :: c in t[..n] ==> c in t
    ensures forall c :: c in t[n..] ==> c in t
  {
    assert t == t[..n] + t[n..];
  }

  /** Every piece of `str.split()` is a non-empty run of non-space characters. */
  lemma {:induction false} SplitWsTokens(s: string)
    ensures forall i :: 0 <= i < |SplitWs(s)| ==> IsToken(SplitWs(s)[i])
    decreases |s|
  {
    if LStrip(s, Space) != [] {
      var w, rest := SplitWsStep(s);
      SplitWsTokens(rest);
      var parts := SplitWs(rest);
      forall i | 0 <= i < |SplitWs(s)| ensures IsToken(SplitWs(s)[i]) {
        if i > 0 {
          assert SplitWs(s)[i] == parts[i - 1];
        }
      }
    }
  }

  /** The tokens of a string hold only characters of that string. */
  lemma {:induction false} SplitWsChars(s: string, c: char)
    requires c !in s
    ensures forall k :: 0 <= k < |SplitWs(s)| ==> c !in SplitWs(s)[k]
    decreases |s|
  {
    if LStrip(s, Space) != [] {
      var w, rest := SplitWsStep(s);
      SplitWsChars(rest, c);
      var parts := SplitWs(rest);
      forall k | 0 <= k < |SplitWs(s)| ensures c !in SplitWs(s)[k] {
        if k > 0 {
          assert SplitWs(s)[k] == parts[k - 1];
        }
      }
    }
  }

  /** A non-empty string without spaces splits into itself; an empty one into nothing. */
  lemma {:induction false} SplitWsOfToken(s: string)
    requires forall k :: 0 <= k < |s| ==> !IsSpace(s[k])
    ensures SplitWs(s) == if s == [] then [] else [s]
  {
    if s != [] {
      var t := LStrip(s, Space);
      assert t == s by { assert !In(s[0], Space); }
      RunEndAll(s, 0);
      var n := RunEnd(t, 0, NonSpace);
      assert n == |s|;
      assert s[..n] == s;
      assert SplitWs(s) == [s] + SplitWs(s[n..]);

    }
  }

  lemma {:induction false} RunEndAll(s: string, i: nat)
    requires i <= |s|
    requires forall k :: 0 <= k < |s| ==> !IsSpace(s[k])
    ensures RunEnd(s, i, NonSpace) == |s|
    decreases |s| - i
  {
    if i < |s| {
      assert In(s[i], NonSpace);
      RunEndAll(s, i + 1);
    }
  }

  /** A run that stops at `j` ends at `j`. */
  lemma {:induction false} RunEndIs(s: string, i: nat, j: nat, k: CharClass)
    requires i <= j <= |s|
    requires forall m :: i <= m < j ==> In(s[m], k)
    requires j == |s| || !In(s[j], k)
    ensures RunEnd(s, i, k) == j
    decreases j - i
  {
    if i < j {
      RunEndIs(s, i + 1, j, k);
    }
  }

  /** Splitting a string that is all spaces (or empty) gives no token. */
  lemma SplitWsAllSpace(s: string)
    requires forall i :: 0 <= i < |s| ==> IsSpace(s[i])
    ensures SplitWs(s) == []
  {
  }

  /** Number of occurrences of `c` in `s`. */
  function Count(s: string, c: char): nat {
    if s == [] then 0 else (if s[0] == c then 1 else 0) + Count(s[1..], c)
  }

  /** `s.split(c)`: the pieces between occurrences of `c`, empty pieces included. */
  function SplitOn(s: string, c: char): (r: seq<string>)
    ensures |r| >= 1
    ensures forall i :: 0 <= i < |r| ==> c !in r[i]
  {
    if s == [] then [""]
    else
      var rest := SplitOn(s[1..], c);
      if s[0] == c then [""] + rest else [[s[0]] + rest[0]] + rest[1..]
  }

  /** Splitting on `c` gives one more piece than there are occurrences of `c`. */
  lemma {:induction false} SplitOnCount(s: string, c: char)
    ensures |SplitOn(s, c)| == Count(s, c) + 1
  {
    if s != [] {
      SplitOnCount(s[1..], c);
    }
  }

  /** Joining the pieces back with `c` restores the text. */
  lemma {:induction false} JoinSplitOn(s: string, c: char)
    ensures Join([c], SplitOn(s, c)) == s
  {
    if s != [] {
      var rest := SplitOn(s[1..], c);
      JoinSplitOn(s[1..], c);
      if s[0] == c {
        assert SplitOn(s, c) == [""] + rest;
        assert Join([c], [""] + rest) == "" + [c] + Join([c], rest);
      } else {
        var r := [[s[0]] + rest[0]] + rest[1..];
        assert SplitOn(s, c) == r;
        if |rest| == 1 {
          assert Join([c], r) == [s[0]] + rest[0];
        } else {
          assert Join([c], rest) == rest[0] + [c] + Join([c], rest[1..]);
          assert r[1..] == rest[1..];
          assert Join([c], r) == [s[0]] + rest[0] + [c] + Join([c], rest[1..]);
        }
      }
    }
  }

  /** Pieces that do not contain `c`, joined with `c`, split back into themselves. */
  lemma {:induction false} SplitOnJoin(parts: seq<string>, c: char)
    requires |parts| >= 1
    requires forall i :: 0 <= i < |parts| ==> c !in parts[i]
    ensures SplitOn(Join([c], parts), c) == parts
  {
    if |parts| == 1 {
      SplitOnNoSep(parts[0], c);
    } else {
      SplitOnJoin(parts[1..], c);
      SplitOnPrefix(parts[0], Join([c], parts[1..]), c);
      assert Join([c], parts) == parts[0] + ([c] + Join([c], parts[1..]));
    }
  }

  /** A string without `c` is a single piece. */
  lemma {:induction false} SplitOnNoSep(s: string, c: char)
    requires c !in s
    ensures SplitOn(s, c) == [s]
  {
    if s != [] {
      SplitOnNoSep(s[1..], c);
      assert [s[0]] + s[1..] == s;
    }
  }

  /** A piece without `c` followed by `c` becomes the first piece. */
  lemma {:induction false} SplitOnPrefix(a: string, b: string, c: char)
    requires c !in a
    ensures SplitOn(a + ([c] + b), c) == [a] + SplitOn(b, c)
  {
    if a == [] {
      assert a + ([c] + b) == [c] + b;
      assert ([c] + b)[1..] == b;
    } else {
      SplitOnPrefix(a[1..], b, c);
      assert (a + ([c] + b))[1..] == a[1..] + ([c] + b);
      assert [a[0]] + a[1..] == a;
    }
  }

  /** The position of the first `c` in `s`. */
  function IndexOf(s: string, c: char): (r: Option<nat>)
    ensures r.None? <==> c !in s
    ensures r.Some? ==> r.value < |s| && s[r.value] == c && c !in s[..r.value]
  {
    if s == [] then None
    else if s[0] == c then Some(0)
    else match IndexOf(s[1..], c)
      case None => None
      case Some(i) =>
        assert s[..i + 1] == [s[0]] + s[1..][..i];
        Some(i + 1)
  }

  /** `s.split(c, 1)` when it yields two parts: the text before the first `c` and the text after it. */
  function SplitOnce(s: string, c: char): (r: Option<(string, string)>)
    ensures r.None? <==> c !in s
    ensures r.Some? ==> c !in r.value.0 && s == r.value.0 + [c] + r.value.1
  {
    match IndexOf(s, c)
    case None => None
    case Some(i) =>
      assert s == s[..i] + [c] + s[i + 1..];
      Some((s[..i], s[i + 1..]))
  }

  /** `sub in s`. */
  predicate Contains(s: string, sub: string) {
    exists i :: 0 <= i <= |s| - |sub| && sub <= s[i..]
  }

  /** `str(n)` for an integer. */
  function IntToString(n: int): (r: string)
    ensures r != []
  {
    if n < 0 then "-" + NatToString(-n) else NatToString(n)
  }

  function NatToString(n: nat): (r: string)
    ensures r != [] && forall i :: 0 <= i < |r| ==> IsDigit(r[i])
  {
    if n < 10 then [DigitChar(n)] else NatToString(n / 10) + [DigitChar(n % 10)]
  }
}
