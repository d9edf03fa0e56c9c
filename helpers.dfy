/** The shared helpers: the URL slug of a system name and the command-channel check. */
module Helpers {
  import opened Strings

  /** `filter(None, parts)`: drops the empty strings. */
  function NonEmpty(parts: seq<string>): (r: seq<string>)
    ensures |r| <= |parts|
  {
    if parts == [] then []
    else if parts[0] == "" then NonEmpty(parts[1..])
    else [parts[0]] + NonEmpty(parts[1..])
  }

  /** `clean_system_name`: `»` and `«` become `-`, then the whitespace-separated tokens are
      joined with single dashes. */
  function CleanSystemName(system: string): string {
    var replaced := ReplaceChar(ReplaceChar(system, '»', '-'), '«', '-');
    Join("-", NonEmpty(SplitWs(replaced)))
  }

  lemma {:induction false} NonEmptyOfTokens(parts: seq<string>)
    requires forall i :: 0 <= i < |parts| ==> IsToken(parts[i])
    ensures NonEmpty(parts) == parts
  {
    if parts != [] {
      NonEmptyOfTokens(parts[1..]);
    }
  }

  /** The slug is the input's tokens after the replacement, joined by `-`. */
  lemma CleanSystemNameTokens(system: string)
    ensures CleanSystemName(system) ==
      Join("-", SplitWs(ReplaceChar(ReplaceChar(system, '»', '-'), '«', '-')))
  {
    var parts := SplitWs(ReplaceChar(ReplaceChar(system, '»', '-'), '«', '-'));
    SplitWsTokens(ReplaceChar(ReplaceChar(system, '»', '-'), '«', '-'));
    NonEmptyOfTokens(parts);
  }

  /** No whitespace and no angle quote survives in the slug. */
  lemma {:induction false} CleanSystemNameChars(system: string)
    ensures forall i :: 0 <= i < |CleanSystemName(system)| ==> !IsSpace(CleanSystemName(system)[i])
    ensures '»' !in CleanSystemName(system) && '«' !in CleanSystemName(system)
  {
    var replaced := ReplaceChar(ReplaceChar(system, '»', '-'), '«', '-');
    var parts := SplitWs(replaced);
    CleanSystemNameTokens(system);
    SplitWsTokens(replaced);
    TokensJoinNoSpace(parts);
    SplitWsChars(replaced, '»');
    SplitWsChars(replaced, '«');
    JoinChars("-", parts, '»');
    JoinChars("-", parts, '«');
  }

  /** Tokens joined by `-` hold no whitespace. */
  lemma TokensJoinNoSpace(parts: seq<string>)
    requires forall k :: 0 <= k < |parts| ==> IsToken(parts[k])
    ensures forall i :: 0 <= i < |Join("-", parts)| ==> !IsSpace(Join("-", parts)[i])
  {
    var r := Join("-", parts);
    forall i | 0 <= i < |r| ensures !IsSpace(r[i]) {
      var c := r[i];
      if IsSpace(c) {
        TokensLack(parts, c);
        JoinChars("-", parts, c);
      }
    }
  }

  lemma TokensLack(parts: seq<string>, c: char)
    requires forall k :: 0 <= k < |parts| ==> IsToken(parts[k])
    requires IsSpace(c)
    ensures forall k :: 0 <= k < |parts| ==> c !in parts[k]
  {
    forall k | 0 <= k < |parts| ensures c !in parts[k] {
      assert IsToken(parts[k]);
    }
  }

  /** Cleaning a slug again changes nothing. */
  lemma CleanSystemNameIdempotent(system: string)
    ensures CleanSystemName(CleanSystemName(system)) == CleanSystemName(system)
  {
    var r := CleanSystemName(system);
    CleanSystemNameChars(system);
    assert ReplaceChar(ReplaceChar(r, '»', '-'), '«', '-') == r;
    SplitWsOfToken(r);
    CleanSystemNameTokens(r);
  }

  /** A blank name gives the empty slug. */
  lemma CleanSystemNameBlank(system: string)
    requires forall i :: 0 <= i < |system| ==> IsSpace(system[i])
    ensures CleanSystemName(system) == ""
  {
    var replaced := ReplaceChar(ReplaceChar(system, '»', '-'), '«', '-');
    assert replaced == system;
    SplitWsAllSpace(system);
  }

  /** The part of a server's configuration the check reads. */
  datatype ServerConfig = ServerConfig(commands: int)

  /** `cmd_channel_check`: whether the channel is the commands channel of some configured
      server, scanning the configurations in order. */
  method CmdChannelCheck(servers: seq<ServerConfig>, channelId: int) returns (ok: bool)
    ensures ok <==> exists i :: 0 <= i < |servers| && servers[i].commands == channelId
  {
    var i := 0;
    while i < |servers|
      invariant 0 <= i <= |servers|
      invariant forall k :: 0 <= k < i ==> servers[k].commands != channelId
    {
      if channelId == servers[i].commands {
        return true;
      }
      i := i + 1;
    }
    return false;
  }
}
