/** Approval of the CONNECT request line (src-tauri/src/browser_proxy.rs, lines 145-163 and 257-263).
    The header is UTF-8, and everything compared here is ASCII, so the model works on its bytes. */
module ConnectRequest {
  import opened Basics

  /** The bytes of ASCII text. */
  function Ascii(s: string): (r: seq<byte>)
    ensures |r| == |s|
  {
    seq(|s|, i requires 0 <= i < |s| => (s[i] as int % 256) as byte)
  }

  const LF: byte := 10
  const CR: byte := 13

  const CONNECT: seq<byte> := [67, 79, 78, 78, 69, 67, 84]
  const HTTP_1_0: seq<byte> := [72, 84, 84, 80, 47, 49, 46, 48]
  const HTTP_1_1: seq<byte> := [72, 84, 84, 80, 47, 49, 46, 49]

  /** An approved destination; the port in decimal. */
  datatype Destination = Destination(host: seq<byte>, port: seq<byte>)

  function LowerByte(b: byte): byte { if 65 <= b <= 90 then b + 32 else b }

  /** `to_ascii_lowercase`. */
  function LowerBytes(s: seq<byte>): (r: seq<byte>)
    ensures |r| == |s|
  {
    seq(|s|, i requires 0 <= i < |s| => LowerByte(s[i]))
  }

  /** `expected_connect_authority`: an IPv6 host is put in brackets. */
  function Authority(d: Destination): seq<byte> {
    var host := if 58 in d.host then [91] + d.host + [93] else d.host;
    LowerBytes(host + [58] + d.port)
  }

  /** Lowering bytes is lowering the text. */
  lemma LowerIsAsciiLower(s: string)
    requires forall i :: 0 <= i < |s| ==> s[i] as int < 128
    ensures LowerBytes(Ascii(s)) == Ascii(AsciiLower(s))
  {
  }

  /** The authority of a destination: host, ':' and port, in small letters, with brackets around a host
      that has a ':' in it. */
  lemma AuthorityIs(host: string, port: string)
    requires forall i :: 0 <= i < |host| ==> host[i] as int < 128
    requires forall i :: 0 <= i < |port| ==> port[i] as int < 128
    ensures var d := Destination(Ascii(host), Ascii(port));
      && (':' in host ==> Authority(d) == Ascii(AsciiLower("[" + host + "]:" + port)))
      && (':' !in host ==> Authority(d) == Ascii(AsciiLower(host + ":" + port)))
  {
    var d := Destination(Ascii(host), Ascii(port));
    assert 58 in d.host <==> ':' in host by {
      if ':' in host {
        var i :| 0 <= i < |host| && host[i] == ':';
        assert d.host[i] == 58;
      }
      if 58 in d.host {
        var i :| 0 <= i < |d.host| && d.host[i] == 58;
        assert host[i] == ':';
      }
    }
    var plain, bracketed := host + ":" + port, "[" + host + "]:" + port;
    LowerIsAsciiLower(plain);
    LowerIsAsciiLower(bracketed);
    assert Ascii(plain) == d.host + [58] + d.port;
    assert Ascii(bracketed) == [91] + d.host + [93] + [58] + d.port;
  }

  /** Where the first line feed at or after `i` stands, or the end. */
  function LineFeed(s: seq<byte>, i: nat): (r: nat)
    requires i <= |s|
    ensures i <= r <= |s| && (r < |s| ==> s[r] == LF) && forall j :: i <= j < r ==> s[j] != LF
    decreases |s| - i
  {
    if i == |s| || s[i] == LF then i else LineFeed(s, i + 1)
  }

  /** `lines().next()`: a line ending is LF or CR LF; a CR at the end of the text stays. */
  function FirstLine(s: seq<byte>): Option<seq<byte>> {
    var n := LineFeed(s, 0);
    if s == [] then None
    else if 0 < n < |s| && s[n - 1] == CR then Some(s[..n - 1])
    else Some(s[..n])
  }

  /** `u8::is_ascii_whitespace`. */
  predicate IsBlank(b: byte) { b == 9 || b == 10 || b == 12 || b == 13 || b == 32 }

  predicate IsWord(w: seq<byte>) { w != [] && forall i :: 0 <= i < |w| ==> !IsBlank(w[i]) }

  /** The words of `s[i..]` when `current` is the unfinished word before it. */
  function WordsFrom(s: seq<byte>, i: nat, current: seq<byte>): seq<seq<byte>>
    requires i <= |s|
    decreases |s| - i
  {
    var done := if current == [] then [] else [current];
    if i == |s| then done
    else if IsBlank(s[i]) then done + WordsFrom(s, i + 1, [])
    else WordsFrom(s, i + 1, current + [s[i]])
  }

  /** `split_ascii_whitespace`. */
  function Words(s: seq<byte>): seq<seq<byte>> { WordsFrom(s, 0, []) }

  /** The destination that the request line asks for, if it is an approved one. */
  predicate Approved(header: seq<byte>, destinations: seq<Destination>) {
    && FirstLine(header).Some?
    && var words := Words(FirstLine(header).value);
    && |words| == 3
    && words[0] == CONNECT
    && (words[2] == HTTP_1_1 || words[2] == HTTP_1_0)
    && Listed(words[1], destinations)
  }

  predicate Listed(authority: seq<byte>, destinations: seq<Destination>) {
    exists i :: 0 <= i < |destinations| && Authority(destinations[i]) == LowerBytes(authority)
  }

  /** `iter().find(…)`: the first destination whose authority is the one named. */
  function FirstListed(authority: seq<byte>, destinations: seq<Destination>, i: nat): (r: Option<nat>)
    requires i <= |destinations|
    ensures r.Some? ==> i <= r.value < |destinations| && Authority(destinations[r.value]) == LowerBytes(authority)
    ensures r.None? ==> forall j :: i <= j < |destinations| ==> Authority(destinations[j]) != LowerBytes(authority)
    decreases |destinations| - i
  {
    if i == |destinations| then None
    else if Authority(destinations[i]) == LowerBytes(authority) then Some(i)
    else FirstListed(authority, destinations, i + 1)
  }

  lemma FindsListed(authority: seq<byte>, destinations: seq<Destination>)
    ensures FirstListed(authority, destinations, 0).Some? <==> Listed(authority, destinations)
  {
    hide Authority, LowerBytes;
  }

  // ---------------------------------------------------------------------------------------
  // Splitting undoes joining
  // ---------------------------------------------------------------------------------------

  /** Words with one separating byte between them. */
  function Joined(words: seq<seq<byte>>, separator: byte): seq<byte>
    requires words != []
  {
    if |words| == 1 then words[0] else words[0] + [separator] + Joined(words[1..], separator)
  }

  /** Characters that are not blank extend the current word. */
  lemma {:induction false} WordGrows(s: seq<byte>, i: nat, j: nat, current: seq<byte>)
    requires i <= j <= |s| && forall k :: i <= k < j ==> !IsBlank(s[k])
    ensures WordsFrom(s, i, current) == WordsFrom(s, j, current + s[i..j])
    decreases j - i
  {
    if i < j {
      WordGrows(s, i + 1, j, current + [s[i]]);
      assert current + [s[i]] + s[i + 1..j] == current + s[i..j];
    } else {
      assert current + s[i..j] == current;
    }
  }

  /** What came before does not matter, the unfinished word aside. */
  lemma {:induction false} WordsShift(a: seq<byte>, b: seq<byte>, i: nat, current: seq<byte>)
    requires i <= |b|
    ensures WordsFrom(a + b, |a| + i, current) == WordsFrom(b, i, current)
    decreases |b| - i
  {
    if i < |b| {
      assert (a + b)[|a| + i] == b[i];
      WordsShift(a, b, i + 1, if IsBlank(b[i]) then [] else current + [b[i]]);
    }
  }

  /** Round trip: splitting words joined by any blank gives the words back. */
  lemma {:induction false} SplitOfJoined(words: seq<seq<byte>>, separator: byte)
    requires words != [] && IsBlank(separator) && forall k :: 0 <= k < |words| ==> IsWord(words[k])
    ensures Words(Joined(words, separator)) == words
  {
    var s, w := Joined(words, separator), words[0];
    assert s[..|w|] == w;
    forall k | 0 <= k < |w| ensures !IsBlank(s[k]) { assert s[k] == w[k]; }
    WordGrows(s, 0, |w|, []);
    assert [] + s[0..|w|] == w;
    if |words| > 1 {
      var rest := Joined(words[1..], separator);
      SplitOfJoined(words[1..], separator);
      assert s == (w + [separator]) + rest && s[|w|] == separator;
      WordsShift(w + [separator], rest, 0, []);
      assert words == [w] + words[1..];
    }
  }

  /** No word that splitting yields is empty or has a blank in it, for any text. */
  lemma {:induction false} WordsAreWords(s: seq<byte>, i: nat, current: seq<byte>)
    requires i <= |s| && (current == [] || IsWord(current))
    ensures forall k :: 0 <= k < |WordsFrom(s, i, current)| ==> IsWord(WordsFrom(s, i, current)[k])
    decreases |s| - i
  {
    if i < |s| {
      if IsBlank(s[i]) { WordsAreWords(s, i + 1, []); } else { WordsAreWords(s, i + 1, current + [s[i]]); }
    }
  }

  lemma {:induction false} NoLineFeedInside(words: seq<seq<byte>>, separator: byte)
    requires words != [] && separator != LF && forall k :: 0 <= k < |words| ==> IsWord(words[k])
    ensures Joined(words, separator) != [] && LF !in Joined(words, separator)
  {
    if |words| > 1 { NoLineFeedInside(words[1..], separator); }
  }

  /** The first line of a text is what stands before its first CR LF. */
  lemma FirstLineIs(line: seq<byte>, rest: seq<byte>)
    requires line != [] && LF !in line && (rest == [] || [CR, LF] <= rest)
    ensures FirstLine(line + rest) == Some(line)
  {
    var s := line + rest;
    var n := LineFeed(s, 0);
    if rest == [] {
      assert s == line;
      assert n == |s|;
    } else {
      assert s[|line| + 1] == LF && s[|line|] == CR;
      assert forall j :: 0 <= j < |line| + 1 ==> s[j] != LF;
      assert n == |line| + 1;
      assert s[..n - 1] == line;
    }
  }

  /** A well-formed CONNECT request is approved exactly when the authority it names, ASCII case aside, is
      that of an approved destination, whatever header lines follow; its words may be separated by a
      space, a tab or a form feed. */
  lemma RequestApprovedIff(authority: seq<byte>, version: string, separator: byte, rest: seq<byte>,
                           destinations: seq<Destination>)
    requires authority != [] && forall i :: 0 <= i < |authority| ==> authority[i] !in {9, 10, 12, 13, 32}
    requires version == "HTTP/1.1" || version == "HTTP/1.0"
    requires separator == 32 || separator == 9 || separator == 12
    requires rest == [] || [CR, LF] <= rest
    ensures Approved(Joined([Ascii("CONNECT"), authority, Ascii(version)], separator) + rest, destinations) <==>
            Listed(authority, destinations)
  {
    hide Listed, WordsFrom, LineFeed, Joined, Ascii;
    ConstantsAre();
    assert IsWord(authority);
    var words := [CONNECT, authority, Ascii(version)];
    assert forall k :: 0 <= k < |words| ==> IsWord(words[k]);
    SplitOfJoined(words, separator);
    NoLineFeedInside(words, separator);
    FirstLineIs(Joined(words, separator), rest);
  }

  lemma ConstantsAre()
    ensures Ascii("CONNECT") == CONNECT && IsWord(CONNECT)
    ensures Ascii("HTTP/1.1") == HTTP_1_1 && IsWord(HTTP_1_1)
    ensures Ascii("HTTP/1.0") == HTTP_1_0 && IsWord(HTTP_1_0)
  {
  }

  /** Conversely, whatever is approved asks for an approved destination: its first line holds exactly
      three words, of which the second is a well-formed authority of one of them. */
  lemma ApprovedNamesDestination(header: seq<byte>, destinations: seq<Destination>)
    returns (authority: seq<byte>, i: nat)
    requires Approved(header, destinations)
    ensures IsWord(authority) && i < |destinations| && Authority(destinations[i]) == LowerBytes(authority)
    ensures Words(FirstLine(header).value)[..2] == [CONNECT, authority]
  {
    hide WordsFrom, LineFeed, Authority;
    var line := FirstLine(header).value;
    WordsAreWords(line, 0, []);
    authority := Words(line)[1];
    i :| 0 <= i < |destinations| && Authority(destinations[i]) == LowerBytes(authority);
  }
}
