/** How the two ends of the signalling connection cut a TCP byte stream into lines. */
module Framing {

  // ---------------------------------------------------------------- lines of a stream

  /** The position of the first `c`, or the length when there is none. */
  function FirstOf(s: string, c: char): (i: nat)
    ensures i <= |s| && (i < |s| ==> s[i] == c)
    ensures forall k :: 0 <= k < i ==> s[k] != c
  {
    if s == [] || s[0] == c then 0 else 1 + FirstOf(s[1..], c)
  }

  lemma FirstOfIs(s: string, c: char, i: nat)
    requires i <= |s| && (i < |s| ==> s[i] == c)
    requires forall k :: 0 <= k < i ==> s[k] != c
    ensures FirstOf(s, c) == i
  {
  }

  /** What stands behind the last newline. */
  function Rest(s: string): string {
    if s == [] || s[|s| - 1] == '\n' then [] else Rest(s[..|s| - 1]) + [s[|s| - 1]]
  }

  /** The complete lines, without their newlines. */
  function Lines(s: string): seq<string> {
    if s == [] then []
    else if s[|s| - 1] == '\n' then Lines(s[..|s| - 1]) + [Rest(s[..|s| - 1])]
    else Lines(s[..|s| - 1])
  }

  lemma {:induction false} NoLine(s: string)
    requires '\n' !in s
    ensures Lines(s) == [] && Rest(s) == s
  {
    if s != [] {
      NoLine(s[..|s| - 1]);
    }
  }

  lemma {:induction false} RestHasNoNewline(s: string)
    ensures '\n' !in Rest(s)
  {
    if s != [] && s[|s| - 1] != '\n' {
      RestHasNoNewline(s[..|s| - 1]);
    }
  }

  /** Cutting in two steps is cutting at once. */
  lemma {:induction false} LinesOfConcat(a: string, b: string)
    ensures Lines(a + b) == Lines(a) + Lines(Rest(a) + b)
    ensures Rest(a + b) == Rest(Rest(a) + b)
  {
    if b == [] {
      assert a + b == a && Rest(a) + b == Rest(a);
      RestHasNoNewline(a);
      NoLine(Rest(a));
    } else {
      var init := b[..|b| - 1];
      assert (a + b)[..|a + b| - 1] == a + init;
      assert (Rest(a) + b)[..|Rest(a) + b| - 1] == Rest(a) + init;
      LinesOfConcat(a, init);
    }
  }

  lemma FirstLine(line: string, more: string)
    requires '\n' !in line
    ensures Lines(line + "\n" + more) == [line] + Lines(more)
    ensures Rest(line + "\n" + more) == Rest(more)
  {
    var head := line + "\n";
    assert head[..|line|] == line;
    NoLine(line);
    LinesOfConcat(head, more);
    assert Rest(head) + more == more;
  }

  /** Lines and rest hold all there is: they give the stream back. */
  function Unlines(lines: seq<string>): string {
    if lines == [] then "" else Unlines(lines[..|lines| - 1]) + lines[|lines| - 1] + "\n"
  }

  lemma {:induction false} LinesLoseNothing(s: string)
    ensures Unlines(Lines(s)) + Rest(s) == s
  {
    if s != [] {
      var init, c := s[..|s| - 1], s[|s| - 1];
      LinesLoseNothing(init);
      assert s == init + [c];
      if c == '\n' {
        assert Lines(s)[..|Lines(init)|] == Lines(init);
      }
    }
  }

  function Concat(chunks: seq<string>): string {
    if chunks == [] then "" else Concat(chunks[..|chunks| - 1]) + chunks[|chunks| - 1]
  }

  // ---------------------------------------------------------------- the server's side

  /** A carriage return before the newline is dropped; lines then empty are skipped. */
  function Stripped(line: string): string {
    if line != [] && line[|line| - 1] == '\r' then line[..|line| - 1] else line
  }

  function Commands(lines: seq<string>): seq<string> {
    if lines == [] then []
    else Commands(lines[..|lines| - 1])
         + if Stripped(lines[|lines| - 1]) == [] then [] else [Stripped(lines[|lines| - 1])]
  }

  lemma {:induction false} CommandsOfConcat(a: seq<string>, b: seq<string>)
    ensures Commands(a + b) == Commands(a) + Commands(b)
  {
    if b == [] {
      assert a + b == a;
    } else {
      assert (a + b)[..|a + b| - 1] == a + b[..|b| - 1];
      CommandsOfConcat(a, b[..|b| - 1]);
    }
  }

  lemma CommandsOneMore(lines: seq<string>, line: string)
    ensures Commands(lines + [line]) == Commands(lines) + if Stripped(line) == [] then [] else [Stripped(line)]
  {
  }

  /** The receive buffer of one connection. */
  class LineReader {
    var recvBuffer: string

    constructor ()
      ensures recvBuffer == ""
    {
      recvBuffer := "";
    }

    /** `find`, `substr`, `erase`: the first complete line, if there is one. */
    method NextLine() returns (found: bool, line: string)
      modifies this
      ensures found <==> FirstOf(old(recvBuffer), '\n') < |old(recvBuffer)|
      ensures found ==> Lines(old(recvBuffer)) == [line] + Lines(recvBuffer)
      ensures found ==> Rest(old(recvBuffer)) == Rest(recvBuffer)
      ensures found ==> |recvBuffer| < |old(recvBuffer)|
      ensures !found ==> recvBuffer == old(recvBuffer) && Lines(recvBuffer) == [] && Rest(recvBuffer) == recvBuffer
    {
      var i := FirstOf(recvBuffer, '\n');
      if i == |recvBuffer| {
        NoLine(recvBuffer);
        return false, "";
      }
      line := recvBuffer[..i];
      FirstLine(line, recvBuffer[i + 1..]);
      assert recvBuffer == line + "\n" + recvBuffer[i + 1..];
      recvBuffer := recvBuffer[i + 1..];
      return true, line;
    }

    /** What the server hands on of one packet from the socket. */
    method ReceiveAtServer(chunk: string) returns (commands: seq<string>)
      modifies this
      ensures commands == Commands(Lines(old(recvBuffer) + chunk)) && recvBuffer == Rest(old(recvBuffer) + chunk)
    {
      recvBuffer := recvBuffer + chunk;
      commands := [];
      ghost var whole, lines := recvBuffer, [];
      var found, line := NextLine();
      while found
        invariant if found then Lines(whole) == lines + [line] + Lines(recvBuffer)
                  else Lines(whole) == lines && Lines(recvBuffer) == []
        invariant Rest(whole) == Rest(recvBuffer) && (!found ==> recvBuffer == Rest(recvBuffer))
        invariant commands == Commands(lines)
        decreases |recvBuffer|, found
      {
        var command := Stripped(line);
        if command != [] {
          commands := commands + [command];
        }
        CommandsOneMore(lines, line);
        lines := lines + [line];
        found, line := NextLine();
      }
    }

    /** What the client hands on of one packet: it appends the packet as a C string. */
    method ReceiveAtClient(chunk: string) returns (lines: seq<string>)
      modifies this
      ensures lines == Lines(old(recvBuffer) + CString(chunk)) && recvBuffer == Rest(old(recvBuffer) + CString(chunk))
    {
      recvBuffer := recvBuffer + CString(chunk);
      lines := [];
      ghost var whole := recvBuffer;
      var found, line := NextLine();
      while found
        invariant if found then Lines(whole) == lines + [line] + Lines(recvBuffer)
                  else Lines(whole) == lines && Lines(recvBuffer) == []
        invariant Rest(whole) == Rest(recvBuffer) && (!found ==> recvBuffer == Rest(recvBuffer))
        decreases |recvBuffer|, found
      {
        lines := lines + [line];
        found, line := NextLine();
      }
    }
  }

  /** The commands a connection yields, packet by packet, and what it has kept. */
  function ServerFeed(chunks: seq<string>): (seq<string>, string) {
    if chunks == [] then ([], "")
    else
      var (commands, buffer) := ServerFeed(chunks[..|chunks| - 1]);
      var whole := buffer + chunks[|chunks| - 1];
      (commands + Commands(Lines(whole)), Rest(whole))
  }

  /** However TCP cuts the stream, the server sees the same commands. */
  lemma {:induction false} ServerIgnoresFragmentation(chunks: seq<string>)
    ensures ServerFeed(chunks) == (Commands(Lines(Concat(chunks))), Rest(Concat(chunks)))
  {
    if chunks != [] {
      var init, last := chunks[..|chunks| - 1], chunks[|chunks| - 1];
      ServerIgnoresFragmentation(init);
      LinesOfConcat(Concat(init), last);
      CommandsOfConcat(Lines(Concat(init)), Lines(Rest(Concat(init)) + last));
    }
  }

  // ---------------------------------------------------------------- the client's side

  const NUL: char := '\0'

  /** What is left of a buffer that is read as a C string. */
  function CString(s: string): string {
    s[..FirstOf(s, NUL)]
  }

  function ClientFeed(chunks: seq<string>): (seq<string>, string) {
    if chunks == [] then ([], "")
    else
      var (lines, buffer) := ClientFeed(chunks[..|chunks| - 1]);
      var whole := buffer + CString(chunks[|chunks| - 1]);
      (lines + Lines(whole), Rest(whole))
  }

  /** The text that reaches the client's line buffer. */
  function ClientText(chunks: seq<string>): string {
    if chunks == [] then "" else ClientText(chunks[..|chunks| - 1]) + CString(chunks[|chunks| - 1])
  }

  lemma {:induction false} ClientSeesItsText(chunks: seq<string>)
    ensures ClientFeed(chunks) == (Lines(ClientText(chunks)), Rest(ClientText(chunks)))
  {
    if chunks != [] {
      ClientSeesItsText(chunks[..|chunks| - 1]);
      LinesOfConcat(ClientText(chunks[..|chunks| - 1]), CString(chunks[|chunks| - 1]));
    }
  }

  /** No NUL byte has anything but NUL bytes behind it. */
  predicate NulOnlyAtEnd(s: string) {
    forall k :: FirstOf(s, NUL) <= k < |s| ==> s[k] == NUL
  }

  lemma NulBefore(a: string, b: string)
    requires NulOnlyAtEnd(a + b) && FirstOf(a + b, NUL) < |a|
    ensures NulOnlyAtEnd(a) && CString(a) == CString(a + b) && CString(b) == ""
  {
    var s, i := a + b, FirstOf(a + b, NUL);
    assert forall k :: 0 <= k < |a| ==> a[k] == s[k];
    FirstOfIs(a, NUL, i);
    assert forall k :: 0 <= k < |b| ==> b[k] == s[|a| + k];
    FirstOfIs(b, NUL, 0);
  }

  lemma NulBehind(a: string, b: string)
    requires FirstOf(a + b, NUL) >= |a|
    ensures NulOnlyAtEnd(a) && CString(a) == a && CString(a + b) == a + CString(b)
  {
    var s, i := a + b, FirstOf(a + b, NUL);
    assert forall k :: 0 <= k < |a| ==> a[k] == s[k];
    FirstOfIs(a, NUL, |a|);
    assert forall k :: 0 <= k < |b| ==> b[k] == s[|a| + k];
    FirstOfIs(b, NUL, i - |a|);
  }

  lemma {:induction false} TextOfNulTail(chunks: seq<string>)
    requires NulOnlyAtEnd(Concat(chunks))
    ensures ClientText(chunks) == CString(Concat(chunks))
  {
    if chunks != [] {
      var init, last := chunks[..|chunks| - 1], chunks[|chunks| - 1];
      if FirstOf(Concat(chunks), NUL) < |Concat(init)| {
        NulBefore(Concat(init), last);
      } else {
        NulBehind(Concat(init), last);
      }
      TextOfNulTail(init);
    }
  }

  const MAX_RECEIVED: nat := 2047

  /** How `recv` can deliver the stream `s` to the client. */
  ghost predicate Received(s: string, chunks: seq<string>) {
    Concat(chunks) == s && forall i :: 0 <= i < |chunks| ==> 1 <= |chunks[i]| <= MAX_RECEIVED
  }

  /** The stream one character at a time. */
  function Singles(s: string): seq<string> {
    seq(|s|, i requires 0 <= i < |s| => [s[i]])
  }

  lemma {:induction false} SinglesReceived(s: string)
    ensures Received(s, Singles(s))
  {
    if s != [] {
      var init := s[..|s| - 1];
      SinglesReceived(init);
      assert Singles(s)[..|s| - 1] == Singles(init) && s == init + [s[|s| - 1]];
    }
  }

  lemma {:induction false} TwoParts(a: seq<string>, b: seq<string>)
    ensures Concat(a + b) == Concat(a) + Concat(b)
    ensures ClientText(a + b) == ClientText(a) + ClientText(b)
  {
    hide CString;
    if b == [] {
      assert a + b == a;
    } else {
      var init, last := b[..|b| - 1], b[|b| - 1];
      assert (a + b)[..|a + b| - 1] == a + init && (a + b)[|a + b| - 1] == last;
      TwoParts(a, init);
      assert Concat(a) + Concat(b) == Concat(a) + Concat(init) + last;
      assert ClientText(a) + ClientText(b) == ClientText(a) + ClientText(init) + CString(last);
    }
  }

  lemma OnePacket(s: string)
    requires 1 <= |s| <= MAX_RECEIVED
    ensures Received(s, [s]) && ClientText([s]) == CString(s)
  {
  }

  lemma ReceivedInTwo(s: string, t: string, a: seq<string>, b: seq<string>)
    requires Received(s, a) && Received(t, b)
    ensures Received(s + t, a + b) && ClientText(a + b) == ClientText(a) + ClientText(b)
  {
    TwoParts(a, b);
  }

  lemma TextBehindNul(s: string) returns (i: nat)
    requires !NulOnlyAtEnd(s)
    ensures i + 1 < |s| && s[i] == NUL && s[i + 1] != NUL
  {
    var k :| FirstOf(s, NUL) <= k < |s| && s[k] != NUL;
    i := k - 1;
    while s[i] != NUL
      invariant FirstOf(s, NUL) <= i < k && s[i + 1] != NUL
      decreases i
    {
      i := i - 1;
    }
  }

  lemma NulAndText(c: char)
    requires c != NUL
    ensures Received([NUL, c], [[NUL]] + [[c]]) && ClientText([[NUL]] + [[c]]) == [c]
    ensures Received([NUL, c], [[NUL, c]]) && ClientText([[NUL, c]]) == ""
  {
    hide Received, ClientText;
    FirstOfIs([NUL], NUL, 0);
    FirstOfIs([c], NUL, 1);
    FirstOfIs([NUL, c], NUL, 0);
    OnePacket([NUL]);
    OnePacket([c]);
    OnePacket([NUL, c]);
    ReceivedInTwo([NUL], [c], [[NUL]], [[c]]);
    assert [NUL] + [c] == [NUL, c];
  }

  /** Text right behind a NUL is seen if it comes in the next packet and lost if it comes in the same one. */
  lemma LostInOnePacket(s: string, i: nat) returns (seen: seq<string>, lost: seq<string>)
    requires i + 1 < |s| && s[i] == NUL && s[i + 1] != NUL
    ensures Received(s, seen) && Received(s, lost) && |ClientText(seen)| == |ClientText(lost)| + 1
  {
    hide Received, ClientText, Singles;
    var c, before, after := s[i + 1], Singles(s[..i]), Singles(s[i + 2..]);
    SinglesReceived(s[..i]);
    SinglesReceived(s[i + 2..]);
    NulAndText(c);
    ReceivedInTwo(s[..i], [NUL, c], before, [[NUL]] + [[c]]);
    ReceivedInTwo(s[..i], [NUL, c], before, [[NUL, c]]);
    ReceivedInTwo(s[..i] + [NUL, c], s[i + 2..], before + ([[NUL]] + [[c]]), after);
    ReceivedInTwo(s[..i] + [NUL, c], s[i + 2..], before + [[NUL, c]], after);
    seen, lost := before + ([[NUL]] + [[c]]) + after, before + [[NUL, c]] + after;
    assert s == s[..i] + [NUL, c] + s[i + 2..];
  }

  ghost predicate SameFor(s: string, xs: seq<string>, ys: seq<string>) {
    Received(s, xs) && Received(s, ys) ==> ClientFeed(xs) == ClientFeed(ys)
  }

  /** Every way to deliver a stream leaves the client with the same exactly if nothing but NUL follows a NUL. */
  lemma ClientIgnoresFragmentationIff(s: string)
    ensures (forall xs, ys :: SameFor(s, xs, ys)) <==> NulOnlyAtEnd(s)
  {
    if NulOnlyAtEnd(s) {
      forall xs, ys ensures SameFor(s, xs, ys) {
        if Received(s, xs) && Received(s, ys) {
          TextOfNulTail(xs);
          ClientSeesItsText(xs);
          TextOfNulTail(ys);
          ClientSeesItsText(ys);
        }
      }
    } else {
      var i := TextBehindNul(s);
      var seen, lost := LostInOnePacket(s, i);
      ClientSeesItsText(seen);
      ClientSeesItsText(lost);
      LinesLoseNothing(ClientText(seen));
      LinesLoseNothing(ClientText(lost));
      assert !SameFor(s, seen, lost);
    }
  }

  /** A stream without NUL bytes is read whole. */
  lemma ClientReadsWhole(chunks: seq<string>)
    requires NUL !in Concat(chunks)
    ensures ClientFeed(chunks) == (Lines(Concat(chunks)), Rest(Concat(chunks)))
  {
    var s := Concat(chunks);
    FirstOfIs(s, NUL, |s|);
    assert CString(s) == s;
    TextOfNulTail(chunks);
    ClientSeesItsText(chunks);
  }
}
