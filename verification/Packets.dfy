/** The message scanner of pkg/dogstatsd/server.go: newline-terminated messages in a packet. */
module Packets {
  import opened Wrappers
  import opened Bytes

  function DropCR(data: string): string {
    if data != "" && data[|data| - 1] == '\r' then data[..|data| - 1] else data
  }

  /** How far a scan goes, what it found, and whether a newline ended it. */
  datatype Scan = Scan(advance: nat, token: Option<string>, eol: bool)

  function ScanLines(data: string, atEOF: bool): (r: Scan)
    ensures r.token.Some? ==> r.advance <= |data| && |r.token.value| <= |data|
    ensures r.token.Some? && data != "" ==> r.advance > 0
  {
    if atEOF && data == "" then Scan(0, None, false)
    else
      var i := Index(data, '\n');
      if i >= 0 then Scan(i + 1, Some(DropCR(data[..i])), true)
      else if atEOF then Scan(|data|, Some(DropCR(data)), false)
      else Scan(0, None, false)
  }

  // ----- the messages of a packet -----

  function Kept(line: string): seq<string> {
    if DropCR(line) == "" then [] else [DropCR(line)]
  }

  /** The lines without carriage returns, and of those the non-empty ones. */
  function KeptLines(lines: seq<string>): seq<string> {
    if lines == [] then [] else Kept(lines[0]) + KeptLines(lines[1..])
  }

  /** Without a newline the last line counts only when termination is not asked for. */
  function Complete(lines: seq<string>, eolTermination: bool): seq<string>
    requires lines != []
  {
    if eolTermination then lines[..|lines| - 1] else lines
  }

  function Messages(contents: string, eolTermination: bool): seq<string> {
    KeptLines(Complete(Split(contents, '\n'), eolTermination))
  }

  /** A packet whose contents are consumed message by message. */
  class Packet {
    var contents: string
    const origin: string

    constructor (contents: string, origin: string)
      ensures this.contents == contents && this.origin == origin
    {
      this.contents := contents;
      this.origin := origin;
    }

    /** The next line, possibly empty; with none the packet is left alone and holds no more messages. */
    method NextMessage(eolTermination: bool) returns (message: Option<string>)
      modifies this
      ensures message.None? ==> contents == old(contents) && Messages(contents, eolTermination) == []
      ensures message.Some? ==>
                && |contents| < |old(contents)| && |message.value| <= |old(contents)|
                && Messages(old(contents), eolTermination) ==
                   (if message.value == "" then [] else [message.value]) + Messages(contents, eolTermination)
    {
      FirstLine(contents, eolTermination);
      if contents == "" {
        return None;
      }
      var scan := ScanLines(contents, true);
      if eolTermination && !scan.eol {
        return None;
      }
      contents := contents[scan.advance..];
      message := scan.token;
    }
  }

  lemma FirstLine(contents: string, eolTermination: bool)
    ensures contents == "" ==> Messages(contents, eolTermination) == []
    ensures contents != "" ==>
              var scan := ScanLines(contents, true);
              scan.token.Some? &&
              Messages(contents, eolTermination) ==
              if eolTermination && !scan.eol then []
              else (if scan.token.value == "" then [] else [scan.token.value]) +
                   Messages(contents[scan.advance..], eolTermination)
  {
    if '\n' in contents {
      FirstTerminated(contents, eolTermination);
    } else {
      OpenLine(contents, eolTermination);
      OpenLine("", eolTermination);
      assert contents[|contents|..] == "";
    }
  }

  lemma FirstTerminated(contents: string, eolTermination: bool)
    requires '\n' in contents
    ensures var i := Index(contents, '\n');
            Messages(contents, eolTermination) ==
            Kept(contents[..i]) + Messages(contents[i + 1..], eolTermination)
  {
    SplitFirst(contents, '\n');
    var i := Index(contents, '\n');
    CompleteConcat([contents[..i]], Split(contents[i + 1..], '\n'), eolTermination);
    OneLine(contents[..i]);
  }

  lemma OneLine(line: string)
    ensures KeptLines([line]) == Kept(line)
  {
    assert [line][1..] == [];
  }

  lemma OpenLine(line: string, eolTermination: bool)
    requires '\n' !in line
    ensures Messages(line, eolTermination) == if eolTermination then [] else Kept(line)
  {
    SplitFirst(line, '\n');
    OneLine(line);
  }

  lemma {:induction false} KeptLinesConcat(a: seq<string>, b: seq<string>)
    ensures KeptLines(a + b) == KeptLines(a) + KeptLines(b)
  {
    if a == [] {
      assert a + b == b;
    } else {
      assert (a + b)[1..] == a[1..] + b;
      KeptLinesConcat(a[1..], b);
    }
  }

  lemma CompleteConcat(a: seq<string>, b: seq<string>, eolTermination: bool)
    requires b != []
    ensures KeptLines(Complete(a + b, eolTermination)) == KeptLines(a) + KeptLines(Complete(b, eolTermination))
  {
    assert Complete(a + b, eolTermination) == a + Complete(b, eolTermination);
    KeptLinesConcat(a, Complete(b, eolTermination));
  }

  // ----- what scanning does not depend on -----

  lemma EndsWithNewline(a: string, eolTermination: bool)
    ensures Messages(a + "\n", eolTermination) == KeptLines(Split(a, '\n'))
  {
    assert Split(a + "\n", '\n') == Split(a, '\n') + [""] by {
      assert a + "\n" + "" == a + "\n";
      SplitConcat(a, "", '\n');
      SplitFirst("", '\n');
    }
    EmptyLast(Split(a, '\n'), eolTermination);
  }

  lemma EmptyLast(lines: seq<string>, eolTermination: bool)
    ensures KeptLines(Complete(lines + [""], eolTermination)) == KeptLines(lines)
  {
    if eolTermination {
      assert (lines + [""])[..|lines|] == lines;
    } else {
      KeptLinesConcat(lines, [""]);
      OneLine("");
    }
  }

  lemma OpenPart(a: string, b: string, eolTermination: bool)
    ensures Messages(a + "\n" + b, eolTermination) == KeptLines(Split(a, '\n')) + Messages(b, eolTermination)
  {
    SplitConcat(a, b, '\n');
    CompleteConcat(Split(a, '\n'), Split(b, '\n'), eolTermination);
  }

  /** Cutting a stream into packets at a newline changes none of its messages. */
  lemma CutAtNewline(a: string, b: string, eolTermination: bool)
    ensures Messages(a + "\n" + b, eolTermination) ==
            Messages(a + "\n", eolTermination) + Messages(b, eolTermination)
  {
    OpenPart(a, b, eolTermination);
    EndsWithNewline(a, eolTermination);
  }

  /** The message of a line is the line, without one carriage return if it ends in one. */
  ghost predicate LineOf(line: string, message: string) {
    line == message + "\r" || (line == message && (message == "" || message[|message| - 1] != '\r'))
  }

  lemma KeptIs(line: string, message: string)
    requires LineOf(line, message)
    ensures Kept(line) == if message == "" then [] else [message]
  {
    if line == message + "\r" {
      assert line[..|line| - 1] == message && line[|line| - 1] == '\r';
    }
  }

  /** Line by line: each gives its message unless that is empty, and the last one counts if a newline ends it or none need to. */
  lemma LineByLine(line: string, message: string, rest: string, eolTermination: bool)
    requires '\n' !in line && LineOf(line, message)
    ensures Messages(line + "\n" + rest, eolTermination) == (if message == "" then [] else [message]) + Messages(rest, eolTermination)
    ensures Messages(line, eolTermination) == if message == "" || eolTermination then [] else [message]
  {
    KeptIs(line, message);
    OpenPart(line, rest, eolTermination);
    SplitFirst(line, '\n');
    OneLine(line);
    OpenLine(line, eolTermination);
  }

  /** A message that scanning gives back unchanged. */
  predicate IsLine(m: string) {
    m != "" && '\n' !in m && m[|m| - 1] != '\r'
  }

  function Terminated(messages: seq<string>): string {
    if messages == [] then "" else messages[0] + "\n" + Terminated(messages[1..])
  }

  lemma SplitFirstTerminated(messages: seq<string>, tail: string)
    requires messages != [] && '\n' !in messages[0]
    ensures Split(Terminated(messages) + tail, '\n') ==
            [messages[0]] + Split(Terminated(messages[1..]) + tail, '\n')
  {
    var m, more := messages[0], Terminated(messages[1..]);
    assert m + "\n" + more + tail == m + "\n" + (more + tail);
    SplitAt(m, more + tail, '\n');
  }

  lemma {:induction false} SplitTerminated(messages: seq<string>, tail: string)
    requires forall k :: 0 <= k < |messages| ==> '\n' !in messages[k]
    requires '\n' !in tail
    ensures Split(Terminated(messages) + tail, '\n') == messages + [tail]
  {
    if messages == [] {
      assert Terminated(messages) + tail == tail;
      SplitFirst(tail, '\n');
    } else {
      SplitFirstTerminated(messages, tail);
      SplitTerminated(messages[1..], tail);
    }
  }

  lemma {:induction false} LinesAreKept(messages: seq<string>)
    requires forall k :: 0 <= k < |messages| ==> IsLine(messages[k])
    ensures KeptLines(messages) == messages
  {
    if messages != [] {
      LinesAreKept(messages[1..]);
    }
  }

  /** Messages sent with a newline each come out one for one; an unfinished one too, unless termination is asked for. */
  lemma TerminatedRoundTrip(messages: seq<string>, tail: string, eolTermination: bool)
    requires forall k :: 0 <= k < |messages| ==> IsLine(messages[k])
    requires tail == "" || IsLine(tail)
    ensures Messages(Terminated(messages) + tail, eolTermination) ==
            messages + if tail == "" || eolTermination then [] else [tail]
  {
    SplitTerminated(messages, tail);
    LinesAreKept(messages);
    CompleteConcat(messages, [tail], eolTermination);
    OneLine(tail);
  }

  lemma AllTerminated(messages: seq<string>, eolTermination: bool)
    requires forall k :: 0 <= k < |messages| ==> IsLine(messages[k])
    ensures Messages(Terminated(messages), eolTermination) == messages
  {
    TerminatedRoundTrip(messages, "", eolTermination);
    assert Terminated(messages) + "" == Terminated(messages) && messages + [] == messages;
  }
}
