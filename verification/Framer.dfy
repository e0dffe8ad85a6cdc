/** The line framer of the GUI's socket client (`_on_ready_read`). */
module Framer {
  import opened Common

  predicate Unbroken(line: string) {
    forall i | 0 <= i < |line| :: line[i] != '\n'
  }

  /** `bytearray.partition` at the first newline: what is before and what is after it. */
  function Partition(buffer: string): (r: Option<(string, string)>)
    ensures r.None? <==> Unbroken(buffer)
    ensures r.Some? ==> Unbroken(r.value.0) && buffer == r.value.0 + ("\n" + r.value.1)
  {
    if buffer == [] then None
    else if buffer[0] == '\n' then Some(([], buffer[1..]))
    else
      match Partition(buffer[1..])
      case None => None
      case Some((line, rest)) =>
        assert buffer == [buffer[0]] + buffer[1..];
        Some(([buffer[0]] + line, rest))
  }

  /** The complete lines of a stream. */
  function Lines(stream: string): seq<string>
    decreases |stream|
  {
    match Partition(stream)
    case None => []
    case Some((line, rest)) => [line] + Lines(rest)
  }

  /** What follows the last newline. */
  function Rest(stream: string): (rest: string)
    ensures Unbroken(rest)
    decreases |stream|
  {
    match Partition(stream)
    case None => stream
    case Some((_, rest)) => Rest(rest)
  }

  /** Every line with its newline, then the rest. */
  function Joined(lines: seq<string>, rest: string): string {
    if lines == [] then rest else lines[0] + ("\n" + Joined(lines[1..], rest))
  }

  predicate AllUnbroken(lines: seq<string>) {
    forall i | 0 <= i < |lines| :: Unbroken(lines[i])
  }

  lemma {:induction false} PartitionOf(line: string, more: string)
    requires Unbroken(line)
    ensures Partition(line + ("\n" + more)) == Some((line, more))
  {
    var buffer := line + ("\n" + more);
    if line == [] {
      assert buffer[1..] == more;
    } else {
      assert buffer[1..] == line[1..] + ("\n" + more);
      PartitionOf(line[1..], more);
      assert [line[0]] + line[1..] == line;
    }
  }

  lemma FirstLine(line: string, more: string)
    requires Unbroken(line)
    ensures Lines(line + ("\n" + more)) == [line] + Lines(more)
    ensures Rest(line + ("\n" + more)) == Rest(more)
  {
    PartitionOf(line, more);
  }

  /** Lines and rest are the only way to cut a stream at its newlines. */
  lemma {:induction false} FramedUniquely(lines: seq<string>, rest: string)
    requires AllUnbroken(lines) && Unbroken(rest)
    ensures Lines(Joined(lines, rest)) == lines && Rest(Joined(lines, rest)) == rest
  {
    if lines != [] {
      FramedUniquely(lines[1..], rest);
      FirstLine(lines[0], Joined(lines[1..], rest));
      assert [lines[0]] + lines[1..] == lines;
    }
  }

  /** Nothing is lost. */
  lemma {:induction false} FramedWholly(stream: string)
    ensures Joined(Lines(stream), Rest(stream)) == stream && AllUnbroken(Lines(stream))
    decreases |stream|
  {
    match Partition(stream)
    case None =>
    case Some((line, rest)) =>
      FramedWholly(rest);
      assert Lines(stream)[1..] == Lines(rest);
  }

  lemma {:induction false} JoinedLines(a: seq<string>, b: seq<string>, rest: string)
    ensures Joined(a + b, rest) == Joined(a, Joined(b, rest))
  {
    if a == [] {
      assert a + b == b;
    } else {
      assert (a + b)[1..] == a[1..] + b;
      JoinedLines(a[1..], b, rest);
    }
  }

  lemma {:induction false} JoinedRest(lines: seq<string>, rest: string, more: string)
    ensures Joined(lines, rest) + more == Joined(lines, rest + more)
  {
    if lines != [] {
      JoinedRest(lines[1..], rest, more);
      var tail := Joined(lines[1..], rest);
      assert lines[0] + ("\n" + tail) + more == lines[0] + ("\n" + (tail + more));
    }
  }

  /** What arrives later only meets the rest of what came before. */
  lemma FramedInParts(a: string, b: string)
    ensures Lines(a + b) == Lines(a) + Lines(Rest(a) + b)
    ensures Rest(a + b) == Rest(Rest(a) + b)
  {
    var more := Rest(a) + b;
    FramedWholly(a);
    FramedWholly(more);
    JoinedRest(Lines(a), Rest(a), b);
    JoinedLines(Lines(a), Lines(more), Rest(more));
    FramedUniquely(Lines(a) + Lines(more), Rest(more));
  }

  /** `not line.strip()` */
  predicate Blank(line: string) {
    forall i | 0 <= i < |line| :: IsSpace(line[i])
  }

  lemma BlankMeans(line: string)
    ensures Blank(line) <==> forall c | c in line :: c in SPACES
  {
    forall c | c in line
      ensures IsSpace(c) <==> c in SPACES
    {
      SpaceIsListed(c);
    }
    if forall c | c in line :: c in SPACES {
      assert forall i | 0 <= i < |line| :: line[i] in line;
    }
  }

  function Message(line: string): seq<string> {
    if Blank(line) then [] else [line]
  }

  function Messages(lines: seq<string>): seq<string> {
    if lines == [] then [] else Messages(lines[..|lines| - 1]) + Message(lines[|lines| - 1])
  }

  lemma {:induction false} MessagesAppend(a: seq<string>, b: seq<string>)
    ensures Messages(a + b) == Messages(a) + Messages(b)
  {
    if b == [] {
      assert a + b == a;
    } else {
      var n := |b| - 1;
      assert (a + b)[..|a| + n] == a + b[..n];
      MessagesAppend(a, b[..n]);
    }
  }

  lemma LinesTaken(done: seq<string>, line: string, rest: string, buffer: string)
    requires Partition(buffer) == Some((line, rest))
    ensures done + Lines(buffer) == done + [line] + Lines(rest) && Rest(buffer) == Rest(rest)
  {
    assert done + ([line] + Lines(rest)) == done + [line] + Lines(rest);
  }

  lemma MessageTaken(done: seq<string>, line: string)
    ensures Messages(done + [line]) == Messages(done) + Message(line)
  {
    assert (done + [line])[..|done|] == done;
  }

  class SocketClient {
    var buffer: string
    /** The lines handed to the JSON parser. */
    var emitted: seq<string>
    /** Every byte read so far, whatever the reads. */
    ghost var received: string

    constructor ()
      ensures Valid() && received == []
    {
      buffer, emitted, received := [], [], [];
    }

    /** Independent of how the bytes were split into reads: the messages are the lines of all bytes together. */
    ghost predicate Valid()
      reads this
    {
      emitted == Messages(Lines(received)) && buffer == Rest(received)
    }

    /** `_on_ready_read` */
    method OnReadyRead(chunk: string)
      requires Valid()
      modifies this
      ensures Valid() && received == old(received) + chunk
    {
      FramedInParts(received, chunk);
      MessagesAppend(Lines(received), Lines(buffer + chunk));
      received := received + chunk;
      buffer := buffer + chunk;
      EmitLines();
    }

    /** The loop of `_on_ready_read`. */
    method EmitLines()
      modifies this`buffer, this`emitted
      ensures emitted == old(emitted) + Messages(old(Lines(buffer))) && buffer == old(Rest(buffer))
    {
      ghost var done: seq<string> := [];
      assert old(emitted) + Messages(done) == emitted && done + Lines(buffer) == Lines(buffer);
      while Partition(buffer).Some?
        invariant emitted == old(emitted) + Messages(done)
        invariant done + Lines(buffer) == old(Lines(buffer)) && Rest(buffer) == old(Rest(buffer))
        decreases |buffer|
      {
        var (line, rest) := Partition(buffer).value;
        LinesTaken(done, line, rest, buffer);
        MessageTaken(done, line);
        buffer := rest;
        EmitLine(line);
        done := done + [line];
      }
      assert done + [] == done;
    }

    /** `_emit_line` */
    method EmitLine(line: string)
      modifies this`emitted
      ensures emitted == old(emitted) + Message(line)
    {
      if Blank(line) {
        assert emitted + [] == emitted;
        return;
      }
      emitted := emitted + [line];
    }
  }

  lemma GluedLines(left: string, after: string)
    requires Unbroken(left) && !Unbroken(after)
    ensures var lines := Lines(after);
            lines != [] && Lines(left + after) == [left + lines[0]] + lines[1..]
  {
    var (line, more) := Partition(after).value;
    assert left + after == (left + line) + ("\n" + more);
    PartitionOf(left + line, more);
  }

  /** The buffer outlives a lost connection. Blank lines included, the lines of the next connection come out as it sent
      them exactly when nothing was left over or it completes no line. */
  lemma ReconnectKeepsLinesIff(before: string, after: string)
    ensures Lines(before + after) == Lines(before) + Lines(after) <==> Rest(before) == [] || Unbroken(after)
  {
    FramedInParts(before, after);
    var left := Rest(before);
    if left == [] {
      assert left + after == after;
    } else if Unbroken(after) {
      assert Unbroken(left + after);
    } else {
      GluedLines(left, after);
      FirstLinesDiffer(Lines(before), Lines(left + after), Lines(after));
    }
  }

  lemma FirstLinesDiffer(done: seq<string>, a: seq<string>, b: seq<string>)
    requires a != [] && b != [] && a[0] != b[0]
    ensures done + a != done + b
  {
    assert (done + a)[|done|] != (done + b)[|done|];
  }

  lemma BlankJoined(left: string, line: string)
    ensures Blank(left + line) <==> Blank(left) && Blank(line)
  {
    if Blank(left + line) {
      assert forall i | 0 <= i < |left| :: left[i] == (left + line)[i];
      assert forall i | 0 <= i < |line| :: line[i] == (left + line)[|left| + i];
    }
  }

  lemma FirstMessage(line: string, lines: seq<string>)
    ensures Messages([line] + lines) == Message(line) + Messages(lines)
  {
    MessagesAppend([line], lines);
    assert [line][..0] == [] && Messages([line]) == [] + Message(line);
  }

  /** A line glued to what was left over. */
  lemma GluedMessages(done: seq<string>, left: string, line: string, lines: seq<string>)
    requires left != []
    ensures done + Messages([left + line] + lines) == done + Messages([line] + lines) <==> Blank(left) && Blank(line)
  {
    FirstMessage(left + line, lines);
    FirstMessage(line, lines);
    BlankJoined(left, line);
    SameTail(done, Message(left + line), Message(line), Messages(lines));
  }

  /** What is emitted is that of the two connections on their own exactly when nothing was left over, or the next
      completes no line, or what was left over and the next one's first line are both blank. */
  lemma ReconnectKeepsMessagesIff(before: string, after: string)
    ensures Messages(Lines(before + after)) == Messages(Lines(before)) + Messages(Lines(after)) <==>
            || Rest(before) == [] || Unbroken(after)
            || (Blank(Rest(before)) && Blank(Lines(after)[0]))
  {
    FramedInParts(before, after);
    var left, lines := Rest(before), Lines(after);
    MessagesAppend(Lines(before), Lines(left + after));
    if left == [] {
      assert left + after == after;
    } else if Unbroken(after) {
      assert Unbroken(left + after);
    } else {
      GluedLines(left, after);
      assert lines == [lines[0]] + lines[1..];
      GluedMessages(Messages(Lines(before)), left, lines[0], lines[1..]);
    }
  }

  lemma SameTail(done: seq<string>, a: seq<string>, b: seq<string>, rest: seq<string>)
    ensures done + (a + rest) == done + (b + rest) <==> a == b
  {
    if done + (a + rest) == done + (b + rest) {
      assert a + rest == (done + (a + rest))[|done|..] == (done + (b + rest))[|done|..] == b + rest;
      assert |a| == |b|;
      assert a == (a + rest)[..|a|] == (b + rest)[..|b|] == b;
    }
  }

  /** A line cut in two by a lost connection comes out glued to what the next connection sends. */
  lemma ReconnectGluesLines()
    ensures Lines("a" + "b\n") == ["ab"] && Lines("a") + Lines("b\n") == ["b"]
  {
    PartitionOf("ab", "");
    PartitionOf("b", "");
    assert "a" + "b\n" == "ab" + ("\n" + "") && "b\n" == "b" + ("\n" + "");
  }
}
