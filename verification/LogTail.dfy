/** Tailing a log: where the last lines start, and following the file while it grows. */
module LogTail {
  import opened Bytes

  const NEWLINE: byte := 10

  function Newlines(s: seq<byte>): nat {
    if s == [] then 0 else Newlines(s[..|s| - 1]) + if s[|s| - 1] == NEWLINE then 1 else 0
  }

  lemma {:induction false} NewlinesConcat(a: seq<byte>, b: seq<byte>)
    ensures Newlines(a + b) == Newlines(a) + Newlines(b)
  {
    if b == [] {
      assert a + b == a;
    } else {
      assert (a + b)[..|a + b| - 1] == a + b[..|b| - 1];
      NewlinesConcat(a, b[..|b| - 1]);
    }
  }

  lemma NewlinesFrom(s: seq<byte>, i: nat, j: nat)
    requires i <= j <= |s|
    ensures Newlines(s[i..]) == Newlines(s[i..j]) + Newlines(s[j..])
  {
    assert s[i..] == s[i..j] + s[j..];
    NewlinesConcat(s[i..j], s[j..]);
  }

  lemma {:induction false} NoNewlines(s: seq<byte>)
    ensures NEWLINE !in s <==> Newlines(s) == 0
  {
    if s != [] {
      NoNewlines(s[..|s| - 1]);
      assert s == s[..|s| - 1] + [s[|s| - 1]];
    }
  }

  // ---------------------------------------------------------------- where the last lines start

  /** The least offset whose suffix holds at most that many newlines. */
  ghost predicate IsTailStart(file: seq<byte>, lines: nat, offset: nat) {
    && offset <= |file| && Newlines(file[offset..]) <= lines
    && forall p: nat | p < offset :: Newlines(file[p..]) > lines
  }

  /** bytes.IndexByte, for a newline that is there. */
  method IndexOfNewline(s: seq<byte>) returns (i: nat)
    requires Newlines(s) > 0
    ensures i < |s| && s[i] == NEWLINE && NEWLINE !in s[..i]
  {
    NoNewlines(s);
    i := 0;
    while s[i] != NEWLINE
      invariant i < |s| && NEWLINE !in s[..i]
      decreases |s| - i
    {
      assert NEWLINE in s[..i + 1] + s[i + 1..] by { assert s == s[..i + 1] + s[i + 1..]; }
      i := i + 1;
    }
  }

  /** Cutting through the first newline after offset keeps every earlier suffix above the limit. */
  lemma CutFirstLine(file: seq<byte>, lines: nat, offset: nat, i: nat)
    requires offset + i < |file| && file[offset + i] == NEWLINE && NEWLINE !in file[offset..offset + i]
    requires Newlines(file[offset..]) > lines && forall p: nat | p < offset :: Newlines(file[p..]) > lines
    ensures Newlines(file[offset + i + 1..]) == Newlines(file[offset..]) - 1
    ensures forall p: nat | p < offset + i + 1 :: Newlines(file[p..]) > lines
  {
    var cut := offset + i;
    NoNewlines(file[offset..cut]);
    NewlinesFrom(file, offset, cut);
    NewlinesFrom(file, cut, cut + 1);
    assert file[cut..cut + 1] == [NEWLINE];
    forall p: nat | p < cut + 1 ensures Newlines(file[p..]) > lines {
      NewlinesFrom(file, p, cut);
    }
  }

  /** tailStartOffset: read blocks from the end until there are newlines enough, then trim the last block read.
      The offset does not depend on the block size; IndexOfNewline's requires is the claim that the trimming
      always finds its newline inside that block. */
  method TailStartOffset(file: seq<byte>, lines: nat, block: nat) returns (offset: nat)
    requires block > 0
    ensures lines == 0 ==> offset == |file|
    ensures lines > 0 ==> IsTailStart(file, lines, offset)
  {
    var end := |file|;
    if lines == 0 { return end; }
    offset := 0;
    var count, buffer := 0, [];
    ghost var last := end;                        // where the last block read ends
    while end > 0 && count <= lines
      invariant 0 <= end <= last <= |file| && count == Newlines(file[end..])
      invariant end < |file| ==> offset == end && buffer == file[offset..last]
      invariant end == |file| ==> offset == 0
      invariant count > lines ==> end < |file| && Newlines(file[last..]) <= lines
    {
      last := end;
      offset := if end < block then 0 else end - block;
      buffer := file[offset..end];
      NewlinesFrom(file, offset, end);
      count := count + Newlines(buffer);
      end := offset;
    }
    assert count > lines ==> forall p: nat | p < offset :: Newlines(file[p..]) > lines by {
      forall p: nat | p < offset ensures Newlines(file[p..]) >= Newlines(file[offset..]) {
        NewlinesFrom(file, p, offset);
      }
    }
    assert offset == 0 || count > lines;
    while count > lines
      invariant offset <= last <= |file| && count == Newlines(file[offset..])
      invariant count > lines ==> Newlines(file[last..]) <= lines
      invariant count > lines ==> buffer == file[offset..last]
      invariant forall p: nat | p < offset :: Newlines(file[p..]) > lines
    {
      NewlinesFrom(file, offset, last);
      var i := IndexOfNewline(buffer);
      assert buffer[..i] == file[offset..offset + i];
      CutFirstLine(file, lines, offset, i);
      buffer := buffer[i + 1..];
      offset := offset + i + 1;
      count := count - 1;
    }
  }

  /** Asking for no lines is the end of the file, which is the least such offset exactly when the file ends a line. */
  lemma NoLines(file: seq<byte>)
    ensures IsTailStart(file, 0, |file|) <==> file == [] || file[|file| - 1] == NEWLINE
  {
    assert file[|file|..] == [];
    if file != [] {
      assert file[|file| - 1..] == [file[|file| - 1]];
      if file[|file| - 1] == NEWLINE {
        forall p: nat | p < |file| ensures Newlines(file[p..]) > 0 { NewlinesFrom(file, p, |file| - 1); }
      } else {
        assert Newlines(file[|file| - 1..]) == 0;
      }
    }
  }

  /** What the offset means: the start of a line, with all the newlines asked for after it if the file has as many. */
  lemma TailStartsALine(file: seq<byte>, lines: nat, offset: nat)
    requires IsTailStart(file, lines, offset)
    ensures offset == 0 || file[offset - 1] == NEWLINE
    ensures Newlines(file[offset..]) == if Newlines(file) < lines then Newlines(file) else lines
    ensures Newlines(file) <= lines ==> offset == 0
  {
    assert file[0..] == file;
    if offset > 0 {
      NewlinesFrom(file, offset - 1, offset);
      assert file[offset - 1..offset] == [file[offset - 1]];
      NewlinesFrom(file, 0, offset - 1);
    }
  }

  // ---------------------------------------------------------------- following a growing file

  predicate IsLine(s: seq<byte>) {
    s != [] && s[|s| - 1] == NEWLINE && forall k | 0 <= k < |s| - 1 :: s[k] != NEWLINE
  }

  predicate HasNewline(s: seq<byte>) {
    exists k | 0 <= k < |s| :: s[k] == NEWLINE
  }

  /** Nothing, or complete lines only. */
  predicate AtLineEnd(s: seq<byte>) {
    s == [] || s[|s| - 1] == NEWLINE
  }

  function FirstNewline(s: seq<byte>): (i: nat)
    requires HasNewline(s)
    ensures i < |s| && s[i] == NEWLINE && forall k | 0 <= k < i :: s[k] != NEWLINE
  {
    if s[0] == NEWLINE then 0 else
      assert forall k | 1 <= k < |s| :: s[1..][k - 1] == s[k];
      1 + FirstNewline(s[1..])
  }

  /** The complete lines of a text; a partial last line is not among them. */
  function Lines(s: seq<byte>): seq<seq<byte>> {
    if !HasNewline(s) then [] else
      var i := FirstNewline(s);
      [s[..i + 1]] + Lines(s[i + 1..])
  }

  /** A line ends with a line feed. */
  lemma LinesEndWithLineFeeds(a: byte, b: byte)
    requires a != 10 && b != 10
    ensures Lines([a, 10, b]) == [[a, 10]]
  {
    var s: seq<byte> := [a, 10, b];
    LinesCut(s, 1);
    assert s[2..] == [b] && s[..2] == [a, 10];
  }

  lemma LinesCut(s: seq<byte>, i: nat)
    requires i < |s| && s[i] == NEWLINE && forall k | 0 <= k < i :: s[k] != NEWLINE
    ensures Lines(s) == [s[..i + 1]] + Lines(s[i + 1..])
  {
    assert FirstNewline(s) == i;
  }

  lemma NoLinesYet()
    ensures Lines([]) == []
  {
  }

  /** What is appended to a text with a line in it is appended to the rest of it. */
  lemma LinesOfMore(s: seq<byte>, i: nat, more: seq<byte>)
    requires i < |s| && s[i] == NEWLINE && forall k | 0 <= k < i :: s[k] != NEWLINE
    ensures Lines(s + more) == [s[..i + 1]] + Lines(s[i + 1..] + more)
  {
    hide Lines;
    var t := s + more;
    assert t[..i + 1] == s[..i + 1];
    assert t[i + 1..] == s[i + 1..] + more;
    LinesCut(t, i);
  }

  lemma LinesOfLine(line: seq<byte>)
    requires IsLine(line)
    ensures Lines(line) == [line]
  {
    LinesCut(line, |line| - 1);
    NoLinesYet();
    hide Lines;
    assert line[..|line|] == line;
    assert line[|line|..] == [];
  }

  lemma {:induction false} LinesSnoc(s: seq<byte>, line: seq<byte>)
    requires AtLineEnd(s) && IsLine(line)
    ensures Lines(s + line) == Lines(s) + [line]
  {
    hide IsLine, Lines;
    if s == [] {
      assert s + line == line;
      NoLinesYet();
      LinesOfLine(line);
    } else {
      assert HasNewline(s);
      var i := FirstNewline(s);
      LinesSnoc(s[i + 1..], line);
      LinesCut(s, i);
      LinesOfMore(s, i, line);
    }
  }

  lemma {:induction false} LinesIgnorePartial(s: seq<byte>, partial: seq<byte>)
    requires AtLineEnd(s) && !HasNewline(partial)
    ensures Lines(s + partial) == Lines(s)
  {
    if s == [] {
      assert s + partial == partial;
    } else {
      assert HasNewline(s);
      var i := FirstNewline(s);
      hide HasNewline, Lines;
      LinesIgnorePartial(s[i + 1..], partial);
      LinesCut(s, i);
      LinesOfMore(s, i, partial);
    }
  }

  lemma NoNewlineConcat(a: seq<byte>, b: seq<byte>)
    requires !HasNewline(a) && !HasNewline(b)
    ensures !HasNewline(a + b)
  {
    forall k | 0 <= k < |a + b| ensures (a + b)[k] != NEWLINE {
      assert (a + b)[k] == if k < |a| then a[k] else b[k - |a|];
    }
  }

  lemma JoinLine(a: seq<byte>, b: seq<byte>)
    requires !HasNewline(a) && HasNewline(b)
    ensures FirstNewline(b) < |b| && IsLine(a + b[..FirstNewline(b) + 1])
  {
  }

  lemma SliceStays(before: seq<byte>, after: seq<byte>, i: int, j: int)
    requires before <= after && 0 <= i <= j <= |before|
    ensures after[i..j] == before[i..j]
  {
  }

  lemma SliceLonger(s: seq<byte>, i: int, j: int, k: int)
    requires 0 <= i <= j <= k <= |s|
    ensures s[i..j] + s[j..k] == s[i..k]
  {
  }

  /** An append-only file; somebody may append before every call of the reader. */
  class LogFile {
    var content: seq<byte>
    var appends: seq<seq<byte>>

    constructor (content: seq<byte>, appends: seq<seq<byte>>)
      ensures this.content == content && this.appends == appends
    {
      this.content, this.appends := content, appends;
    }

    /** The text there will be when everything is appended. */
    ghost function Future(): seq<byte>
      reads this
    {
      content + Concat(appends)
    }

    method Grow()
      modifies this
      ensures Future() == old(Future())
      ensures if old(appends) == [] then appends == [] && content == old(content)
              else content == old(content) + old(appends)[0] && appends == old(appends)[1..]
    {
      if appends != [] {
        assert content + (appends[0] + Concat(appends[1..])) == content + appends[0] + Concat(appends[1..]);
        content := content + appends[0];
        appends := appends[1..];
      }
    }
  }

  /** bufio.Reader over the file: `position` is the file's own offset, `buffer` what was read and not yet taken. */
  class Reader {
    const file: LogFile
    const capacity: nat
    var position: nat
    var buffer: seq<byte>

    ghost predicate Valid()
      reads this, file
    {
      && capacity > 0 && |buffer| <= capacity && |buffer| <= position <= |file.content|
      && buffer == file.content[position - |buffer|..position]
    }

    ghost function Taken(): int
      reads this
    {
      position - |buffer|
    }

    constructor (file: LogFile, start: nat, capacity: nat)
      requires start <= |file.content| && capacity > 0
      ensures this.file == file && Valid() && Taken() == start && buffer == []
    {
      this.file, this.position, this.capacity, this.buffer := file, start, capacity, [];
    }

    /** One read call: some bytes, or none at the end of the file. */
    method Fill() returns (eof: bool)
      requires Valid() && |buffer| < capacity
      modifies this, file
      ensures Valid() && old(file.content) <= file.content && Taken() == old(Taken())
      ensures old(buffer) <= buffer && (eof <==> buffer == old(buffer))
      ensures eof ==> position == |file.content|
      ensures file.Future() == old(file.Future())
      ensures if old(file.appends) == [] then file.appends == [] && file.content == old(file.content)
              else old(file.content) <= file.content && file.appends == old(file.appends)[1..]
    {
      hide LogFile.Future;
      file.Grow();
      SliceStays(old(file.content), file.content, Taken(), position);
      var available := |file.content| - position;
      if available == 0 { return true; }
      var n: nat :| 1 <= n <= available && n <= capacity - |buffer|;
      SliceLonger(file.content, Taken(), position, position + n);
      buffer := buffer + file.content[position..position + n];
      position := position + n;
      return false;
    }

    /** Append the first n buffered bytes to what was collected since offset `from`. */
    method Take(ghost from: nat, line: seq<byte>, n: nat) returns (more: seq<byte>)
      requires Valid() && n <= |buffer|
      requires from <= Taken() && line == file.content[from..Taken()]
      modifies `buffer
      ensures Valid() && buffer == old(buffer[n..]) && Taken() == old(Taken()) + n
      ensures more == line + old(buffer[..n]) == file.content[from..Taken()]
    {
      SliceLonger(file.content, from, Taken(), Taken() + n);
      more, buffer := line + buffer[..n], buffer[n..];
    }

    /** ReadBytes: up to and with the next newline, or all there is up to the end of the file. */
    method ReadBytes() returns (line: seq<byte>, eof: bool)
      requires Valid()
      modifies this, file
      ensures Valid() && old(file.content) <= file.content
      ensures old(Taken()) <= Taken() && line == file.content[old(Taken())..Taken()]
      ensures !eof ==> IsLine(line)
      ensures eof ==> !HasNewline(line) && buffer == [] && position == |file.content|
      ensures file.Future() == old(file.Future())
      ensures |file.appends| < |old(file.appends)|
              || (file.appends == old(file.appends) && file.content == old(file.content)
                && (eof ==> file.appends == []))
    {
      assert !HasNewline([]);
      hide IsLine, FirstNewline, HasNewline, LogFile.Future;
      line, eof := [], false;
      while !HasNewline(buffer) && !eof
        invariant Valid() && old(file.content) <= file.content
        invariant old(Taken()) <= Taken() && line == file.content[old(Taken())..Taken()]
        invariant !HasNewline(line) && (eof ==> !HasNewline(buffer) && position == |file.content|)
        invariant |file.appends| < |old(file.appends)|
                  || (file.appends == old(file.appends) && file.content == old(file.content)
                      && (eof ==> file.appends == []))
        invariant file.Future() == old(file.Future())
        decreases !eof, |file.appends|, |file.content| - position, |buffer|
      {
        if |buffer| == capacity {
          NoNewlineConcat(line, buffer);
          line := Take(old(Taken()), line, |buffer|);
        } else {
          ghost var before := file.content;
          eof := Fill();
          SliceStays(before, file.content, old(Taken()), Taken());
        }
      }
      if eof {
        NoNewlineConcat(line, buffer);
        line := Take(old(Taken()), line, |buffer|);
      } else {
        var i := FirstNewline(buffer);
        JoinLine(line, buffer);
        line := Take(old(Taken()), line, i + 1);
      }
    }

    /** Seek back over a partial line and forget what is buffered. */
    method PutBack(n: nat)
      requires Valid() && buffer == [] && n <= position
      modifies this
      ensures Valid() && position == old(position) - n && buffer == []
    {
      position := position - n;
    }
  }

  function Concat(lines: seq<seq<byte>>): seq<byte> {
    if lines == [] then [] else lines[0] + Concat(lines[1..])
  }

  /** What Lines means: each of them is one line, and together they are the text up to its last newline. */
  lemma {:induction false} LinesCover(s: seq<byte>) returns (rest: seq<byte>)
    ensures forall line | line in Lines(s) :: IsLine(line)
    ensures s == Concat(Lines(s)) + rest && !HasNewline(rest)
  {
    if !HasNewline(s) {
      rest := s;
      assert Concat(Lines(s)) == [];
    } else {
      var i := FirstNewline(s);
      rest := LinesCover(s[i + 1..]);
      assert s == s[..i + 1] + s[i + 1..];
      assert Lines(s)[1..] == Lines(s[i + 1..]);
    }
  }

  /** The lines of the file from start up to offset, which ends a line, are written. */
  ghost predicate Delivered(content: seq<byte>, start: nat, offset: int, written: seq<seq<byte>>) {
    && start <= offset <= |content| && AtLineEnd(content[start..offset])
    && written == Lines(content[start..offset])
  }

  lemma NothingDelivered(content: seq<byte>, start: nat)
    requires start <= |content|
    ensures Delivered(content, start, start, [])
  {
  }

  lemma DeliveredWhileGrowing(before: seq<byte>, content: seq<byte>, start: nat, offset: int, written: seq<seq<byte>>)
    requires Delivered(before, start, offset, written) && before <= content
    ensures Delivered(content, start, offset, written)
  {
    assert content[start..offset] == before[start..offset];
  }

  lemma DeliverLine(content: seq<byte>, start: nat, offset: int, written: seq<seq<byte>>, end: int, line: seq<byte>)
    requires Delivered(content, start, offset, written) && offset <= end <= |content|
    requires line == content[offset..end] && IsLine(line)
    ensures Delivered(content, start, end, written + [line])
  {
    hide Lines, HasNewline;
    SliceLonger(content, start, offset, end);
    LinesSnoc(content[start..offset], line);
  }

  lemma KeepPartial(content: seq<byte>, start: nat, offset: int, written: seq<seq<byte>>, end: int)
    requires Delivered(content, start, offset, written) && offset <= end <= |content|
    requires !HasNewline(content[offset..end])
    ensures written == Lines(content[start..end])
  {
    assert content[start..end] == content[start..offset] + content[offset..end];
    LinesIgnorePartial(content[start..offset], content[offset..end]);
  }

  /** A write of this line that stops after so many bytes. */
  predicate CutShort(all: seq<seq<byte>>, written: seq<seq<byte>>, cut: seq<byte>) {
    all != [] && written == all[..|all| - 1] && cut < all[|all| - 1]
  }

  lemma CutLine(content: seq<byte>, start: nat, end: int, written: seq<seq<byte>>, line: seq<byte>, room: nat)
    requires Delivered(content, start, end, written + [line]) && room < |line|
    ensures start <= end <= |content| && CutShort(Lines(content[start..end]), written, line[..room])
  {
  }

  lemma {:induction false} ConcatSnoc(lines: seq<seq<byte>>, line: seq<byte>)
    ensures Concat(lines + [line]) == Concat(lines) + line
  {
    if lines == [] {
      assert [line][1..] == [];
    } else {
      assert (lines + [line])[1..] == lines[1..] + [line];
      ConcatSnoc(lines[1..], line);
      assert lines[0] + (Concat(lines[1..]) + line) == lines[0] + Concat(lines[1..]) + line;
    }
  }

  /** followLogTail, for a client that leaves after so many changes and takes so many bytes. Each write carries one
      complete line; all lines that were complete when the end of the file was last seen are written once and in
      order, and nothing of a partial line is. It fails exactly where the client takes no more, and goes on until
      the client leaves: each time the end of the file is seen, an append came in between or none is left. */
  method FollowLogTail(file: LogFile, start: nat, capacity: nat, changes: nat, budget: nat)
      returns (written: seq<seq<byte>>, cut: seq<byte>, failed: bool, seen: nat)
    requires start <= |file.content| && capacity > 0
    modifies file
    ensures old(file.content) <= file.content && start <= seen <= |file.content|
    ensures file.Future() == old(file.Future())
    ensures !failed ==> cut == [] && written == Lines(file.content[start..seen]) && seen == |file.content|
    ensures !failed ==> |Concat(written)| <= budget
    ensures !failed ==> file.appends == [] || |old(file.appends)| - |file.appends| > changes
    ensures failed ==> CutShort(Lines(file.content[start..seen]), written, cut) && |Concat(written)| + |cut| == budget
  {
    hide Lines, HasNewline, Delivered, IsLine, CutShort, Concat, LogFile.Future;
    var reader := new Reader(file, start, capacity);
    var room: nat, left: nat := budget, changes;
    written := [];
    NothingDelivered(file.content, start);
    NothingWritten();
    while true
      invariant reader.Valid() && reader.file == file && old(file.content) <= file.content && start <= reader.Taken()
      invariant Delivered(file.content, start, reader.Taken(), written) && |Concat(written)| + room == budget
      invariant file.Future() == old(file.Future())
      invariant left <= changes && (file.appends == [] || |old(file.appends)| - |file.appends| >= changes - left)
      decreases left, |file.appends|, |file.content| - reader.Taken()
    {
      ghost var taken, content := reader.Taken(), file.content;
      var line, eof := reader.ReadBytes();
      DeliveredWhileGrowing(content, file.content, start, taken, written);
      if !eof {
        DeliverLine(file.content, start, taken, written, reader.Taken(), line);
        if room < |line| {
          CutLine(file.content, start, reader.Taken(), written, line, room);
          return written, line[..room], true, reader.position - |reader.buffer|;
        }
        ConcatSnoc(written, line);
        written := written + [line];
        room := room - |line|;
        assert |line| > 0 by { LineNotEmpty(line); }
        continue;
      }
      KeepPartial(file.content, start, taken, written, reader.position);
      seen := reader.position;
      if |line| > 0 { reader.PutBack(|line|); }
      if left == 0 { return written, [], false, seen; }
      left := left - 1;
    }
  }

  lemma NothingWritten()
    ensures Concat([]) == []
  {
  }

  lemma LineNotEmpty(line: seq<byte>)
    requires IsLine(line)
    ensures |line| > 0
  {
  }
}
