/** A log file followed by polling: complete lines, by byte offset
    (internal/logtail/logtail.go). */
module LogTail {
  import opened Common

  newtype Byte = x: int | 0 <= x < 256
  type Bytes = seq<Byte>

  const NEWLINE: Byte := 10
  const RETURN: Byte := 13

  /** One line with its newline. */
  ghost predicate Terminated(piece: Bytes) {
    piece != [] && piece[|piece| - 1] == NEWLINE && NEWLINE !in piece[..|piece| - 1]
  }

  /** A full read without any newline, which is broken off. */
  ghost predicate Forced(piece: Bytes, maxRead: nat) {
    |piece| == maxRead && NEWLINE !in piece
  }

  ghost predicate Pieces(pieces: seq<Bytes>, maxRead: nat) {
    forall i :: 0 <= i < |pieces| ==> Terminated(pieces[i]) || Forced(pieces[i], maxRead)
  }

  ghost function Joined(pieces: seq<Bytes>): Bytes {
    if pieces == [] then [] else pieces[0] + Joined(pieces[1..])
  }

  lemma {:induction false} JoinedBoth(a: seq<Bytes>, b: seq<Bytes>)
    ensures Joined(a + b) == Joined(a) + Joined(b)
    decreases |a|
  {
    if a == [] {
      assert a + b == b;
    } else {
      JoinedBoth(a[1..], b);
      assert (a + b)[1..] == a[1..] + b;
      assert a[0] + (Joined(a[1..]) + Joined(b)) == (a[0] + Joined(a[1..])) + Joined(b);
    }
  }

  lemma JoinedOne(a: seq<Bytes>, x: Bytes)
    ensures Joined(a + [x]) == Joined(a) + x
  {
    JoinedBoth(a, [x]);
    assert [x][1..] == [] && Joined([x]) == x;
  }

  /** The newline split of a text; what follows the last newline is no line. */
  ghost function Split(s: Bytes): seq<Bytes>
    decreases |s|
  {
    if NEWLINE !in s then [] else var i := FirstNewline(s); [s[..i + 1]] + Split(s[i + 1..])
  }

  ghost function FirstNewline(s: Bytes): (i: nat)
    requires NEWLINE in s
    ensures i < |s| && s[i] == NEWLINE && NEWLINE !in s[..i]
    decreases |s|
  {
    if s[0] == NEWLINE then 0
    else
      assert s == [s[0]] + s[1..];
      var i := 1 + FirstNewline(s[1..]);
      assert s[..i] == [s[0]] + s[1..][..i - 1];
      i
  }

  lemma FirstIs(s: Bytes, k: nat)
    requires k < |s| && s[k] == NEWLINE && NEWLINE !in s[..k]
    ensures FirstNewline(s) == k
  {
    var i := FirstNewline(s);
    assert forall j :: 0 <= j < k ==> s[j] in s[..k];
    assert forall j :: 0 <= j < i ==> s[j] in s[..i];
  }

  lemma SplitOne(x: Bytes, rest: Bytes)
    requires Terminated(x)
    ensures Split(x + rest) == [x] + Split(rest)
  {
    var s, k := x + rest, |x| - 1;
    assert s[k] == NEWLINE && s[..k] == x[..k];
    FirstIs(s, k);
    assert s[..k + 1] == x && s[k + 1..] == rest;
  }

  /** Lines put together and split again are the same lines. */
  lemma {:induction false} SplitJoined(pieces: seq<Bytes>)
    requires forall i :: 0 <= i < |pieces| ==> Terminated(pieces[i])
    ensures Split(Joined(pieces)) == pieces
    decreases |pieces|
  {
    if pieces != [] {
      SplitOne(pieces[0], Joined(pieces[1..]));
      SplitJoined(pieces[1..]);
      assert pieces == [pieces[0]] + pieces[1..];
    }
  }

  /** No run without a newline is as long as one read. */
  ghost predicate Fits(s: Bytes, maxRead: nat) {
    forall i, j :: 0 <= i <= j <= |s| && NEWLINE !in s[i..j] ==> j - i < maxRead
  }

  /** Where every line fits one read, nothing is broken off. */
  lemma {:induction false} FittingTerminated(pieces: seq<Bytes>, maxRead: nat)
    requires Pieces(pieces, maxRead) && Fits(Joined(pieces), maxRead)
    ensures forall i :: 0 <= i < |pieces| ==> Terminated(pieces[i])
    decreases |pieces|
  {
    if pieces != [] {
      var x, rest := pieces[0], Joined(pieces[1..]);
      var s := x + rest;
      assert s[0..|x|] == x;
      forall i, j | 0 <= i <= j <= |rest| && NEWLINE !in rest[i..j] ensures j - i < maxRead {
        assert s[|x| + i..|x| + j] == rest[i..j];
      }
      FittingTerminated(pieces[1..], maxRead);
      forall i | 0 <= i < |pieces| ensures Terminated(pieces[i]) {
        if i > 0 {
          assert pieces[i] == pieces[1..][i - 1];
        }
      }
    }
  }

  /** The lines read from an append-only file whose lines fit one read are its
      newline split. */
  lemma ReadsAreLines(pieces: seq<Bytes>, maxRead: nat)
    requires Pieces(pieces, maxRead) && Fits(Joined(pieces), maxRead)
    ensures pieces == Split(Joined(pieces))
  {
    FittingTerminated(pieces, maxRead);
    SplitJoined(pieces);
  }

  /** The pieces are the file's bytes from one offset to another. */
  ghost predicate Covers(content: Bytes, from: nat, to: nat, pieces: seq<Bytes>) {
    from <= to <= |content| && content[from..to] == Joined(pieces)
  }

  /** A file that only grows keeps what was read of it. */
  lemma GrowingCovers(content: Bytes, content': Bytes, from: nat, to: nat, pieces: seq<Bytes>)
    requires Covers(content, from, to, pieces) && content <= content'
    ensures Covers(content', from, to, pieces)
  {
    assert content'[from..to] == content[from..to];
  }

  lemma CoversBoth(content: Bytes, from: nat, mid: nat, to: nat, a: seq<Bytes>, b: seq<Bytes>)
    requires Covers(content, from, mid, a) && Covers(content, mid, to, b)
    ensures Covers(content, from, to, a + b)
  {
    JoinedBoth(a, b);
    assert content[from..to] == content[from..mid] + content[mid..to];
  }

  lemma Nowhere(content: Bytes, at: nat)
    ensures at <= |content| ==> Covers(content, at, at, [])
  {
  }

  lemma CoversMore(content: Bytes, base: nat, at: nat, pieces: seq<Bytes>, got: seq<Bytes>)
    requires Covers(content, base, at, pieces)
    requires got != [] ==> at + |Joined(got)| <= |content| && Joined(got) == content[at..at + |Joined(got)|]
    ensures Covers(content, base, at + |Joined(got)|, pieces + got)
  {
    if got == [] {
      assert pieces + got == pieces;
    } else {
      CoversBoth(content, base, at, at + |Joined(got)|, pieces, got);
    }
  }

  /** truncate. */
  function Cut(b: Bytes, limit: nat): Bytes {
    if |b| > limit then b[..limit] else b
  }

  function TrimReturn(b: Bytes): Bytes {
    if b != [] && b[|b| - 1] == RETURN then b[..|b| - 1] else b
  }

  /** What is returned for a piece: without its newline and a carriage return
      before it, and cut to the line limit. */
  function Shown(piece: Bytes, limit: nat): Bytes {
    if piece != [] && piece[|piece| - 1] == NEWLINE then Cut(TrimReturn(piece[..|piece| - 1]), limit)
    else Cut(piece, limit)
  }

  /** The newline and one carriage return before it go, and what is over the limit;
      a piece without a newline keeps its carriage return. */
  lemma ShownMeans(text: Bytes, limit: nat)
    ensures var kept := if |text| > limit then text[..limit] else text;
            && (text == [] || text[|text| - 1] != RETURN ==> Shown(text + [NEWLINE], limit) == kept)
            && Shown(text + [RETURN, NEWLINE], limit) == kept
            && (NEWLINE !in text ==> Shown(text, limit) == kept)
  {
    var crlf := text + [RETURN, NEWLINE];
    assert crlf[..|crlf| - 1] == text + [RETURN] && (text + [RETURN])[..|text|] == text;
    assert (text + [NEWLINE])[..|text|] == text;
  }

  ghost function AllShown(pieces: seq<Bytes>, limit: nat): seq<Bytes> {
    seq(|pieces|, i requires 0 <= i < |pieces| => Shown(pieces[i], limit))
  }

  /** bytes.LastIndexByte for the newline. */
  method LastNewline(buf: Bytes) returns (i: int)
    ensures i == -1 <==> NEWLINE !in buf
    ensures -1 <= i < |buf| && (i >= 0 ==> buf[i] == NEWLINE && NEWLINE !in buf[i + 1..])
  {
    i := |buf| - 1;
    while i >= 0 && buf[i] != NEWLINE
      invariant -1 <= i < |buf| && NEWLINE !in buf[i + 1..]
    {
      assert buf[i..] == [buf[i]] + buf[i + 1..];
      i := i - 1;
    }
  }

  /** The pieces found so far, and what is returned for them. */
  ghost predicate Found(s: Bytes, pieces: seq<Bytes>, lines: seq<Bytes>, limit: nat) {
    Joined(pieces) == s && lines == AllShown(pieces, limit) && forall k :: 0 <= k < |pieces| ==> Terminated(pieces[k])
  }

  lemma FoundOneMore(s: Bytes, pieces: seq<Bytes>, lines: seq<Bytes>, limit: nat, line: Bytes)
    requires Found(s, pieces, lines, limit) && NEWLINE !in line
    ensures Found(s + line + [NEWLINE], pieces + [line + [NEWLINE]], lines + [Cut(TrimReturn(line), limit)], limit)
  {
    var piece := line + [NEWLINE];
    assert piece[..|piece| - 1] == line;
    JoinedOne(pieces, piece);
    assert s + line + [NEWLINE] == s + piece;
  }

  /** bytes.Split of complete lines, each shown. */
  method SplitLines(consumed: Bytes, limit: nat) returns (lines: seq<Bytes>, ghost pieces: seq<Bytes>)
    requires consumed != [] && consumed[|consumed| - 1] == NEWLINE
    ensures Found(consumed, pieces, lines, limit) && lines == AllShown(Split(consumed), limit)
  {
    lines, pieces := [], [];
    var start := 0;
    for i := 0 to |consumed|
      invariant 0 <= start <= i && NEWLINE !in consumed[start..i] && Found(consumed[..start], pieces, lines, limit)
      invariant i == |consumed| ==> start == i
    {
      if consumed[i] == NEWLINE {
        ghost var line := consumed[start..i];
        FoundOneMore(consumed[..start], pieces, lines, limit, line);
        assert consumed[..start] + line + [NEWLINE] == consumed[..i + 1];
        lines, pieces := lines + [Cut(TrimReturn(consumed[start..i]), limit)], pieces + [line + [NEWLINE]];
        start := i + 1;
      } else {
        assert consumed[start..i + 1] == consumed[start..i] + [consumed[i]];
      }
    }
    assert consumed[..|consumed|] == consumed;
    SplitJoined(pieces);
  }

  /** The rest of readLines, on the bytes read: how many of them are taken, and
      the lines they hold. */
  method Consume(buf: Bytes, maxRead: nat, limit: nat) returns (taken: nat, lines: seq<Bytes>, ghost pieces: seq<Bytes>)
    requires 0 < maxRead && |buf| <= maxRead
    ensures taken <= |buf| && Joined(pieces) == buf[..taken] && Pieces(pieces, maxRead)
    ensures lines == AllShown(pieces, limit)
    ensures NEWLINE !in buf[taken..]
    ensures pieces == [] <==> NEWLINE !in buf && |buf| < maxRead
  {
    taken, lines, pieces := 0, [], [];
    var last := LastNewline(buf);
    if last < 0 {
      if |buf| >= maxRead {
        taken, lines, pieces := |buf|, [Cut(buf, limit)], [buf];
        JoinedOne([], buf);
        assert [] + [buf] == [buf] && buf[..taken] == buf;
      }
      return;
    }
    taken := last + 1;
    lines, pieces := SplitLines(buf[..taken], limit);
  }

  class File {
    var content: Bytes

    constructor (content: Bytes)
      ensures this.content == content
    {
      this.content := content;
    }
  }

  /** What the watched path leads to, if anything. */
  class Path {
    var live: File?

    constructor (live: File?)
      ensures this.live == live
    {
      this.live := live;
    }
  }

  /** The longest line returned, unless the source says. */
  function LineLimit(maxLineBytes: int): nat {
    if maxLineBytes <= 0 then 16384 else maxLineBytes
  }

  const MAX_READ := 0x10_0000

  class Tailer {
    const path: Path
    const maxLineBytes: nat
    const maxReadBytes: nat
    var file: File?
    var offset: nat
    var incarnation: int
    var started: bool

    ghost predicate Valid()
      reads this
    {
      maxReadBytes > 0
    }

    constructor (path: Path, maxLineBytes: int)
      ensures Valid() && this.path == path && file == null && !started && offset == 0 && incarnation == 0
      ensures this.maxLineBytes == LineLimit(maxLineBytes) && maxReadBytes == MAX_READ
      ensures this.maxLineBytes == if maxLineBytes <= 0 then 16384 else maxLineBytes
    {
      this.path := path;
      this.maxLineBytes, maxReadBytes := LineLimit(maxLineBytes), MAX_READ;
      file, offset, incarnation, started := null, 0, 0, false;
    }

    /** Resume: go on from a checkpoint. An offset no file can have is 0. */
    method Resume(offset: nat, incarnation: int)
      requires Valid()
      modifies this
      ensures Valid() && started && this.incarnation == incarnation && file == old(file)
      ensures this.offset == if offset > 0x7FFF_FFFF_FFFF_FFFF then 0 else offset
    {
      this.offset := if offset > 0x7FFF_FFFF_FFFF_FFFF then 0 else offset;
      this.incarnation, started := incarnation, true;
    }

    /** Where reading of a file of this size starts: without a checkpoint only new
        lines are collected, and a checkpoint past the end starts it over. */
    function Start(size: nat): nat
      reads this`started, this`offset
    {
      if !started then size else if offset > size then 0 else offset
    }

    /** ensureOpen. A seek that fails leaves the place to start at behind. */
    method EnsureOpen() returns (ok: bool)
      requires Valid()
      modifies this`file, this`offset, this`started
      ensures Valid()
      ensures old(file) != null ==> ok && file == old(file) && offset == old(offset) && started == old(started)
      ensures old(file) == null && ok ==>
        && file != null && file == path.live && started
        && offset == if !old(started) then |path.live.content|
                     else if old(offset) > |path.live.content| then 0
                     else old(offset)
      ensures !ok ==> file == null
      ensures || ok
              || (offset == old(offset) && started == old(started))
              || (path.live != null && started && offset == old(Start(|path.live.content|)))
    {
      if file != null {
        return true;
      }
      var refused: bool := *;
      if refused || path.live == null {
        return false;
      }
      offset, started := Start(|path.live.content|), true;
      var seeks: bool := *;
      if seeks {
        file := path.live;
      }
      ok := seeks;
    }

    /** readLines: complete lines from the offset on, at most one read; a full
        read without a newline is broken off, so the offset always moves on. */
    method ReadLines(size: nat) returns (ok: bool, lines: seq<Bytes>, ghost pieces: seq<Bytes>, ghost seen: Bytes)
      requires Valid() && file != null && size == |file.content|
      modifies this`offset
      ensures Valid() && Pieces(pieces, maxReadBytes) && lines == AllShown(pieces, maxLineBytes)
      ensures offset == old(offset) + |Joined(pieces)|
      ensures pieces != [] ==> offset <= size && Joined(pieces) == file.content[old(offset)..offset]
      ensures old(offset) <= size ==> seen <= file.content[old(offset)..]
      ensures ok && pieces == [] ==> NEWLINE !in seen && |seen| < maxReadBytes
      ensures !ok ==> pieces == []
    {
      ok, lines, pieces, seen := true, [], [], [];
      if size <= offset {
        return;
      }
      var avail := size - offset;
      if avail > maxReadBytes {
        avail := maxReadBytes;
      }
      var fails: bool := *;
      if fails {
        return false, [], [], [];
      }
      // A read that meets the end of the file early is short.
      var n: nat :| n <= avail;
      var buf := file.content[offset..offset + n];
      seen := buf;
      assert file.content[offset..][..n] == buf;
      var taken;
      taken, lines, pieces := Consume(buf, maxReadBytes, maxLineBytes);
      assert buf[..taken] == file.content[offset..offset + taken];
      offset := offset + taken;
    }

    /** Poll. A shrunken file, or another file at the path, starts a new
        incarnation at offset 0; otherwise the offset moves past what was read. */
    method Poll() returns (r: Option<seq<Bytes>>, ghost pieces: seq<Bytes>, ghost from: nat)
      requires Valid()
      modifies this
      ensures Valid() && Pieces(pieces, maxReadBytes) && (r.Some? ==> r.value == AllShown(pieces, maxLineBytes))
      ensures r.None? ==> pieces == []
      ensures pieces != [] ==> var f := if old(file) != null then old(file) else path.live;
                               f != null && from + |Joined(pieces)| <= |f.content| &&
                                 Joined(pieces) == f.content[from..from + |Joined(pieces)|]
      ensures Steady(old(file), old(started), old(offset)) ==>
        from == old(offset) && offset == from + |Joined(pieces)| && incarnation == old(incarnation) && started &&
          (file == old(file) || file == path.live)
      ensures old(file) == null && !old(started) && path.live != null ==>
        (file == null && !started && offset == old(offset) && incarnation == old(incarnation) && r.None?) ||
        (&& (file == path.live || file == null) && started && offset == |path.live.content|
         && incarnation == old(incarnation) && pieces == [])
      ensures old(file) != null && |old(file).content| < old(offset) && old(file) == path.live && r.Some? ==>
        from == 0 && file == old(file) && offset == |Joined(pieces)| && incarnation == old(incarnation) + 1
      ensures old(file) != null && old(file) != path.live && path.live != null && r.Some? ==>
        file == null && offset == 0 &&
          incarnation == old(incarnation) + if |old(file).content| < old(offset) then 2 else 1
      // A path that leads nowhere is no rotation: the open file is read on.
      ensures old(file) != null && path.live == null && r.Some? ==>
        file == old(file) && incarnation == old(incarnation) + if |old(file).content| < old(offset) then 1 else 0
    {
      pieces, from := [], offset;
      var ok := EnsureOpen();
      from := offset;
      var stat: bool := *;
      if !ok || !stat {
        return None, [], from;
      }
      var size := |file.content|;
      if size < offset {
        offset, incarnation := 0, incarnation + 1;
        from := 0;
      }
      var lines;
      ghost var seen;
      ok, lines, pieces, seen := ReadLines(size);
      if !ok {
        return None, [], from;
      }
      r := Some(lines);
      if path.live != null && path.live != file {
        file, offset, incarnation := null, 0, incarnation + 1;
      }
    }

    /** A poll of a file that was not replaced or shrunk goes on where the last
        one ended. */
    method PollOn(ghost start: nat, ghost pieces: seq<Bytes>) returns (r: Option<seq<Bytes>>, ghost got: seq<Bytes>)
      requires Valid() && Steady(file, started, offset) && Covers(path.live.content, start, offset, pieces)
      modifies this
      ensures Valid() && Steady(file, started, offset) && Covers(path.live.content, start, offset, pieces + got)
      ensures incarnation == old(incarnation)
      ensures Pieces(got, maxReadBytes) && (if r.Some? then r.value == AllShown(got, maxLineBytes) else got == [])
    {
      ghost var at, from := offset, 0;
      r, got, from := Poll();
      CoversMore(path.live.content, start, at, pieces, got);
    }

    /** Any polling schedule over a file that only grows: where its lines fit one
        read, what was returned is the newline split of what was consumed. */
    method Follow(file: File) returns (all: seq<Bytes>)
      requires Valid() && path.live == file && Steady(this.file, started, offset)
      modifies this, file
      ensures Valid() && old(file.content) <= file.content && old(offset) <= offset <= |file.content|
      ensures incarnation == old(incarnation)
      ensures var consumed := file.content[old(offset)..offset];
              Fits(consumed, maxReadBytes) ==> all == AllShown(Split(consumed), maxLineBytes)
    {
      ghost var start, pieces: seq<Bytes> := offset, [];
      all := [];
      var polls: nat :| true;
      for i := 0 to polls
        invariant Valid() && old(file.content) <= file.content && Steady(this.file, started, offset)
        invariant incarnation == old(incarnation)
        invariant Covers(file.content, start, offset, pieces) && Pieces(pieces, maxReadBytes)
        invariant all == AllShown(pieces, maxLineBytes)
      {
        var more: Bytes := *;
        GrowingCovers(file.content, file.content + more, start, offset, pieces);
        file.content := file.content + more;
        var r, got := PollOn(start, pieces);
        pieces := pieces + got;
        if r.Some? {
          all := all + r.value;
        }
      }
      if Fits(Joined(pieces), maxReadBytes) {
        ReadsAreLines(pieces, maxReadBytes);
      }
    }

    /** The same file is still at the path and has not shrunk, and the tailer
        already knows where it is in it. */
    ghost predicate Steady(file: File?, started: bool, offset: nat)
      reads this, path, path.live
    {
      started && path.live != null && (file == path.live || file == null) && offset <= |path.live.content|
    }
  }
}
