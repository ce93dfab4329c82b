/**
 Event-stream framing of `worker/copilot-inference-response.ts`: an inference stream is cut into blocks that end with a
 blank line, where a line ends with CR, LF or CRLF (section 9.2.5 of the WHATWG HTML standard). A block is released only
 whole and validated.
 */
module SseFrames {
  import opened Basics

  type Bytes = seq<bv8>

  const CR: bv8 := 13
  const LF: bv8 := 10

  const FRAME_LIMIT: nat := 65536
  const WINDOW: nat := 16384

  // ----- The blocks of a stream, by the standard

  predicate StartsWith(t: Bytes, b: bv8) {
    t != [] && t[0] == b
  }

  /** The length of the first line with its ending; CRLF is one ending. */
  function LineLength(t: Bytes): (n: Option<nat>)
    ensures n.Some? ==> 0 < n.value <= |t|
  {
    if t == [] then None
    else if t[0] == LF then Some(1)
    else if t[0] == CR then Some(if StartsWith(t[1..], LF) then 2 else 1)
    else
      var rest := LineLength(t[1..]);
      if rest.None? then None else Some(1 + rest.value)
  }

  predicate BlankLine(t: Bytes) {
    StartsWith(t, LF) || StartsWith(t, CR)
  }

  /** The length of the first block: lines up to and including a blank one. */
  function BlockLength(t: Bytes): (n: Option<nat>)
    ensures n.Some? ==> 0 < n.value <= |t|
    decreases |t|
  {
    var line := LineLength(t);
    if line.None? then None
    else if BlankLine(t) then line
    else
      var rest := BlockLength(t[line.value..]);
      if rest.None? then None else Some(line.value + rest.value)
  }

  datatype Split = Split(frames: seq<Bytes>, tail: Bytes)

  function Frames(t: Bytes): Split
    decreases |t|
  {
    var n := BlockLength(t);
    if n.None? then Split([], t)
    else
      var rest := Frames(t[n.value..]);
      Split([t[..n.value]] + rest.frames, rest.tail)
  }

  /** Nothing is lost: the blocks and the tail are the stream. */
  lemma {:induction false} Lossless(t: Bytes)
    ensures Concat(Frames(t).frames) + Frames(t).tail == t
    decreases |t|
  {
    var n := BlockLength(t);
    if n.Some? {
      var rest := t[n.value..];
      Lossless(rest);
      assert Frames(t).frames[1..] == Frames(rest).frames;
      assert t == t[..n.value] + rest;
    }
  }

  /** A block holds exactly one blank line, at its end: no shorter prefix of it is a block. */
  lemma {:induction false} NoBlockInside(t: Bytes, k: nat)
    requires BlockLength(t).Some? && k < BlockLength(t).value && !(t[k] == LF && k > 0 && t[k - 1] == CR)
    ensures BlockLength(t[..k]).None?
    decreases |t|
  {
    var line := LineLength(t).value;
    LinePrefix(t, k);
    if BlankLine(t) {
      assert k == 0;
    } else if k >= line {
      var rest := t[line..];
      assert t[..k][line..] == rest[..k - line];
      assert k > line ==> t[k] == rest[k - line] && t[k - 1] == rest[k - line - 1];
      NoBlockInside(rest, k - line);
    }
  }

  /** A line is read alike from every prefix that does not cut it, or cut its CRLF. */
  lemma {:induction false} LinePrefix(t: Bytes, k: nat)
    requires LineLength(t).Some? && k <= |t| && !(0 < k < |t| && t[k] == LF && t[k - 1] == CR)
    ensures k >= LineLength(t).value ==> LineLength(t[..k]) == LineLength(t)
    ensures k < LineLength(t).value ==> LineLength(t[..k]).None?
  {
    if k > 0 {
      assert t[..k][1..] == t[1..][..k - 1];
      if t[0] != LF && t[0] != CR {
        assert 1 < k < |t| ==> t[k] == t[1..][k - 1] && t[k - 1] == t[1..][k - 2];
        LinePrefix(t[1..], k - 1);
      }
    }
  }

  // ----- What is released of a stream

  /** The verdicts a stream meets: on the text of a block, on the caller's right to go on after the i-th block, on the i-th
      read, and on the caller's right to close. */
  datatype Checks = Checks(valid: Bytes -> bool, qualified: nat -> bool, readable: nat -> bool, closable: bool)

  predicate Good(c: Checks, i: nat, frame: Bytes) {
    |frame| <= FRAME_LIMIT && c.valid(frame) && c.qualified(i)
  }

  /** The blocks before the first one that is too long, not valid or not qualified; `from` blocks come before them. */
  function Passed(c: Checks, frames: seq<Bytes>, from: nat): seq<Bytes> {
    if frames == [] || !Good(c, from, frames[0]) then [] else [frames[0]] + Passed(c, frames[1..], from + 1)
  }

  predicate AllGood(c: Checks, frames: seq<Bytes>, from: nat) {
    forall i :: 0 <= i < |frames| ==> Good(c, from + i, frames[i])
  }

  lemma {:induction false} PassedStop(c: Checks, done: seq<Bytes>, more: seq<Bytes>, from: nat)
    requires AllGood(c, done, from) && (more == [] || !Good(c, from + |done|, more[0]))
    ensures Passed(c, done + more, from) == done
  {
    if done == [] {
      assert done + more == more;
    } else {
      assert Good(c, from, done[0]);
      forall i | 0 <= i < |done| - 1 ensures Good(c, from + 1 + i, done[1..][i]) { assert Good(c, from + (i + 1), done[i + 1]); }
      PassedStop(c, done[1..], more, from + 1);
      assert (done + more)[1..] == done[1..] + more;
    }
  }

  /** The content closes normally: it is not empty, has the announced length, and is made of good blocks only. */
  predicate Closes(c: Checks, t: Bytes, announced: Option<nat>) {
    t != [] && Frames(t).tail == [] && AllGood(c, Frames(t).frames, 0) && (announced.Some? ==> announced.value == |t|)
  }

  /** On a normal close the output is the input. */
  lemma CloseIsLossless(c: Checks, t: Bytes, announced: Option<nat>)
    requires Closes(c, t, announced)
    ensures Concat(Passed(c, Completed(t, true), 0)) == t
  {
    PassedStop(c, Frames(t).frames, [], 0);
    assert Frames(t).frames + [] == Frames(t).frames;
    Lossless(t);
  }

  // ----- The budgets of the reader

  const READ_LIMIT: nat := 8192
  const SIZE_LIMIT: nat := 32 * 1024 * 1024

  /** The next chunk can be read after `k` reads of `size` bytes. */
  predicate Readable(c: Checks, chunks: seq<Bytes>, k: nat, size: nat) {
    k < READ_LIMIT && c.readable(k) && k < |chunks| && |chunks[k]| <= WINDOW && size + |chunks[k]| <= SIZE_LIMIT
  }

  /** How many chunks are read before the end, or before a budget or a failure ends the stream. */
  function ReadFrom(c: Checks, chunks: seq<Bytes>, k: nat, size: nat): (n: nat)
    requires k <= |chunks|
    ensures k <= n <= |chunks|
    decreases |chunks| - k
  {
    if Readable(c, chunks, k, size) then ReadFrom(c, chunks, k + 1, size + |chunks[k]|) else k
  }

  /** The bytes that are read. */
  function Seen(c: Checks, chunks: seq<Bytes>): Bytes {
    Concat(chunks[..ReadFrom(c, chunks, 0, 0)])
  }

  /** Every read succeeds, the one that finds the end included. */
  predicate InBudget(c: Checks, chunks: seq<Bytes>) {
    && |chunks| < READ_LIMIT && |Concat(chunks)| <= SIZE_LIMIT
    && (forall i :: 0 <= i <= |chunks| ==> c.readable(i)) && (forall i :: 0 <= i < |chunks| ==> |chunks[i]| <= WINDOW)
  }

  /** The end of the stream is found. */
  predicate FindsEnd(c: Checks, chunks: seq<Bytes>) {
    ReadFrom(c, chunks, 0, 0) == |chunks| && |chunks| < READ_LIMIT && c.readable(|chunks|)
  }

  lemma {:induction false} ReadAll(c: Checks, chunks: seq<Bytes>, k: nat, size: nat)
    requires k <= |chunks| <= READ_LIMIT
    ensures ReadFrom(c, chunks, k, size) == |chunks| <==>
              && (k < |chunks| ==> size + |Concat(chunks[k..])| <= SIZE_LIMIT)
              && (forall i :: k <= i < |chunks| ==> c.readable(i) && |chunks[i]| <= WINDOW)
    decreases |chunks| - k
  {
    if k < |chunks| {
      ConcatTake(chunks, k);
      if Readable(c, chunks, k, size) {
        ReadAll(c, chunks, k + 1, size + |chunks[k]|);
        if k + 1 == |chunks| { assert chunks[k + 1..] == []; }
      }
    }
  }

  /** The end is found exactly within the budgets, and then everything has been read. */
  lemma BudgetMeans(c: Checks, chunks: seq<Bytes>)
    ensures FindsEnd(c, chunks) <==> InBudget(c, chunks)
    ensures InBudget(c, chunks) ==> Seen(c, chunks) == Concat(chunks)
  {
    assert chunks[0..] == chunks && chunks[..|chunks|] == chunks;
    if |chunks| < READ_LIMIT { ReadAll(c, chunks, 0, 0); }
    if chunks == [] { assert Concat<bv8>([]) == []; }
  }

  lemma ConcatTake(parts: seq<Bytes>, k: nat)
    requires k < |parts|
    ensures Concat(parts[k..]) == parts[k] + Concat(parts[k + 1..])
  {
    assert parts[k..][1..] == parts[k + 1..];
  }

  /** The last block ends with a CR that the next byte could still extend. */
  predicate EndsOpen(t: Bytes) {
    t != [] && t[|t| - 1] == CR && Frames(t).tail == [] && Frames(t).frames != []
  }

  /** The blocks that the bytes read so far complete; at the end of the stream an open one is complete too. */
  function Completed(t: Bytes, ended: bool): seq<Bytes> {
    var frames := Frames(t).frames;
    if !ended && EndsOpen(t) then frames[..|frames| - 1] else frames
  }

  /** What a response comes to. */
  datatype Delivery = Delivery(released: seq<Bytes>, closed: bool)

  function Outcome(c: Checks, chunks: seq<Bytes>, announced: Option<nat>): Delivery {
    Delivery(Passed(c, Completed(Seen(c, chunks), FindsEnd(c, chunks)), 0),
             InBudget(c, chunks) && Closes(c, Concat(chunks), announced) && c.closable)
  }

  /** Within the budgets only the bytes matter, not how they are cut. */
  lemma ChunkingIsIrrelevant(c: Checks, a: seq<Bytes>, b: seq<Bytes>, announced: Option<nat>)
    requires Concat(a) == Concat(b) && InBudget(c, a) && InBudget(c, b)
    ensures Outcome(c, a, announced) == Outcome(c, b, announced)
  {
    BudgetMeans(c, a);
    BudgetMeans(c, b);
  }

  /** Beyond them it does matter: the same good stream closes in one read and fails in 8192 reads of one byte. */
  lemma ReadsAreCounted(c: Checks, n: nat)
    requires n == READ_LIMIT && c.closable
    requires (forall i :: c.readable(i)) && (forall i :: c.qualified(i)) && c.valid([LF])
    ensures var whole, bytes := [seq(n, _ => LF)], seq(n, _ => [LF]);
            Concat(whole) == Concat(bytes) && Outcome(c, whole, None).closed && !Outcome(c, bytes, None).closed
  {
    var t := seq(n, _ => LF);
    OneByteEach(n);
    assert [t][1..] == [] && Concat([t]) == t + Concat<bv8>([]);
    BlankLines(n);
  }

  lemma {:induction false} OneByteEach(n: nat)
    ensures Concat(seq(n, _ => [LF])) == seq(n, _ => LF)
  {
    if n > 0 {
      OneByteEach(n - 1);
      assert seq(n, _ => [LF])[1..] == seq(n - 1, _ => [LF]);
      assert [LF] + seq(n - 1, _ => LF) == seq(n, _ => LF);
    }
  }

  lemma {:induction false} BlankLines(n: nat)
    ensures var t := seq(n, _ => LF); Frames(t) == Split(seq(n, _ => [LF]), [])
  {
    var t := seq(n, _ => LF);
    if n > 0 {
      BlankLines(n - 1);
      assert LineLength(t) == Some(1) && BlankLine(t) && BlockLength(t) == Some(1);
      assert t[1..] == seq(n - 1, _ => LF) && t[..1] == [LF];
      assert [[LF]] + seq(n - 1, _ => [LF]) == seq(n, _ => [LF]);
    }
  }

  // ----- The scanner's place in a block

  datatype Place = Place(lineSize: nat, skipLF: bool, boundaryCR: bool)

  const START := Place(0, false, false)

  /** How much of `t` still belongs to the current line and block, when the line already has `size` bytes. */
  function Remaining(size: nat, t: Bytes): (n: Option<nat>)
    ensures n.Some? ==> n.value <= |t|
  {
    if size == 0 then BlockLength(t)
    else
      var line := LineLength(t);
      if line.None? then None
      else
        var rest := BlockLength(t[line.value..]);
        if rest.None? then None else Some(line.value + rest.value)
  }

  function Left(p: Place, t: Bytes): (n: Option<nat>)
    ensures n.Some? ==> n.value <= |t|
  {
    if p.boundaryCR then Some(if StartsWith(t, LF) then 1 else 0)
    else if p.skipLF && StartsWith(t, LF) then
      var rest := Remaining(p.lineSize, t[1..]);
      if rest.None? then None else Some(1 + rest.value)
    else Remaining(p.lineSize, t)
  }

  /** The blocks of what is buffered followed by `t`. */
  function Pending(p: Place, buffered: Bytes, t: Bytes): Split {
    var n := Left(p, t);
    if n.None? then Split([], buffered + t)
    else
      var rest := Frames(t[n.value..]);
      Split([buffered + t[..n.value]] + rest.frames, rest.tail)
  }

  lemma StartsFresh(t: Bytes)
    ensures Pending(START, [], t) == Frames(t)
  {
    assert [] + t == t;
    if BlockLength(t).Some? { assert [] + t[..BlockLength(t).value] == t[..BlockLength(t).value]; }
  }

  /** The place after one more byte that does not complete the block. */
  function Advance(p: Place, b: bv8): Place {
    if p.skipLF && b == LF then p.(skipLF := false)
    else if b == CR then Place(0, true, p.lineSize == 0)
    else if b == LF then Place(0, false, false)
    else Place(p.lineSize + 1, false, false)
  }

  predicate Completes(p: Place, b: bv8) {
    !(p.skipLF && b == LF) && b == LF && p.lineSize == 0
  }

  lemma LeftStep(p: Place, t: Bytes)
    requires t != [] && !p.boundaryCR
    ensures Completes(p, t[0]) ==> Left(p, t) == Some(1)
    ensures !Completes(p, t[0]) ==>
              var rest := Left(Advance(p, t[0]), t[1..]);
              Left(p, t) == if rest.None? then None else Some(1 + rest.value)
  {
    var u := t[1..];
    if !(p.skipLF && t[0] == LF) {
      if t[0] == CR {
        if StartsWith(u, LF) { assert t[2..] == u[1..]; }
      } else if t[0] != LF {
        var line := LineLength(u);
        if line.Some? { assert t[1 + line.value..] == u[line.value..]; }
      }
    }
  }

  lemma PendingStep(p: Place, buffered: Bytes, t: Bytes)
    requires t != [] && !p.boundaryCR
    ensures !Completes(p, t[0]) ==> Pending(p, buffered, t) == Pending(Advance(p, t[0]), buffered + [t[0]], t[1..])
    ensures Completes(p, t[0]) ==> Pending(p, buffered, t) == Split([buffered + [t[0]]] + Frames(t[1..]).frames, Frames(t[1..]).tail)
  {
    hide Frames, Left;
    LeftStep(p, t);
    var n := Left(p, t);
    if n.None? {
      assert buffered + t == buffered + [t[0]] + t[1..];
    } else {
      var k := n.value;
      assert t[..1] == [t[0]];
      assert t[k..] == t[1..][k - 1..];
      assert buffered + t[..k] == buffered + [t[0]] + t[1..][..k - 1];
    }
  }

  lemma BoundaryStep(p: Place, buffered: Bytes, t: Bytes)
    requires p.boundaryCR
    ensures StartsWith(t, LF) ==> Pending(p, buffered, t) == Split([buffered + [LF]] + Frames(t[1..]).frames, Frames(t[1..]).tail)
    ensures !StartsWith(t, LF) ==> Pending(p, buffered, t) == Split([buffered] + Frames(t).frames, Frames(t).tail)
  {
    assert t[0..] == t && buffered + t[..0] == buffered;
    if StartsWith(t, LF) { assert t[..1] == [LF]; }
  }

  /** What is buffered is part of the first block, or of the tail. */
  lemma Overlong(p: Place, buffered: Bytes, t: Bytes)
    ensures var s := Pending(p, buffered, t);
            if s.frames == [] then |s.tail| == |buffered| + |t| else |s.frames[0]| >= |buffered| && s.frames[0][..|buffered|] == buffered
  {}

  /** The first block, or the tail when there is none, is longer than a block may be. */
  predicate Blocked(s: Split) {
    if s.frames == [] then |s.tail| > FRAME_LIMIT else |s.frames[0]| > FRAME_LIMIT
  }

  function Prepend(done: seq<Bytes>, s: Split): Split {
    Split(done + s.frames, s.tail)
  }

  /** A stream that cannot go on past `done`, whether or not its end is known. */
  lemma Stops(c: Checks, t: Bytes, done: seq<Bytes>, s: Split, ended: bool)
    requires Frames(t) == Prepend(done, s) && AllGood(c, done, 0)
    requires Blocked(s) || (s.frames != [] && !Good(c, |done|, s.frames[0]))
    ensures Passed(c, Completed(t, ended), 0) == done
    ensures forall announced :: !Closes(c, t, announced)
  {
    hide Frames;
    var more := if !ended && EndsOpen(t) && s.frames != [] then s.frames[..|s.frames| - 1] else s.frames;
    PassedStop(c, done, more, 0);
    if s.frames != [] {
      assert (done + s.frames)[|done|] == s.frames[0];
      assert !ended && EndsOpen(t) ==> (done + s.frames)[..|done + s.frames| - 1] == done + more;
    }
  }

  lemma AtEnd(p: Place, buffered: Bytes)
    requires !p.boundaryCR
    ensures Pending(p, buffered, []) == Split([], buffered)
  {
    assert buffered + [] == buffered;
  }

  /** A stream that is read to its end. */
  lemma Ends(c: Checks, t: Bytes, announced: Option<nat>, done: seq<Bytes>, tail: Bytes)
    requires Frames(t) == Prepend(done, Split([], tail)) && AllGood(c, done, 0)
    ensures Passed(c, Completed(t, true), 0) == done
    ensures Closes(c, t, announced) <==> t != [] && tail == [] && (announced.Some? ==> announced.value == |t|)
  {
    hide Frames;
    PassedStop(c, done, [], 0);
    assert done + [] == done;
  }

  /** Every released block so far was closed by its own last byte, or by a byte that is held back. */
  predicate Shut(done: seq<Bytes>) {
    done == [] || (done[|done| - 1] != [] && done[|done| - 1][|done[|done| - 1]| - 1] == LF)
  }

  /** A stream that is given up before its end. */
  lemma GivenUp(c: Checks, t: Bytes, done: seq<Bytes>, p: Place, buffered: Bytes)
    requires Frames(t) == Prepend(done, Pending(p, buffered, [])) && AllGood(c, done, 0)
    requires p.boundaryCR ==> buffered != [] && buffered[|buffered| - 1] == CR
    requires buffered == [] ==> Shut(done)
    ensures Passed(c, Completed(t, false), 0) == done
  {
    hide Frames, Pending, Concat, Passed, AllGood;
    PassedStop(c, done, [], 0);
    assert done + [] == done;
    if p.boundaryCR {
      BoundaryStep(p, buffered, []);
      NoFrames();
      LastByte(t, done + [buffered]);
      assert (done + [buffered])[..|done|] == done;
    } else {
      AtEnd(p, buffered);
      if buffered == [] && done != [] { LastByte(t, done); }
    }
  }

  /** A stream without a tail ends with the last byte of its last block. */
  lemma LastByte(t: Bytes, frames: seq<Bytes>)
    requires Frames(t) == Split(frames, []) && frames != [] && frames[|frames| - 1] != []
    ensures t != [] && t[|t| - 1] == frames[|frames| - 1][|frames[|frames| - 1]| - 1]
  {
    hide Frames, Concat;
    var n := |frames| - 1;
    Lossless(t);
    assert frames == frames[..n] + [frames[n]];
    ConcatAppend(frames[..n], frames[n]);
    assert t == Concat(frames[..n]) + frames[n];
  }

  lemma NoFrames()
    ensures Frames([]) == Split([], [])
  {}

  /** Before anything is read. */
  lemma Begins(c: Checks, t: Bytes)
    ensures Frames(t) == Prepend([], Pending(START, [], t)) && AllGood(c, [], 0) && Concat<bv8>([]) == []
  {
    hide Frames, Pending;
    StartsFresh(t);
  }

  /** A good block is done with. */
  lemma GoesOn(c: Checks, t: Bytes, done: seq<Bytes>, frame: Bytes, rest: Bytes)
    requires AllGood(c, done, 0) && Good(c, |done|, frame)
    requires Frames(t) == Prepend(done, Split([frame] + Frames(rest).frames, Frames(rest).tail))
    ensures AllGood(c, done + [frame], 0) && Frames(t) == Prepend(done + [frame], Pending(START, [], rest))
  {
    hide Frames, Pending;
    StartsFresh(rest);
    assert done + ([frame] + Frames(rest).frames) == done + [frame] + Frames(rest).frames;
    forall i | 0 <= i < |done| + 1 ensures Good(c, i, (done + [frame])[i]) {
      if i < |done| { assert Good(c, 0 + i, done[i]); }
    }
  }

  // ----- What a line is

  /** The first CR or LF is at `k`. */
  predicate EndsAt(t: Bytes, k: nat) {
    k < |t| && (t[k] == CR || t[k] == LF) && forall i :: 0 <= i < k ==> t[i] != CR && t[i] != LF
  }

  /** Where the line that `k` ends is over: an LF right after a CR still belongs to it. */
  function OverAt(t: Bytes, k: nat): nat
    requires k < |t|
  {
    if t[k] == CR && k + 1 < |t| && t[k + 1] == LF then k + 2 else k + 1
  }

  /** A line is everything up to the first CR or LF, which ends it, together with an LF right after a CR. */
  lemma {:induction false} LineMeans(t: Bytes)
    ensures LineLength(t).Some? <==> exists k: nat :: EndsAt(t, k)
    ensures forall k: nat :: EndsAt(t, k) ==> LineLength(t) == Some(OverAt(t, k))
  {
    if t != [] && t[0] != CR && t[0] != LF {
      var u := t[1..];
      LineMeans(u);
      forall k: nat | EndsAt(t, k) ensures LineLength(t) == Some(OverAt(t, k)) && exists i: nat :: EndsAt(u, i) {
        assert k > 0 && u[k - 1] == t[k] && (k + 1 < |t| ==> u[k] == t[k + 1]);
        assert EndsAt(u, k - 1) by { assert forall i :: 0 <= i < k - 1 ==> u[i] == t[i + 1]; }
        assert LineLength(u) == Some(OverAt(u, k - 1)) && OverAt(t, k) == OverAt(u, k - 1) + 1;
      }
      if k: nat :| EndsAt(u, k) { assert EndsAt(t, k + 1); }
    } else if t != [] {
      assert EndsAt(t, 0);
      assert |t| > 1 ==> t[1..][0] == t[1];
    }
  }
}
