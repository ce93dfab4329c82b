/**
 The streaming loop of `worker/copilot-inference-response.ts`: one fixed buffer, a cursor into the chunk at hand and the
 scanner's place, carried from chunk to chunk.
 */
module SseSplitter {
  import opened Basics
  import opened SseFrames

  datatype Scan = More | Whole | Broken
  datatype Input = Chunk | End | Failed

  class Splitter {
    const buffer: array<bv8>
    var used: nat
    var place: Place
    var pending: Bytes
    var pendingOffset: nat

    ghost predicate Shape()
      reads this
    {
      buffer.Length == FRAME_LIMIT && used <= FRAME_LIMIT && pendingOffset <= |pending|
    }

    ghost predicate Valid()
      reads this, buffer
    {
      Shape() && (place.boundaryCR ==> used > 0 && buffer[used - 1] == CR)
    }

    ghost function Buffered(): Bytes
      requires Shape()
      reads this, buffer
    {
      buffer[..used]
    }

    /** What is still to be read, given what follows the chunk at hand. */
    ghost function Rest(after: Bytes): Bytes
      requires Shape()
      reads this
    {
      pending[pendingOffset..] + after
    }

    constructor ()
      ensures Valid() && fresh(buffer) && used == 0 && place == START && pending == []
    {
      buffer := new bv8[FRAME_LIMIT];
      used, place, pending, pendingOffset := 0, START, [], 0;
    }

    /** Puts the byte under the cursor into the buffer. */
    method Store(ghost after: Bytes) returns (ok: bool)
      requires Shape() && pendingOffset < |pending|
      modifies this`used, this`pendingOffset, buffer
      ensures Shape() && ok == (old(used) < FRAME_LIMIT)
      ensures ok ==> Buffered() == old(Buffered()) + [pending[old(pendingOffset)]] && Rest(after) == old(Rest(after))[1..]
      ensures !ok ==> used == old(used) && pendingOffset == old(pendingOffset) && buffer[..] == old(buffer[..])
    {
      if used == buffer.Length { return false; }
      buffer[used] := pending[pendingOffset];
      used, pendingOffset := used + 1, pendingOffset + 1;
      assert pending[old(pendingOffset)..] == [pending[old(pendingOffset)]] + pending[pendingOffset..];
      ok := true;
    }

    /** Scans the chunk to the end of the current block, or to its own end. */
    method ScanChunk(ghost after: Bytes) returns (r: Scan)
      requires Valid()
      modifies this`used, this`pendingOffset, this`place, buffer
      ensures Valid()
      ensures r.More? ==> pendingOffset == |pending| && Pending(place, Buffered(), after) == old(Pending(place, Buffered(), Rest(after)))
      ensures r.Whole? ==>
                && place == START
                && old(Pending(place, Buffered(), Rest(after))) == Split([Buffered()] + Frames(Rest(after)).frames, Frames(Rest(after)).tail)
      ensures r.Whole? ==> pendingOffset > old(pendingOffset) || old(place.boundaryCR)
      ensures r.Whole? ==> pendingOffset < |pending| || (used > 0 && buffer[used - 1] == LF)
      ensures r.More? ==> if old(pendingOffset) < |pending| then used > 0 else used == old(used)
      ensures pendingOffset >= old(pendingOffset) && (r.More? && old(pendingOffset) == |pending| ==> place == old(place))
      ensures r.Broken? ==> Blocked(old(Pending(place, Buffered(), Rest(after))))
    {
      hide Pending, Frames, Left, Advance, Completes;
      while pendingOffset < |pending|
        invariant Valid() && Pending(place, Buffered(), Rest(after)) == old(Pending(place, Buffered(), Rest(after)))
        invariant pendingOffset >= old(pendingOffset) && (pendingOffset == old(pendingOffset) ==> place == old(place))
        invariant if pendingOffset > old(pendingOffset) then used > 0 else used == old(used)
        decreases |pending| - pendingOffset
      {
        assert Rest(after)[0] == pending[pendingOffset];
        if place.boundaryCR {
          BoundaryStep(place, Buffered(), Rest(after));
          if pending[pendingOffset] == LF {
            Overlong(place, Buffered(), Rest(after));
            var ok := Store(after);
            if !ok { return Broken; }
          }
          place := START;
          return Whole;
        }
        r := ScanByte(after);
        if !r.More? { return; }
      }
      assert Rest(after) == after;
      r := More;
    }

    /** One byte that is not the second half of a boundary. */
    method ScanByte(ghost after: Bytes) returns (r: Scan)
      requires Valid() && pendingOffset < |pending| && !place.boundaryCR
      modifies this`used, this`pendingOffset, this`place, buffer
      ensures Valid()
      ensures if r.Broken? then pendingOffset == old(pendingOffset) else pendingOffset == old(pendingOffset) + 1 && used > 0
      ensures r.More? ==> Pending(place, Buffered(), Rest(after)) == old(Pending(place, Buffered(), Rest(after)))
      ensures r.Whole? ==>
                && place == START && buffer[used - 1] == LF
                && old(Pending(place, Buffered(), Rest(after))) == Split([Buffered()] + Frames(Rest(after)).frames, Frames(Rest(after)).tail)
      ensures r.Broken? ==> Blocked(old(Pending(place, Buffered(), Rest(after))))
    {
      hide Pending, Frames, Left;
      assert Rest(after)[0] == pending[pendingOffset];
      var byte := pending[pendingOffset];
      Overlong(Advance(place, byte), Buffered() + [byte], Rest(after)[1..]);
      PendingStep(place, Buffered(), Rest(after));
      var ok := Store(after);
      if !ok { return Broken; }
      assert buffer[used - 1] == Buffered()[used - 1] == byte;
      if place.skipLF && byte == LF {
        place := place.(skipLF := false);
      } else if byte == CR || byte == LF {
        if place.lineSize == 0 && byte == LF {
          place := START;
          return Whole;
        }
        place := Place(0, byte == CR, byte == CR && place.lineSize == 0);
      } else {
        place := Place(place.lineSize + 1, false, false);
      }
      r := More;
    }

    /** Releases the buffered block in windows, and empties the buffer. */
    method Release() returns (windows: seq<Bytes>)
      requires Shape()
      modifies this`used
      ensures Shape() && used == 0 && Concat(windows) == old(Buffered())
      ensures forall i :: 0 <= i < |windows| ==> 0 < |windows[i]| <= WINDOW
    {
      var offset := 0;
      windows := [];
      while offset < used
        invariant offset <= used == old(used) && Concat(windows) == buffer[..offset]
        invariant forall i :: 0 <= i < |windows| ==> 0 < |windows[i]| <= WINDOW
      {
        var end := if used < offset + WINDOW then used else offset + WINDOW;
        ConcatAppend(windows, buffer[offset..end]);
        windows := windows + [buffer[offset..end]];
        offset := end;
      }
      used := 0;
    }

    /** What is left of the stream, after the blocks already released. */
    ghost predicate Going(stream: Bytes, done: seq<Bytes>, after: Bytes)
      requires Shape()
      reads this, buffer
    {
      Frames(stream) == Prepend(done, Pending(place, Buffered(), Rest(after)))
    }

    /** One turn: scan on, and if that completes a block, validate, qualify and release it. */
    method Turn(c: Checks, index: nat, eof: bool, ghost stream: Bytes, ghost done: seq<Bytes>, ghost after: Bytes)
        returns (r: Scan, windows: seq<Bytes>, ghost frame: Bytes)
      requires Valid() && Going(stream, done, after) && AllGood(c, done, 0) && index == |done| && (eof ==> after == [])
      modifies this`used, this`pendingOffset, this`place, buffer
      ensures Valid() && pendingOffset >= old(pendingOffset)
      ensures r.More? ==> Going(stream, done, after) && pendingOffset == |pending| && !(eof && place.boundaryCR)
      ensures r.More? ==> used > 0 || (used == old(used) && old(pendingOffset) == |pending|)
      ensures r.More? && old(pendingOffset) == |pending| ==> place == old(place)
      ensures r.Whole? ==> Going(stream, done + [frame], after) && AllGood(c, done + [frame], 0) && Concat(windows) == frame && place == START
      ensures r.Whole? && !eof ==> pendingOffset < |pending| || Shut(done + [frame])
      ensures r.Whole? ==> pendingOffset > old(pendingOffset) || old(place.boundaryCR) || pendingOffset == |pending|
      ensures r.Whole? && old(pendingOffset) == |pending| ==> old(place.boundaryCR)
      ensures forall i :: 0 <= i < |windows| ==> 0 < |windows[i]| <= WINDOW
      ensures r.Broken? ==> forall ended :: Passed(c, Completed(stream, ended), 0) == done
      ensures r.Broken? ==> forall announced :: !Closes(c, stream, announced)
    {
      hide Pending, Frames, Passed, Completed, Left, Concat, AllGood, Closes, Advance, Completes, Blocked, Prepend;
      windows, frame := [], [];
      ghost var before := Pending(place, Buffered(), Rest(after));
      r := ScanChunk(after);
      if r.Broken? {
        forall ended ensures Passed(c, Completed(stream, ended), 0) == done { Stops(c, stream, done, before, ended); }
        Stops(c, stream, done, before, true);
        return;
      }
      if r.More? { assert Rest(after) == after; }
      if r.More? && eof && place.boundaryCR {
        BoundaryStep(place, Buffered(), after);
        place := START;
        r := Whole;
        assert Rest(after) == after;
      }
      if r.Whole? {
        frame := Buffered();
        ghost var rest := Frames(Rest(after));
        assert before == Split([frame] + rest.frames, rest.tail);
        assert !eof ==> pendingOffset < |pending| || (frame != [] && frame[|frame| - 1] == LF);
        if !c.valid(buffer[..used]) || !c.qualified(index) {
          forall ended ensures Passed(c, Completed(stream, ended), 0) == done { Stops(c, stream, done, before, ended); }
          Stops(c, stream, done, before, true);
          return Broken, [], frame;
        }
        windows := Release();
        GoesOn(c, stream, done, frame, Rest(after));
        assert Buffered() == [];
        assert (done + [frame])[|done|] == frame;
      }
    }

    /** The whole response: the windows sent downstream, and whether it closed normally. */
    method Deliver(chunks: seq<Bytes>, c: Checks, announced: Option<nat>) returns (out: seq<Bytes>, closed: bool)
      requires Valid() && used == 0 && place == START && pending == []
      modifies this, buffer
      ensures Concat(out) == Concat(Outcome(c, chunks, announced).released) && closed == Outcome(c, chunks, announced).closed
      ensures closed <==> InBudget(c, chunks) && Closes(c, Concat(chunks), announced) && c.closable
      ensures closed ==> Concat(out) == Concat(chunks)
      ensures forall i :: 0 <= i < |out| ==> 0 < |out[i]| <= WINDOW
    {
      hide Pending, Frames, Passed, Completed, Left, Concat, AllGood, Closes, Advance, Completes, Blocked, Prepend, Shut, InBudget, ReadFrom, Readable;
      ghost var last := ReadFrom(c, chunks, 0, 0);
      ghost var stream := Seen(c, chunks);
      BudgetMeans(c, chunks);
      Begins(c, stream);
      ShutNothing();
      var k: nat, size: nat, index: nat, eof := 0, 0, 0, false;
      ghost var done: seq<Bytes> := [];
      out := [];
      assert chunks[0..last] == chunks[..last] && Rest(stream) == stream && Buffered() == [];
      while true
        invariant Valid() && k <= last <= |chunks| && ReadFrom(c, chunks, k, size) == last && size + |Concat(chunks[k..last])| == |stream|
        invariant eof ==> FindsEnd(c, chunks) && k == last == |chunks|
        invariant Going(stream, done, Concat(chunks[k..last])) && index == |done|
        invariant AllGood(c, done, 0) && Concat(out) == Concat(done)
        invariant !eof && used == 0 && pendingOffset == |pending| ==> Shut(done)
        invariant forall i :: 0 <= i < |out| ==> 0 < |out[i]| <= WINDOW
        decreases !eof, |chunks| - k, |pending| - pendingOffset, place.boundaryCR
      {
        ghost var after := Concat(chunks[k..last]);
        if k == last { assert chunks[k..last] == []; Begins(c, stream); }
        var r, windows;
        ghost var frame;
        r, windows, frame := Turn(c, index, eof, stream, done, after);
        if r.Broken? { return out, false; }
        if r.Whole? {
          ConcatSplit(out, windows);
          ConcatAppend(done, frame);
          out, index := out + windows, index + 1;
          done := done + [frame];
        } else if eof {
          assert Rest(after) == [];
          AtEnd(place, Buffered());
          Ends(c, stream, announced, done, Buffered());
          if used > 0 || size == 0 || (announced.Some? && announced.value != size) || !c.closable { return out, false; }
          CloseIsLossless(c, stream, announced);
          return out, true;
        } else {
          assert Rest(after) == after;
          if k < last { ConcatWindow(chunks, k, last); }
          var input := Read(c, chunks, k, size, last);
          if input.Failed? {
            GivenUp(c, stream, done, place, Buffered());
            return out, false;
          }
          if input.Chunk? {
            size, k := size + |chunks[k]|, k + 1;
            assert Rest(Concat(chunks[k..last])) == after;
          } else {
            eof := true;
            assert Rest(after) == after;
          }
        }
      }
    }

    /** One read; the one that finds the end counts like any other. */
    method Read(c: Checks, chunks: seq<Bytes>, k: nat, size: nat, ghost last: nat) returns (r: Input)
      requires Valid() && pendingOffset == |pending| && k <= |chunks| && ReadFrom(c, chunks, k, size) == last
      modifies this`pending, this`pendingOffset
      ensures Valid() && used == old(used) && place == old(place)
      ensures r.Chunk? ==> k < last && pending == chunks[k] && pendingOffset == 0 && ReadFrom(c, chunks, k + 1, size + |chunks[k]|) == last
      ensures r.End? ==> k == last == |chunks| < READ_LIMIT && c.readable(k) && pending == [] && pendingOffset == 0
      ensures r.Failed? ==> k == last && (k < |chunks| || k >= READ_LIMIT || !c.readable(k)) && pending == old(pending) && pendingOffset == old(pendingOffset)
    {
      if k >= READ_LIMIT || !c.readable(k) { return Failed; }
      if k == |chunks| {
        pending, pendingOffset := [], 0;
        return End;
      }
      if |chunks[k]| > WINDOW || |chunks[k]| > SIZE_LIMIT - size { return Failed; }
      pending, pendingOffset := chunks[k], 0;
      r := Chunk;
    }
  }

  lemma ShutNothing()
    ensures Shut([])
  {}

  lemma ConcatWindow(parts: seq<Bytes>, k: nat, last: nat)
    requires k < last <= |parts|
    ensures Concat(parts[k..last]) == parts[k] + Concat(parts[k + 1..last])
  {
    assert parts[k..last][1..] == parts[k + 1..last];
  }
}
