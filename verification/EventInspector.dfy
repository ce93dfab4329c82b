/**
 The incremental inspector of `worker/bedrock-eventstream.ts`: frames are reassembled in place from chunks of any size,
 checked and handed to a reader, until the reader or the stream itself ends the inspection.
 */
module EventInspector {
  import opened Basics
  import Crc
  import opened EventFrames
  import opened EventHeaders

  /** What a decoded frame does to the inspection: nothing, mark it failed, end it, or both. */
  datatype Verdict = Proceed | Fails | Halts | Breaks

  /** The reader of whole frames, which may depend on the frames before. */
  type Reader = (seq<Bytes>, Bytes) -> Verdict

  datatype Report = Report(frames: seq<Bytes>, stopped: bool, failed: bool, rest: Bytes)

  ghost function Judge(decode: TextDecoder, read: Reader, history: seq<Bytes>, frame: Bytes): Verdict {
    if SoundFrame(decode, frame) then read(history, frame) else Breaks
  }

  /** The inspection of a whole stream at once. */
  ghost function Walk(decode: TextDecoder, read: Reader, history: seq<Bytes>, s: Bytes): Report
    decreases |s|
  {
    if |s| < 12 then Report([], false, false, s)
    else if EventPrelude(s).None? then Report([], true, true, s)
    else
      var length := EventPrelude(s).value.length;
      if length > INSPECTION_LIMIT then Report([], true, false, s)
      else if |s| < length then Report([], false, false, s)
      else
        var frame := s[..length];
        var verdict := Judge(decode, read, history, frame);
        if verdict.Halts? || verdict.Breaks? then Report([frame], true, verdict.Breaks?, s[length..])
        else
          var more := Walk(decode, read, history + [frame], s[length..]);
          Report([frame] + more.frames, more.stopped, verdict.Fails? || more.failed, more.rest)
  }

  /** Until it is stopped, the inspection has seen exactly the frames of the stream. */
  lemma {:induction false} WalkSplits(decode: TextDecoder, read: Reader, history: seq<Bytes>, s: Bytes)
    ensures var w := Walk(decode, read, history, s);
            Concat(w.frames) + w.rest == s && (!w.stopped ==> IsSplit(w.frames, w.rest, s))
    decreases |s|
  {
    hide EventPrelude, Judge;
    var w := Walk(decode, read, history, s);
    if w.frames == [] {
      assert [] + w.rest == w.rest;
    } else {
      var length := EventPrelude(s).value.length;
      var frame := s[..length];
      LongEnough(s);
      assert frame[..12] == s[..12];
      PreludeOnly(frame, s);
      assert s == frame + s[length..];
      if Judge(decode, read, history, frame).Proceed? || Judge(decode, read, history, frame).Fails? {
        WalkSplits(decode, read, history + [frame], s[length..]);
        assert w.frames[1..] == Walk(decode, read, history + [frame], s[length..]).frames;
      } else {
        assert [frame][1..] == [];
      }
    }
  }

  lemma LongEnough(s: Bytes)
    requires EventPrelude(s).Some?
    ensures EventPrelude(s).value.length >= 16
  {}

  /** What happened before, then what `more` says. */
  function Joined(frames: seq<Bytes>, failed: bool, more: Report): Report {
    Report(frames + more.frames, more.stopped, failed || more.failed, more.rest)
  }

  class Inspector {
    const table: array<bv32>
    const prelude: array<Byte>
    var frame: array?<Byte>
    var offset: nat
    var stopped: bool
    var failed: bool
    var frames: seq<Bytes>

    ghost predicate Valid()
      reads this, table, prelude, frame
    {
      && Crc.IsTable(table) && prelude.Length == 12 && frame != prelude && (prelude as object) != table && (frame as object?) != table
      && (!stopped ==>
            if frame == null then offset < 12
            else 12 <= offset < frame.Length <= INSPECTION_LIMIT && EventPrelude(frame[..12]).Some? && EventPrelude(frame[..12]).value.length == frame.Length)
    }

    /** The bytes of the frame being assembled. */
    ghost function Held(): Bytes
      requires Valid() && !stopped
      reads this, table, prelude, frame
    {
      if frame == null then prelude[..offset] else frame[..offset]
    }

    /** The state is that of inspecting `s` whole. */
    ghost predicate Saw(decode: TextDecoder, read: Reader, s: Bytes)
      requires Valid()
      reads this, table, prelude, frame
    {
      var w := Walk(decode, read, [], s);
      frames == w.frames && stopped == w.stopped && failed == w.failed && (!stopped ==> Held() == w.rest)
    }

    constructor (ghost decode: TextDecoder, ghost read: Reader)
      ensures Valid() && Saw(decode, read, []) && fresh(prelude) && frame == null
    {
      var t := Crc.Table();
      table := t;
      prelude := new Byte[12];
      frame, offset, stopped, failed, frames := null, 0, false, false, [];
    }

    /** Copies bytes into the prelude or the frame. */
    method Fill(target: array<Byte>, bytes: Bytes, index: nat) returns (next: nat)
      requires offset <= target.Length && index <= |bytes| && (target as object) != this
      modifies this`offset, target
      ensures index <= next <= |bytes| && offset == old(offset) + (next - index) <= target.Length
      ensures next == |bytes| || offset == target.Length
      ensures target[..offset] == old(target[..offset]) + bytes[index..next]
    {
      var count := if target.Length - offset < |bytes| - index then target.Length - offset else |bytes| - index;
      forall i | 0 <= i < count { target[offset + i] := bytes[index + i]; }
      offset, next := offset + count, index + count;
      assert target[..offset] == old(target[..offset]) + bytes[index..next];
    }

    /** The checks and the reader's verdict on a whole frame. */
    method Consume(decode: TextDecoder, read: Reader)
      requires Crc.IsTable(table) && frame != null && !stopped
      modifies this
      ensures frame == null && offset == 0 && frames == old(frames) + [old(frame[..])]
      ensures var v := Judge(decode, read, old(frames), old(frame[..]));
              stopped == (v.Halts? || v.Breaks?) && failed == (old(failed) || v.Breaks? || v.Fails?)
    {
      hide SoundFrame;
      var headers, payload := DecodeFrame(table, decode, frame[..]);
      var verdict := if headers.None? then Breaks else read(frames, frame[..]);
      frames := frames + [frame[..]];
      frame, offset := null, 0;
      stopped := verdict.Halts? || verdict.Breaks?;
      failed := failed || verdict.Breaks? || verdict.Fails?;
    }

    /** What remains to be inspected, from the frame at hand on. */
    ghost predicate Owes(decode: TextDecoder, read: Reader, w: Report, rest: Bytes)
      requires Valid()
      reads this, table, prelude, frame
    {
      if stopped then frames == w.frames && w.stopped && failed == w.failed
      else w == Joined(frames, failed, Walk(decode, read, frames, Held() + rest))
    }

    /** Inspects one more chunk; the state depends on the bytes so far and not on how they were cut. */
    method Push(decode: TextDecoder, read: Reader, bytes: Bytes, ghost total: Bytes)
      requires Valid() && Saw(decode, read, total)
      modifies this, prelude, frame
      ensures Valid() && Saw(decode, read, total + bytes)
      ensures frame == null || frame == old(frame) || fresh(frame)
    {
      hide Walk, Crc.IsTable, EventPrelude, Joined;
      ghost var w := Walk(decode, read, [], total + bytes);
      WalkGoesOn(decode, read, [], total, bytes);
      var index := 0;
      ghost var given := frame;
      assert [] + frames == frames && bytes[0..] == bytes;
      while index < |bytes| && !stopped
        invariant index <= |bytes| && Valid() && Owes(decode, read, w, bytes[index..])
        invariant frame == null || frame == given || fresh(frame)
        decreases |bytes| - index, !stopped
      {
        if frame == null { index := TakePrelude(decode, read, bytes, index, w); }
        if frame != null { index := TakeFrame(decode, read, bytes, index, w); }
      }
      if !stopped {
        assert Held() + bytes[index..] == Held();
        HeldIsRest(decode, read);
        JoinedRest(frames, failed, Held());
      }
    }

    /** A whole stream, however it is cut into chunks. */
    method Inspect(decode: TextDecoder, read: Reader, chunks: seq<Bytes>)
      requires Valid() && Saw(decode, read, [])
      modifies this, prelude, frame
      ensures Valid() && Saw(decode, read, Concat(chunks))
    {
      hide Walk, Crc.IsTable, EventPrelude;
      ghost var given := frame;
      for k := 0 to |chunks|
        invariant Valid() && Saw(decode, read, Concat(chunks[..k]))
        invariant frame == null || frame == given || fresh(frame)
      {
        Push(decode, read, chunks[k], Concat(chunks[..k]));
        ConcatAppend(chunks[..k], chunks[k]);
        assert chunks[..k + 1] == chunks[..k] + [chunks[k]];
      }
      assert chunks[..|chunks|] == chunks;
    }

    /** `result`: a failure, a stream that ends inside a frame, or the messages' own error when no metadata was seen. */
    method Result(ended: bool, metadataSeen: bool, messagesFailed: bool) returns (providerError: bool)
      requires Valid()
      ensures providerError <==> failed || (ended && !stopped && (Held() != [] || (!metadataSeen && messagesFailed)))
    {
      if stopped || !ended { return failed; }
      if offset != 0 { return true; }
      providerError := failed || (!metadataSeen && messagesFailed);
    }

    /** What is held is not a whole frame. */
    lemma HeldIsRest(decode: TextDecoder, read: Reader)
      requires Valid() && !stopped
      ensures Walk(decode, read, frames, Held()) == Report([], false, false, Held())
    {
      hide Crc.IsTable, Judge;
      if frame != null { assert Held()[..12] == frame[..12]; PreludeOnly(Held(), frame[..12]); }
    }

    /** The part of a turn that fills the prelude and then makes room for its frame. */
    method TakePrelude(decode: TextDecoder, read: Reader, bytes: Bytes, index: nat, ghost w: Report) returns (next: nat)
      requires Valid() && index < |bytes| && !stopped && frame == null && Owes(decode, read, w, bytes[index..])
      modifies this, prelude
      ensures Valid() && index < next <= |bytes| && Owes(decode, read, w, bytes[next..])
      ensures frame == null || fresh(frame)
      ensures frame == null && !stopped ==> next == |bytes|
      ensures stopped ==> frame == null
    {
      hide Walk, EventPrelude;
      next := Fill(prelude, bytes, index);
      ghost var s := old(Held()) + bytes[index..];
      assert s == prelude[..offset] + bytes[next..];
      if offset < 12 { return; }
      assert prelude[..] == s[..12];
      WalkPrelude(decode, read, frames, s);
      assert frames + [] == frames;
      var head := prelude[..];
      var p := PreludeOf(table, head);
      if p.None? { stopped, failed := true, true; return; }
      if p.value.length > INSPECTION_LIMIT { stopped := true; return; }
      LongEnough(head);
      ghost var known: object := table;
      var room := new Byte[p.value.length];
      assert (room as object) != known;
      frame := room;
      forall i | 0 <= i < 12 { frame[i] := prelude[i]; }
      assert frame[..12] == head;
      assert Held() + bytes[next..] == s;
    }

    /** The part of a turn that fills the frame, and consumes it when it is whole. */
    method TakeFrame(decode: TextDecoder, read: Reader, bytes: Bytes, index: nat, ghost w: Report) returns (next: nat)
      requires Valid() && index <= |bytes| && !stopped && frame != null && Owes(decode, read, w, bytes[index..])
      modifies this, frame
      ensures Valid() && index <= next <= |bytes| && Owes(decode, read, w, bytes[next..])
      ensures frame == null || frame == old(frame)
      ensures index < |bytes| ==> index < next
    {
      hide Walk, EventPrelude, Judge;
      ghost var start := frame[..12];
      next := Fill(frame, bytes, index);
      ghost var s := old(Held()) + bytes[index..];
      assert s == frame[..offset] + bytes[next..];
      assert frame[..12] == start;
      if offset == frame.Length {
        ghost var f := frame[..];
        assert f == frame[..offset] && f[..12] == start;
        PreludeOnly(f, start);
        WalkFrame(decode, read, frames, f, bytes[next..]);
        JoinFrame(frames, failed, f, Walk(decode, read, frames + [f], bytes[next..]), Judge(decode, read, frames, f).Fails?);
        Consume(decode, read);
        assert [] + bytes[next..] == bytes[next..];
      }
    }
  }

  /** A stream whose first prelude ends the inspection. */
  lemma WalkPrelude(decode: TextDecoder, read: Reader, history: seq<Bytes>, s: Bytes)
    requires |s| >= 12
    ensures EventPrelude(s[..12]).None? ==> Walk(decode, read, history, s) == Report([], true, true, s)
    ensures EventPrelude(s[..12]).Some? && EventPrelude(s[..12]).value.length > INSPECTION_LIMIT ==> Walk(decode, read, history, s) == Report([], true, false, s)
  {
    hide EventPrelude;
    PreludeOnly(s, s[..12]);
  }

  /** A stream that starts with a whole frame. */
  lemma WalkFrame(decode: TextDecoder, read: Reader, history: seq<Bytes>, f: Bytes, rest: Bytes)
    requires Delimited(f) && 12 <= |f| <= INSPECTION_LIMIT
    ensures var v := Judge(decode, read, history, f);
            var more := Walk(decode, read, history + [f], rest);
            Walk(decode, read, history, f + rest) ==
              if v.Halts? || v.Breaks? then Report([f], true, v.Breaks?, rest)
              else Report([f] + more.frames, more.stopped, v.Fails? || more.failed, more.rest)
  {
    hide EventPrelude, Judge;
    assert (f + rest)[..12] == f[..12];
    PreludeOnly(f, f + rest);
    assert (f + rest)[..|f|] == f && (f + rest)[|f|..] == rest;
  }

  lemma JoinFrame(frames: seq<Bytes>, failed: bool, f: Bytes, more: Report, fails: bool)
    ensures Joined(frames, failed, Report([f] + more.frames, more.stopped, fails || more.failed, more.rest)) == Joined(frames + [f], failed || fails, more)
  {
    assert frames + ([f] + more.frames) == frames + [f] + more.frames;
  }

  lemma JoinedRest(frames: seq<Bytes>, failed: bool, rest: Bytes)
    ensures Joined(frames, failed, Report([], false, false, rest)) == Report(frames, false, failed, rest)
  {
    assert frames + [] == frames;
  }

  /** Inspecting more bytes goes on from what was held; after a stop it changes nothing. */
  lemma {:induction false} WalkGoesOn(decode: TextDecoder, read: Reader, history: seq<Bytes>, s: Bytes, t: Bytes)
    ensures var w := Walk(decode, read, history, s);
            Walk(decode, read, history, s + t) ==
              if w.stopped then w.(rest := w.rest + t) else Joined(w.frames, w.failed, Walk(decode, read, history + w.frames, w.rest + t))
    decreases |s|
  {
    hide EventPrelude, Judge, Walk, Joined;
    var w := Walk(decode, read, history, s);
    if |s| < 12 || EventPrelude(s).None? || EventPrelude(s).value.length > INSPECTION_LIMIT || |s| < EventPrelude(s).value.length {
      WalkNoFrame(decode, read, history, s, t);
    } else {
      LongEnough(s);
      var length := EventPrelude(s).value.length;
      var f, rest := s[..length], s[length..];
      assert f[..12] == s[..12] && s + t == f + (rest + t) && s == f + rest;
      PreludeOnly(f, s);
      WalkFrame(decode, read, history, f, rest);
      WalkFrame(decode, read, history, f, rest + t);
      WalkGoesOn(decode, read, history + [f], rest, t);
      var v := Judge(decode, read, history, f);
      if !v.Halts? && !v.Breaks? {
        var inner := Walk(decode, read, history + [f], rest);
        assert history + [f] + inner.frames == history + w.frames;
        JoinInner(f, inner, v.Fails?, Walk(decode, read, history + w.frames, inner.rest + t));
      }
    }
  }

  lemma WalkNoFrame(decode: TextDecoder, read: Reader, history: seq<Bytes>, s: Bytes, t: Bytes)
    requires |s| < 12 || EventPrelude(s).None? || EventPrelude(s).value.length > INSPECTION_LIMIT || |s| < EventPrelude(s).value.length
    ensures var w := Walk(decode, read, history, s);
            Walk(decode, read, history, s + t) ==
              if w.stopped then w.(rest := w.rest + t) else Joined(w.frames, w.failed, Walk(decode, read, history + w.frames, w.rest + t))
  {
    hide EventPrelude, Judge;
    assert history + [] == history;
    if |s| >= 12 {
      assert (s + t)[..12] == s[..12];
      PreludeOnly(s, s + t);
    }
    var more := Walk(decode, read, history, s + t);
    assert [] + more.frames == more.frames;
  }

  lemma JoinInner(f: Bytes, inner: Report, fails: bool, more: Report)
    ensures var joined := Joined(inner.frames, inner.failed, more);
            Report([f] + joined.frames, joined.stopped, fails || joined.failed, joined.rest) == Joined([f] + inner.frames, fails || inner.failed, more)
  {
    assert [f] + (inner.frames + more.frames) == [f] + inner.frames + more.frames;
  }
}
