// The audio device: turns calls with any number of samples into chunks of exactly 10 ms.
module AudioDevice {
  import opened Common

  const CHANNELS: nat := 2
  const SAMPLE_RATE: nat := 48000
  const SAMPLE_SIZE: nat := 2
  const CHUNK_SAMPLES: nat := SAMPLE_RATE / 100
  const CHUNK_SIZE: nat := CHUNK_SAMPLES * SAMPLE_SIZE * CHANNELS

  function Concat(chunks: seq<seq<uint8>>): seq<uint8> {
    if chunks == [] then [] else chunks[0] + Concat(chunks[1..])
  }

  // The whole chunks at the front of `s`, and what is left of it.
  function Chunks(s: seq<uint8>): (r: seq<seq<uint8>>)
    decreases |s|
  {
    if |s| < CHUNK_SIZE then [] else [s[..CHUNK_SIZE]] + Chunks(s[CHUNK_SIZE..])
  }

  function Leftover(s: seq<uint8>): seq<uint8>
    decreases |s|
  {
    if |s| < CHUNK_SIZE then s else Leftover(s[CHUNK_SIZE..])
  }

  // What has been delivered to the transport, and the filled part of the buffer.
  datatype State = State(delivered: seq<seq<uint8>>, pending: seq<uint8>)

  const SILENT := State([], [])

  function Feed(s: State, data: seq<uint8>): State {
    var all := s.pending + data;
    State(s.delivered + Chunks(all), Leftover(all))
  }

  function FeedAll(s: State, calls: seq<seq<uint8>>): State {
    if calls == [] then s else Feed(FeedAll(s, calls[..|calls| - 1]), calls[|calls| - 1])
  }

  class AudioDevice {
    const buffer: array<uint8>
    var bufferIndex: nat
    // The chunks handed to the registered transport, oldest first.
    var delivered: seq<seq<uint8>>

    ghost predicate Valid()
      reads this
    {
      buffer.Length == CHUNK_SIZE && bufferIndex < CHUNK_SIZE
    }

    ghost function View(): State
      requires Valid()
      reads this, buffer
    {
      State(delivered, buffer[..bufferIndex])
    }

    constructor ()
      ensures Valid() && fresh(buffer) && View() == SILENT
    {
      buffer := new uint8[CHUNK_SIZE];
      bufferIndex, delivered := 0, [];
    }

    method SendAudio(data: seq<uint8>, samplesPerChannel: nat)
      requires Valid() && |data| == samplesPerChannel * CHANNELS * SAMPLE_SIZE
      modifies this, buffer
      ensures Valid() && View() == Feed(old(View()), data)
    {
      var at: nat := 0;
      var remainingData := samplesPerChannel * CHANNELS * SAMPLE_SIZE;
      var remainingBuffer := buffer.Length - bufferIndex;
      var toCopy := Min(remainingData, remainingBuffer);
      while toCopy != 0
        invariant Valid()
        invariant remainingData >= 0 && at + remainingData == |data|
        invariant remainingBuffer == buffer.Length - bufferIndex
        invariant toCopy == Min(remainingData, remainingBuffer)
        invariant Feed(View(), data[at..]) == Feed(old(View()), data)
        decreases remainingData
      {
        ghost var before, rest := View(), data[at..];
        forall i | 0 <= i < toCopy {
          buffer[bufferIndex + i] := data[at + i];
        }
        at := at + toCopy;
        bufferIndex := bufferIndex + toCopy;
        remainingData := remainingData - toCopy;
        remainingBuffer := remainingBuffer - toCopy;
        assert buffer[..bufferIndex] == before.pending + rest[..toCopy];
        assert data[at..] == rest[toCopy..];
        FeedPiece(before, rest, toCopy);
        if remainingBuffer == 0 {
          assert buffer[..] == buffer[..bufferIndex];
          delivered := delivered + [buffer[..]];
          bufferIndex := 0;
          remainingBuffer := buffer.Length;
          assert View() == State(before.delivered + [before.pending + rest[..toCopy]], []);
        } else {
          assert View() == State(before.delivered, before.pending + rest[..toCopy]);
        }
        toCopy := Min(remainingData, remainingBuffer);
      }
      FeedLittle(View(), data[at..]);
    }
  }

  // Taking `n` bytes into the buffer, and handing the buffer on if that fills it.
  lemma FeedPiece(s: State, data: seq<uint8>, n: nat)
    requires n <= |data| && |s.pending| + n <= CHUNK_SIZE
    ensures |s.pending| + n < CHUNK_SIZE ==> Feed(State(s.delivered, s.pending + data[..n]), data[n..]) == Feed(s, data)
    ensures |s.pending| + n == CHUNK_SIZE ==>
      Feed(State(s.delivered + [s.pending + data[..n]], []), data[n..]) == Feed(s, data)
  {
    var all := s.pending + data;
    assert s.pending + data[..n] + data[n..] == all;
    if |s.pending| + n == CHUNK_SIZE {
      assert all[..CHUNK_SIZE] == s.pending + data[..n];
      assert all[CHUNK_SIZE..] == [] + data[n..];
      assert s.delivered + [s.pending + data[..n]] + Chunks(data[n..]) == s.delivered + Chunks(all);
    }
  }

  lemma FeedLittle(s: State, data: seq<uint8>)
    requires |s.pending| < CHUNK_SIZE && data == []
    ensures Feed(s, data) == s
  {
  }

  // Nothing is lost, added or reordered.
  lemma {:induction false} SplitIsExact(s: seq<uint8>)
    ensures Concat(Chunks(s)) + Leftover(s) == s
    decreases |s|
  {
    if |s| < CHUNK_SIZE {
    } else {
      var head, tail := s[..CHUNK_SIZE], s[CHUNK_SIZE..];
      SplitIsExact(tail);
      var chunks := Chunks(tail);
      assert Chunks(s) == [head] + chunks;
      ConcatCons(head, chunks, Leftover(tail));
    }
  }

  lemma {:induction false} ConcatCons(head: seq<uint8>, chunks: seq<seq<uint8>>, rest: seq<uint8>)
    ensures Concat([head] + chunks) + rest == head + (Concat(chunks) + rest)
  {
  }

  // Every chunk has exactly 1920 bytes, and how many come out and how much is kept depends on
  // the number of bytes alone.
  lemma {:induction false} SplitCounts(s: seq<uint8>)
    ensures forall i :: 0 <= i < |Chunks(s)| ==> |Chunks(s)[i]| == CHUNK_SIZE == 1920
    ensures |Chunks(s)| == |s| / CHUNK_SIZE && |Leftover(s)| == |s| % CHUNK_SIZE
    decreases |s|
  {
    var n := CHUNK_SIZE;
    assert n == 1920;
    if |s| < n {
    } else {
      SplitCounts(s[n..]);
      assert |s| == |s[n..]| + 1920;
    }
  }

  // The split is the only one: whatever list of 1920-byte chunks and shorter rest the bytes were
  // put together from is what comes out again.
  lemma {:induction false} SplitIsUnique(chunks: seq<seq<uint8>>, rest: seq<uint8>)
    requires forall i :: 0 <= i < |chunks| ==> |chunks[i]| == CHUNK_SIZE
    requires |rest| < CHUNK_SIZE
    ensures Chunks(Concat(chunks) + rest) == chunks && Leftover(Concat(chunks) + rest) == rest
  {
    if chunks == [] {
      assert Concat(chunks) + rest == rest;
    } else {
      var s := Concat(chunks) + rest;
      ConcatCons(chunks[0], chunks[1..], rest);
      assert [chunks[0]] + chunks[1..] == chunks;
      assert s[..CHUNK_SIZE] == chunks[0] && s[CHUNK_SIZE..] == Concat(chunks[1..]) + rest;
      SplitIsUnique(chunks[1..], rest);
    }
  }

  lemma FeedTwice(s: State, a: seq<uint8>, b: seq<uint8>)
    ensures Feed(Feed(s, a), b) == Feed(s, a + b)
  {
    SplitAppend(s.pending + a, b);
    assert s.pending + a + b == s.pending + (a + b);
    assert s.delivered + Chunks(s.pending + a) + Chunks(Leftover(s.pending + a) + b)
        == s.delivered + Chunks(s.pending + a + b);
  }

  lemma {:induction false} SplitAppend(s: seq<uint8>, t: seq<uint8>)
    ensures Chunks(s + t) == Chunks(s) + Chunks(Leftover(s) + t)
    ensures Leftover(s + t) == Leftover(Leftover(s) + t)
    decreases |s|
  {
    if |s| < CHUNK_SIZE {
    } else {
      SplitAppend(s[CHUNK_SIZE..], t);
      assert (s + t)[..CHUNK_SIZE] == s[..CHUNK_SIZE];
      assert (s + t)[CHUNK_SIZE..] == s[CHUNK_SIZE..] + t;
    }
  }

  // Over any sequence of calls the outcome is the split of the concatenated input: however the
  // same bytes are divided into calls, the same chunks come out and the same bytes are kept.
  lemma {:induction false} CallsDoNotMatter(calls: seq<seq<uint8>>)
    ensures var total := Concat(calls);
            FeedAll(SILENT, calls) == State(Chunks(total), Leftover(total))
  {
    if calls == [] {
    } else {
      var n := |calls| - 1;
      CallsDoNotMatter(calls[..n]);
      var before := Concat(calls[..n]);
      FeedTwice(SILENT, before, calls[n]);
      FeedSilent(before);
      FeedSilent(before + calls[n]);
      assert calls[..n] + [calls[n]] == calls;
      ConcatAppend(calls[..n], [calls[n]]);
      assert Concat([calls[n]]) == calls[n];
    }
  }

  lemma {:induction false} FeedSilent(data: seq<uint8>)
    ensures Feed(SILENT, data) == State(Chunks(data), Leftover(data))
  {
    assert [] + data == data && [] + Chunks(data) == Chunks(data);
  }

  lemma {:induction false} ConcatAppend(a: seq<seq<uint8>>, b: seq<seq<uint8>>)
    ensures Concat(a + b) == Concat(a) + Concat(b)
  {
    if a == [] {
      assert a + b == b;
    } else {
      assert (a + b)[1..] == a[1..] + b;
      ConcatAppend(a[1..], b);
    }
  }
}
