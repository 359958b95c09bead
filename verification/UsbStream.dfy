/**
 What the parser makes of a whole byte stream, however it is cut into chunks.
 `Feed` is the parser stepped over a stream; the lemmas say which frames come out of it.
 */
module UsbStream {
  import opened Bytes
  import opened UsbFrame
  import opened UsbParser

  /** The pending octets and the frames emitted so far. */
  datatype Progress = Progress(pending: seq<byte>, frames: seq<seq<byte>>)

  function Emission(e: Event): seq<seq<byte>> { if e.Emitted? then [e.frame] else [] }

  function Advance(s: Progress, b: byte, cap: nat): Progress
  {
    var (q, e) := Next(s.pending, b, cap);
    Progress(q, s.frames + Emission(e))
  }

  function Feed(p: seq<byte>, data: seq<byte>, cap: nat): Progress
    decreases |data|
  {
    if data == [] then Progress(p, []) else Advance(Feed(p, data[..|data| - 1], cap), data[|data| - 1], cap)
  }

  lemma {:induction false} FeedKeepsUnfinished(p: seq<byte>, data: seq<byte>, cap: nat)
    requires Unfinished(p)
    ensures Unfinished(Feed(p, data, cap).pending)
    ensures forall f :: f in Feed(p, data, cap).frames ==> Verdict(f) == EspOk && |f| <= cap
    decreases |data|
  {
    if data != [] {
      FeedKeepsUnfinished(p, data[..|data| - 1], cap);
    }
  }

  lemma FeedSnoc(p: seq<byte>, data: seq<byte>, b: byte, cap: nat)
    ensures Feed(p, data + [b], cap) == Advance(Feed(p, data, cap), b, cap)
  {
    assert (data + [b])[..|data|] == data;
  }

  lemma AdvanceKeepsEarlierFrames(p: seq<byte>, fs: seq<seq<byte>>, gs: seq<seq<byte>>, b: byte, cap: nat)
    ensures var next := Advance(Progress(p, gs), b, cap);
            Advance(Progress(p, fs + gs), b, cap) == Progress(next.pending, fs + next.frames)
  {
  }

  /** Cutting a stream in two changes nothing. */
  lemma {:induction false} FeedConcat(p: seq<byte>, a: seq<byte>, b: seq<byte>, cap: nat)
    ensures var first := Feed(p, a, cap);
            var second := Feed(first.pending, b, cap);
            Feed(p, a + b, cap) == Progress(second.pending, first.frames + second.frames)
    decreases |b|
  {
    var first := Feed(p, a, cap);
    if b == [] {
      assert a + b == a;
      assert first.frames + [] == first.frames;
    } else {
      var init, last := b[..|b| - 1], b[|b| - 1];
      var mid := Feed(first.pending, init, cap);
      assert a + b == (a + init) + [last];
      FeedSnoc(p, a + init, last, cap);
      FeedConcat(p, a, init, cap);
      AdvanceKeepsEarlierFrames(mid.pending, first.frames, mid.frames, last, cap);
    }
  }

  lemma FeedOne(p: seq<byte>, b: byte, cap: nat)
    ensures Feed(p, [b], cap) == Advance(Progress(p, []), b, cap)
  {
    FeedSnoc(p, [], b, cap);
    assert [] + [b] == [b];
  }

  // ---------------------------------------------------------------------------------------------
  // Desynchronisation is bounded

  lemma {:induction false} BusyMeansGrowing(p: seq<byte>, data: seq<byte>, cap: nat)
    requires forall k :: 0 < k <= |data| ==> Feed(p, data[..k], cap).pending != []
    ensures Feed(p, data, cap).pending == p + data
    decreases |data|
  {
    if data == [] {
      assert p + data == p;
    } else {
      var init := data[..|data| - 1];
      forall k | 0 < k <= |init| ensures Feed(p, init[..k], cap).pending != [] {
        assert init[..k] == data[..k];
      }
      BusyMeansGrowing(p, init, cap);
      assert data[..|data|] == data;
    }
  }

  /** Whatever the parser is in the middle of, it is idle again before 512 octets have been
      collected: by emitting a frame or by giving the attempt up. */
  lemma SyncAttemptEnds(p: seq<byte>, data: seq<byte>, cap: nat)
    requires Unfinished(p) && |p| + |data| >= CAPACITY && data != []
    ensures exists k :: 0 < k <= |data| && Feed(p, data[..k], cap).pending == []
  {
    if forall k :: 0 < k <= |data| ==> Feed(p, data[..k], cap).pending != [] {
      BusyMeansGrowing(p, data, cap);
      FeedKeepsUnfinished(p, data, cap);
    }
  }

  // ---------------------------------------------------------------------------------------------
  // Nothing is invented: the frames are disjoint pieces of the stream, in order

  /** gaps[0] frames[0] gaps[1] ... frames[n-1] gaps[n] */
  function Interleave(gaps: seq<seq<byte>>, frames: seq<seq<byte>>): seq<byte>
    requires |gaps| == |frames| + 1
  {
    if frames == [] then gaps[0]
    else Interleave(gaps[..|gaps| - 1], frames[..|frames| - 1]) + frames[|frames| - 1] + gaps[|gaps| - 1]
  }

  lemma ExtendLastGap(gaps: seq<seq<byte>>, frames: seq<seq<byte>>, more: seq<byte>)
    requires |gaps| == |frames| + 1
    ensures var n := |frames|;
            Interleave(gaps[n := gaps[n] + more], frames) == Interleave(gaps, frames) + more
  {
    var n := |frames|;
    var wider := gaps[n := gaps[n] + more];
    if frames != [] {
      assert wider[..n] == gaps[..n];
      var front := Interleave(gaps[..n], frames[..n - 1]) + frames[n - 1];
      assert Interleave(wider, frames) == front + (gaps[n] + more);
      assert front + (gaps[n] + more) == (front + gaps[n]) + more;
    }
  }

  lemma AccountForOctet(gaps: seq<seq<byte>>, s: Progress, b: byte, cap: nat) returns (more: seq<seq<byte>>)
    requires |gaps| == |s.frames| + 1
    ensures var t := Advance(s, b, cap);
            |more| == |t.frames| + 1
            && Interleave(more, t.frames) + t.pending == Interleave(gaps, s.frames) + s.pending + [b]
  {
    var (q, e) := Next(s.pending, b, cap);
    var whole := Interleave(gaps, s.frames);
    assert whole + (s.pending + [b]) == whole + s.pending + [b];
    assert !e.Emitted? ==> s.frames + Emission(e) == s.frames;
    if e.Emitted? {
      more := gaps + [[]];
      assert more[..|more| - 1] == gaps && (s.frames + [e.frame])[..|s.frames|] == s.frames;
    } else if q == [] {
      ExtendLastGap(gaps, s.frames, s.pending + [b]);
      more := gaps[|s.frames| := gaps[|s.frames|] + (s.pending + [b])];
    } else {
      more := gaps;
    }
  }

  /** Every octet of the stream is skipped, still pending, or part of exactly one emitted frame. */
  lemma {:induction false} StreamIsAccountedFor(data: seq<byte>, cap: nat) returns (gaps: seq<seq<byte>>)
    ensures var s := Feed([], data, cap);
            |gaps| == |s.frames| + 1 && data == Interleave(gaps, s.frames) + s.pending
    decreases |data|
  {
    if data == [] {
      return [[]];
    }
    var init, b := data[..|data| - 1], data[|data| - 1];
    var before := StreamIsAccountedFor(init, cap);
    gaps := AccountForOctet(before, Feed([], init, cap), b, cap);
    assert data == init + [b];
  }

  // ---------------------------------------------------------------------------------------------
  // Delivery

  /** A frame the receiver can take: accepted by the validator and not longer than its limits. */
  predicate Fits(f: seq<byte>, cap: nat) { Verdict(f) == EspOk && |f| <= CAPACITY && |f| <= cap }

  lemma FrameCollects(f: seq<byte>, k: nat, cap: nat)
    requires Fits(f, cap) && k + 1 < |f|
    ensures Next(f[..k], f[k], cap) == (f[..k + 1], Quiet)
  {
    assert f[..k] + [f[k]] == f[..k + 1];
    assert k + 1 >= 6 ==> Total(f[..k + 1]) == |f|;
  }

  lemma {:induction false} FramePrefix(f: seq<byte>, k: nat, cap: nat)
    requires Fits(f, cap) && k < |f|
    ensures Feed([], f[..k], cap) == Progress(f[..k], [])
    decreases k
  {
    if k > 0 {
      FramePrefix(f, k - 1, cap);
      FrameCollects(f, k - 1, cap);
      FeedSnoc([], f[..k - 1], f[k - 1], cap);
      assert f[..k - 1] + [f[k - 1]] == f[..k];
    }
  }

  lemma LastOctetEmits(f: seq<byte>, cap: nat)
    requires Fits(f, cap)
    ensures Next(f[..|f| - 1], f[|f| - 1], cap) == ([], Emitted(f))
  {
    assert f[..|f| - 1] + [f[|f| - 1]] == f;
  }

  lemma FrameIsEmitted(f: seq<byte>, cap: nat)
    requires Fits(f, cap)
    ensures Feed([], f, cap) == Progress([], [f])
  {
    FramePrefix(f, |f| - 1, cap);
    LastOctetEmits(f, cap);
    assert [] + [f] == [f];
  }

  /** The last octet of `f`, fed after `p`, makes the parser emit `f`. */
  predicate DeliversAtEnd(p: seq<byte>, f: seq<byte>, cap: nat)
    requires f != []
  {
    Next(Feed(p, f[..|f| - 1], cap).pending, f[|f| - 1], cap) == ([], Emitted(f))
  }

  lemma {:induction false} PendingGrowsByAtMostOne(p: seq<byte>, data: seq<byte>, cap: nat)
    ensures Feed(p, data, cap).pending == p + data || |Feed(p, data, cap).pending| < |data|
    decreases |data|
  {
    if data == [] {
      assert p + data == p;
    } else {
      PendingGrowsByAtMostOne(p, data[..|data| - 1], cap);
      assert p + data == p + data[..|data| - 1] + [data[|data| - 1]];
    }
  }

  /** What was received before a frame costs that frame exactly when it leaves the parser busy. */
  lemma DeliveredIffIdleBefore(noise: seq<byte>, f: seq<byte>, cap: nat)
    requires Fits(f, cap)
    ensures DeliversAtEnd(Feed([], noise, cap).pending, f, cap) <==> Feed([], noise, cap).pending == []
  {
    var p := Feed([], noise, cap).pending;
    var init := f[..|f| - 1];
    if p == [] {
      FramePrefix(f, |f| - 1, cap);
      LastOctetEmits(f, cap);
    } else {
      PendingGrowsByAtMostOne(p, init, cap);
      var q := Feed(p, init, cap).pending;
      assert |q + [f[|f| - 1]]| != |f|;
    }
  }

  /** Noise containing the first magic octet does cost a frame: after "E" the parser takes the "E"
      of the frame for a failed second octet and drops it. */
  lemma StrayMagicCostsTheFrame(f: seq<byte>, cap: nat)
    requires Fits(f, cap)
    ensures !DeliversAtEnd(Feed([], [MAGIC_0], cap).pending, f, cap)
  {
    DeliveredIffIdleBefore([MAGIC_0], f, cap);
    assert [MAGIC_0][..0] == [];
    assert Feed([], [], cap).pending == [];
  }

  lemma {:induction false} QuietNoise(noise: seq<byte>, cap: nat)
    requires MAGIC_0 !in noise
    ensures Feed([], noise, cap) == Progress([], [])
    decreases |noise|
  {
    if noise != [] {
      assert noise[|noise| - 1] in noise;
      QuietNoise(noise[..|noise| - 1], cap);
    }
  }

  datatype Segment = Segment(noise: seq<byte>, frame: seq<byte>)

  predicate Clean(segments: seq<Segment>, cap: nat)
  {
    forall s :: s in segments ==> MAGIC_0 !in s.noise && Fits(s.frame, cap)
  }

  function Wire(segments: seq<Segment>): seq<byte>
  {
    if segments == [] then []
    else Wire(segments[..|segments| - 1]) + segments[|segments| - 1].noise + segments[|segments| - 1].frame
  }

  function Frames(segments: seq<Segment>): seq<seq<byte>>
  {
    seq(|segments|, i requires 0 <= i < |segments| => segments[i].frame)
  }

  lemma SegmentIsDelivered(before: seq<byte>, s: Segment, fs: seq<seq<byte>>, cap: nat)
    requires MAGIC_0 !in s.noise && Fits(s.frame, cap)
    requires Feed([], before, cap) == Progress([], fs)
    ensures Feed([], before + s.noise + s.frame, cap) == Progress([], fs + [s.frame])
  {
    QuietNoise(s.noise, cap);
    FrameIsEmitted(s.frame, cap);
    FeedConcat([], before, s.noise, cap);
    assert fs + [] == fs;
    FeedConcat([], before + s.noise, s.frame, cap);
  }

  lemma FramesOfLonger(segments: seq<Segment>)
    requires segments != []
    ensures var init, s := segments[..|segments| - 1], segments[|segments| - 1];
            Frames(segments) == Frames(init) + [s.frame] && Wire(segments) == Wire(init) + s.noise + s.frame
  {
  }

  lemma {:induction false} SegmentsAreDelivered(segments: seq<Segment>, cap: nat)
    requires Clean(segments, cap)
    ensures Feed([], Wire(segments), cap) == Progress([], Frames(segments))
    decreases |segments|
  {
    if segments != [] {
      var init, s := segments[..|segments| - 1], segments[|segments| - 1];
      assert s in segments;
      SegmentsAreDelivered(init, cap);
      SegmentIsDelivered(Wire(init), s, Frames(init), cap);
      FramesOfLonger(segments);
    }
  }

  /** Frames separated by noise without the first magic octet come out all, in order, unchanged. */
  lemma CleanStreamIsDelivered(segments: seq<Segment>, tail: seq<byte>, cap: nat)
    requires Clean(segments, cap) && MAGIC_0 !in tail
    ensures Feed([], Wire(segments) + tail, cap) == Progress([], Frames(segments))
  {
    SegmentsAreDelivered(segments, cap);
    QuietNoise(tail, cap);
    FeedConcat([], Wire(segments), tail, cap);
    assert Frames(segments) + [] == Frames(segments);
  }
}
