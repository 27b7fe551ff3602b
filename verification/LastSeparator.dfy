/** Cutting a buffer at its last separator, as the two last-separator consumers do. */
module LastSeparator {
  import opened Options
  import opened SseText
  import opened SseEvents
  import opened SseStream

  predicate OccursAt(s: string, sep: string, i: nat) {
    i + |sep| <= |s| && s[i..i + |sep|] == sep
  }

  /** String.prototype.lastIndexOf, searching start positions below `below`. */
  function LastIndexOf(s: string, sep: string, below: nat): (r: Option<nat>)
    requires below <= |s| + 1
    ensures r.Some? ==> r.value < below && OccursAt(s, sep, r.value)
    ensures forall i :: (if r.Some? then r.value + 1 else 0) <= i < below ==> !OccursAt(s, sep, i)
  {
    if below == 0 then None
    else if OccursAt(s, sep, below - 1) then Some(below - 1)
    else LastIndexOf(s, sep, below - 1)
  }

  ghost predicate EndsBy(s: string, end: nat) {
    forall i :: 0 <= i < |s| && SepAt(s, i) > 0 ==> i + SepAt(s, i) <= end
  }

  lemma SepIsCandidate(s: string, i: nat)
    ensures SepAt(s, i) == 4 <==> OccursAt(s, "\r\n\r\n", i)
    ensures SepAt(s, i) == 2 <==> OccursAt(s, "\n\n", i) || OccursAt(s, "\r\r", i)
  {
    if i + 4 <= |s| {
      assert s[i..i + 4] == [s[i], s[i + 1], s[i + 2], s[i + 3]];
    }
    if i + 2 <= |s| {
      assert s[i..i + 2] == [s[i], s[i + 1]];
    }
  }

  ghost predicate CandidateEndsBy(s: string, sep: string, best: Option<nat>) {
    forall i: nat :: OccursAt(s, sep, i) ==> best.Some? && i + |sep| <= best.value
  }

  const SEPARATORS := ["\r\n\r\n", "\n\n", "\r\r"]

  /** The end of the separator that ends last. */
  method LastSepEnd(s: string) returns (best: Option<nat>)
    ensures best.None? ==> SepFree(s)
    ensures best.Some? ==> best.value <= |s| && EndsBy(s, best.value) && EndsWithSep(s[..best.value])
  {
    best := None;
    for c := 0 to |SEPARATORS|
      invariant forall k :: 0 <= k < c ==> CandidateEndsBy(s, SEPARATORS[k], best)
      invariant best.Some? ==>
        exists k, i: nat :: 0 <= k < |SEPARATORS| && OccursAt(s, SEPARATORS[k], i) && i + |SEPARATORS[k]| == best.value
    {
      var sep := SEPARATORS[c];
      var i := LastIndexOf(s, sep, |s| + 1);
      ghost var before := best;
      if i.Some? {
        var end := i.value + |sep|;
        if best.None? || end > best.value {
          best := Some(end);
        }
      }
      forall k | 0 <= k < c + 1 ensures CandidateEndsBy(s, SEPARATORS[k], best) {
        if k < c {
          assert CandidateEndsBy(s, SEPARATORS[k], before);
        }
      }
    }
    forall i | 0 <= i < |s| && SepAt(s, i) > 0 ensures best.Some? && i + SepAt(s, i) <= best.value {
      SepIsCandidate(s, i);
      assert CandidateEndsBy(s, SEPARATORS[0], best);
      assert CandidateEndsBy(s, SEPARATORS[1], best);
      assert CandidateEndsBy(s, SEPARATORS[2], best);
    }
    if best.Some? {
      var k, i: nat :| 0 <= k < |SEPARATORS| && OccursAt(s, SEPARATORS[k], i) && i + |SEPARATORS[k]| == best.value;
      var cut := s[..best.value];
      assert OccursAt(cut, SEPARATORS[k], i);
      SepIsCandidate(cut, i);
    }
  }

  // ---------------------------------------------------------------- cutting keeps the meaning

  ghost predicate CutPoint(p: string) {
    p == "" || EndsWithSep(p)
  }

  lemma CutRestSepFree(s: string, end: nat)
    requires end <= |s| && EndsBy(s, end)
    ensures SepFree(s[end..])
  {
    forall i | 0 <= i < |s| - end ensures SepAt(s[end..], i) == 0 {
      SepShift(s, end, i);
    }
  }

  lemma NothingScanned()
    ensures CompleteEvents("") == [] && AllEvents("") == []
  {
  }

  /** What has been cut off holds exactly the complete events. */
  lemma CutHoldsAll(p: string, buffer: string)
    requires CutPoint(p) && SepFree(buffer)
    ensures CompleteEvents(p + buffer) == CompleteEvents(p)
    ensures AllEvents(p + buffer) == CompleteEvents(p) + Emit(BlockEvent(buffer))
  {
    hide CompleteEvents, AllEvents, BlockEvent, SepFree;
    BlockThenRun(buffer, "");
    assert buffer + "" == buffer;
    if p == "" {
      assert p + buffer == buffer;
      NothingScanned();
    } else {
      CutEvents(p, buffer);
    }
  }

  lemma EndsWithSepAfter(p: string, block: string)
    requires EndsWithSep(block)
    ensures EndsWithSep(p + block)
  {
    var i :| 0 <= i < |block| && SepAt(block, i) > 0 && i + SepAt(block, i) == |block|;
    SepAtWithin(p, block, "", i);
    assert p + block + "" == p + block;
    assert SepAt(p + block, |p| + i) > 0;
  }

  lemma CutMore(p: string, block: string)
    requires CutPoint(p) && EndsWithSep(block)
    ensures EndsWithSep(p + block)
    ensures CompleteEvents(p + block) == CompleteEvents(p) + CompleteEvents(block)
  {
    EndsWithSepAfter(p, block);
    if p == "" {
      assert p + block == block;
      NothingScanned();
    } else {
      CutEvents(p, block);
    }
  }

  lemma CutMoves(cut: string, buffer: string, end: nat)
    requires end <= |buffer|
    ensures cut + buffer == cut + buffer[..end] + buffer[end..]
  {
    Assoc(cut, buffer[..end], buffer[end..]);
    assert buffer[..end] + buffer[end..] == buffer;
  }

  /** After k chunks: the text read is what was cut off followed by a separator-free buffer. */
  ghost predicate HasRead(chunks: seq<string>, k: nat, cut: string, buffer: string) {
    k <= |chunks| && Concat(chunks[..k]) == cut + buffer && CutPoint(cut) && SepFree(buffer)
  }

  lemma ReadNext(chunks: seq<string>, k: nat, cut: string, buffer: string)
    requires HasRead(chunks, k, cut, buffer) && k < |chunks|
    ensures CutPoint(cut) && Concat(chunks[..k + 1]) == cut + (buffer + chunks[k])
  {
    assert chunks[..k + 1][..k] == chunks[..k];
    Assoc(cut, buffer, chunks[k]);
  }

  lemma ReadAll(chunks: seq<string>, cut: string, buffer: string)
    requires HasRead(chunks, |chunks|, cut, buffer)
    ensures Concat(chunks) == cut + buffer && CutPoint(cut) && SepFree(buffer)
    ensures CompleteEvents(Concat(chunks)) == CompleteEvents(cut)
  {
    assert chunks[..|chunks|] == chunks;
    CutHoldsAll(cut, buffer);
  }

  /** One turn of a last-separator loop: the text up to the last separator moves out of the buffer. */
  lemma CutStep(cut: string, buffer: string, end: nat)
    requires CutPoint(cut) && end <= |buffer| && EndsBy(buffer, end) && EndsWithSep(buffer[..end])
    ensures var cut' := cut + buffer[..end];
            && CutPoint(cut') && SepFree(buffer[end..])
            && cut + buffer == cut' + buffer[end..]
            && CompleteEvents(cut') == CompleteEvents(cut) + CompleteEvents(buffer[..end])
  {
    CutMore(cut, buffer[..end]);
    CutRestSepFree(buffer, end);
    CutMoves(cut, buffer, end);
  }

  /** The tail that splitting the cut part again would leave is newline-only. */
  lemma TailIsNewlineOnly(block: string)
    requires EndsWithSep(block)
    ensures NewlineOnly(Rest(block))
  {
    SplitTail(block);
  }

  lemma TailOfCut(block: string, e: nat)
    requires EndsWithSep(block) && e <= |block|
    ensures EndsWithSep(block[e..]) || NewlineOnly(block[e..])
  {
    var i :| 0 <= i < |block| && SepAt(block, i) > 0 && i + SepAt(block, i) == |block|;
    if i >= e {
      SepShift(block, e, i - e);
    } else {
      SepIsNewlines(block, i);
      assert forall k :: e <= k < |block| ==> block[k] == block[i..|block|][k - i];
    }
  }

  lemma {:induction false} SplitTail(block: string)
    requires EndsWithSep(block) || NewlineOnly(block)
    ensures NewlineOnly(Rest(block))
    decreases |block|
  {
    var j := FirstSep(block, 0);
    if j < |block| {
      var e := j + SepAt(block, j);
      if EndsWithSep(block) {
        TailOfCut(block, e);
      }
      SplitTail(block[e..]);
    }
  }

  // ---------------------------------------------------------------- prefixes of a chunked stream

  /** What a prefix of the stream completes is a prefix of what the stream holds. */
  lemma PrefixEvents(s: string, t: string)
    ensures CompleteEvents(s) <= CompleteEvents(s + t)
    ensures CompleteEvents(s) <= AllEvents(s + t)
  {
    PushMeaning(s, t);
  }
}
