/** When the chat reader's result depends on how its stream was cut into chunks. */
module ChatChunking {
  import opened Options
  import opened SseText
  import opened SseEvents
  import opened SseStream
  import opened LastSeparator
  import opened Chat
  import RoundTrip

  function FirstSettling(effects: seq<Effect>, i: nat): (d: nat)
    requires i <= |effects|
    ensures i <= d <= |effects|
    ensures d < |effects| ==> effects[d].Done? || effects[d].Failure?
    ensures forall k :: i <= k < d ==> effects[k].Delta? || effects[k].Ignored?
  {
    FirstIndex(effects, (e: Effect) => e.Done? || e.Failure?, i)
  }

  /** Nothing after the effect at d has an effect other than repeating it. */
  ghost predicate QuietAfter(effects: seq<Effect>, d: nat)
    requires d < |effects|
  {
    forall j :: d < j < |effects| ==> effects[j].Ignored? || effects[j] == effects[d]
  }

  /** No event after the first done, if that comes before any error, changes what is delivered. */
  ghost predicate Quiet(effects: seq<Effect>) {
    var d := FirstSettling(effects, 0);
    d < |effects| && effects[d].Done? ==> QuietAfter(effects, d)
  }

  lemma {:induction false} OpenBefore(effects: seq<Effect>, n: nat)
    requires n <= FirstSettling(effects, 0)
    ensures After(effects[..n]).outcome.Open?
  {
    if n > 0 {
      assert effects[..n][..n - 1] == effects[..n - 1];
      OpenBefore(effects, n - 1);
    }
  }

  /** The state just after the first settling effect. */
  lemma SettledAt(effects: seq<Effect>, d: nat)
    requires d == FirstSettling(effects, 0) < |effects|
    ensures var st := After(effects[..d + 1]);
            match effects[d]
            case Done(reason) => st.outcome == Finished(reason)
            case Failure(code, message) => st.outcome == Failed(code, message)
            case _ => true
  {
    OpenBefore(effects, d);
    assert effects[..d + 1][..d] == effects[..d];
  }

  /** As long as nothing disturbs it, the state stays as the first settling effect left it. */
  lemma {:induction false} Undisturbed(effects: seq<Effect>, d: nat, n: nat)
    requires d == FirstSettling(effects, 0) < n <= |effects|
    requires effects[d].Done? ==> forall j :: d < j < n ==> effects[j].Ignored? || effects[j] == effects[d]
    ensures After(effects[..n]) == After(effects[..d + 1])
    decreases n
  {
    SettledAt(effects, d);
    if n > d + 1 {
      assert effects[..n][..n - 1] == effects[..n - 1];
      Undisturbed(effects, d, n - 1);
    }
  }

  lemma AfterNext(effects: seq<Effect>, n: nat)
    requires n < |effects|
    ensures After(effects[..n + 1]) == After(effects[..n]).Step(effects[n])
  {
    assert effects[..n + 1][..n] == effects[..n];
  }

  lemma StepDisturbs(st: ChatState, e: Effect, reason: string)
    requires st.outcome == Finished(reason) && !e.Ignored? && e != Done(reason)
    ensures st.Step(e) != st && !st.Step(e).outcome.Open?
  {
    if e.Delta? {
      assert |st.Step(e).deltas| == |st.deltas| + 1;
    }
  }

  /** A disturbing effect changes the state. */
  lemma Disturbed(effects: seq<Effect>, d: nat, q: nat)
    requires d == FirstSettling(effects, 0) < q < |effects| && effects[d].Done?
    requires forall j :: d < j < q ==> effects[j].Ignored? || effects[j] == effects[d]
    requires !(effects[q].Ignored? || effects[q] == effects[d])
    ensures After(effects[..q + 1]) != After(effects[..d + 1])
    ensures !After(effects[..q + 1]).outcome.Open?
  {
    SettledAt(effects, d);
    Undisturbed(effects, d, q);
    AfterNext(effects, q);
    StepDisturbs(After(effects[..q]), effects[q], effects[d].reason);
  }

  lemma {:induction false} FirstDisturbance(effects: seq<Effect>, d: nat, n: nat) returns (q: nat)
    requires d < |effects| && d < n < |effects|
    requires !(effects[n].Ignored? || effects[n] == effects[d])
    ensures d < q <= n && !(effects[q].Ignored? || effects[q] == effects[d])
    ensures forall j :: d < j < q ==> effects[j].Ignored? || effects[j] == effects[d]
    decreases n
  {
    if j :| d < j < n && !(effects[j].Ignored? || effects[j] == effects[d]) {
      q := FirstDisturbance(effects, d, j);
    } else {
      q := n;
    }
  }

  // ---------------------------------------------------------------- cutting after any event

  /** A stream can be cut so that exactly its first n complete events are complete. */
  lemma {:induction false} CutAfter(s: string, n: nat) returns (p: string)
    requires n <= |CompleteEvents(s)|
    ensures p <= s && CompleteEvents(p) == CompleteEvents(s)[..n]
    decreases |s|
  {
    hide *;
    if n == 0 {
      NothingScanned();
      return "";
    }
    HasSeparator(s);
    var j := FirstSep(s, 0);
    var e := j + SepAt(s, j);
    SepInside(s, j, e);
    FirstBlock(s, j, e);
    var head := Emit(BlockEvent(s[..j]));
    OneAtMost(BlockEvent(s[..j]));
    var p' := CutAfter(s[e..], n - |head|);
    p := s[..e] + p';
    FirstBlockOf(s, j, e, p');
    TakeAfter(head, CompleteEvents(s[e..]), n);
    PrefixAfter(s, e, p');
  }

  lemma SepInside(s: string, j: nat, e: nat)
    requires j == FirstSep(s, 0) < |s| && e == j + SepAt(s, j)
    ensures j < e <= |s|
  {
  }

  lemma OneAtMost<T>(o: Option<T>)
    ensures |Emit(o)| <= 1
  {
  }

  lemma HasSeparator(s: string)
    requires CompleteEvents(s) != []
    ensures FirstSep(s, 0) < |s|
  {
    SplitMeaning(s);
  }

  lemma PrefixAfter(s: string, e: nat, p': string)
    requires e <= |s| && p' <= s[e..]
    ensures s[..e] + p' <= s
  {
    assert s == s[..e] + s[e..];
  }

  lemma TakeAfter<T>(head: seq<T>, tail: seq<T>, n: nat)
    requires |head| <= n <= |head| + |tail|
    ensures (head + tail)[..n] == head + tail[..n - |head|]
  {
  }

  lemma FirstBlockOf(s: string, j: nat, e: nat, x: string)
    requires j == FirstSep(s, 0) < |s| && e == j + SepAt(s, j)
    ensures CompleteEvents(s[..e] + x) == Emit(BlockEvent(s[..j])) + CompleteEvents(x)
  {
    NoSepBeforeFirst(s, j);
    SepIsNewlines(s, j);
    CutTwice(s, j, e);
    assert SepAt(s[..e], j) == e - j;
    BlockSepRest(s[..j], s[j..e], x);
  }

  // ---------------------------------------------------------------- the result and the chunking

  /** Reading stops at a prefix of the events, or has gone through them all. */
  lemma {:induction false} ReadingPrefix(sch: Schemas, chunks: seq<string>) returns (n: nat)
    ensures var all := Effects(sch, CompleteEvents(Concat(chunks)));
            && n <= |all| && Reading(sch, chunks) == After(all[..n])
            && (Reading(sch, chunks).outcome.Open? ==> n == |all|)
    decreases |chunks|
  {
    if chunks == [] {
      NothingScanned();
      n := 0;
    } else {
      var k := |chunks| - 1;
      n := ReadingPrefix(sch, chunks[..k]);
      if Reading(sch, chunks[..k]).outcome.Open? {
        n := |CompleteEvents(Concat(chunks))|;
        TakeAll(Effects(sch, CompleteEvents(Concat(chunks))));
      } else {
        EffectsGrow(sch, Concat(chunks[..k]), chunks[k], n);
      }
    }
  }

  lemma TakeAll<T>(s: seq<T>)
    ensures s[..|s|] == s
  {
  }

  lemma EffectsGrow(sch: Schemas, s: string, t: string, n: nat)
    requires n <= |CompleteEvents(s)|
    ensures n <= |CompleteEvents(s + t)|
    ensures Effects(sch, CompleteEvents(s))[..n] == Effects(sch, CompleteEvents(s + t))[..n]
  {
    PrefixEvents(s, t);
    EffectsPrefix(sch, CompleteEvents(s), CompleteEvents(s + t), n);
  }

  lemma EffectsPrefix(sch: Schemas, a: seq<SseEvent>, b: seq<SseEvent>, n: nat)
    requires a <= b && n <= |a|
    ensures Effects(sch, a)[..n] == Effects(sch, b)[..n] == Effects(sch, b[..n])
  {
  }

  /** What the reader should deliver: everything up to the first done or error. */
  ghost function Ideal(sch: Schemas, s: string): ChatState {
    var effects := Effects(sch, CompleteEvents(s));
    var d := FirstSettling(effects, 0);
    if d < |effects| then After(effects[..d + 1]) else After(Effects(sch, AllEvents(s)))
  }

  /** On a quiet stream every chunking delivers the ideal. */
  lemma QuietIsIdeal(sch: Schemas, s: string, chunks: seq<string>)
    requires Concat(chunks) == s && Quiet(Effects(sch, CompleteEvents(s)))
    ensures AtEnd(sch, chunks, false) == Ideal(sch, s)
  {
    var effects := Effects(sch, CompleteEvents(s));
    var d := FirstSettling(effects, 0);
    var n := ReadingPrefix(sch, chunks);
    TakeAll(effects);
    if d < n {
      SettledAt(effects, d);
      Undisturbed(effects, d, n);
    } else {
      OpenBefore(effects, n);
    }
  }

  /** Cutting the stream after its event n - 1, when that settles it, delivers just its first n events. */
  lemma CutDelivers(sch: Schemas, s: string, n: nat) returns (chunks: seq<string>)
    requires n <= |CompleteEvents(s)|
    requires !After(Effects(sch, CompleteEvents(s))[..n]).outcome.Open?
    ensures Concat(chunks) == s
    ensures AtEnd(sch, chunks, false) == After(Effects(sch, CompleteEvents(s))[..n])
  {
    var p := CutAfter(s, n);
    chunks := [p, s[|p|..]];
    EffectsPrefix(sch, CompleteEvents(s), CompleteEvents(s), n);
    TwoChunks(sch, p, s[|p|..]);
  }

  lemma TwoChunks(sch: Schemas, p: string, x: string)
    requires !After(Effects(sch, CompleteEvents(p))).outcome.Open?
    ensures Concat([p, x]) == p + x
    ensures Reading(sch, [p, x]) == After(Effects(sch, CompleteEvents(p)))
  {
    assert [p, x][..1] == [p] && [p][..0] == [];
    assert Concat([p]) == p;
    assert Reading(sch, [p]) == After(Effects(sch, CompleteEvents(p)));
  }

  /** The chunking does not matter. */
  ghost predicate Agreed(sch: Schemas, s: string) {
    forall a, b :: Concat(a) == s && Concat(b) == s ==> AtEnd(sch, a, false) == AtEnd(sch, b, false)
  }

  lemma TwoStates(effects: seq<Effect>) returns (m: nat, n: nat)
    requires !Quiet(effects)
    ensures m <= |effects| && n <= |effects|
    ensures !After(effects[..m]).outcome.Open? && !After(effects[..n]).outcome.Open?
    ensures After(effects[..m]) != After(effects[..n])
  {
    var d := FirstSettling(effects, 0);
    var j :| d < j < |effects| && !(effects[j].Ignored? || effects[j] == effects[d]);
    var q := FirstDisturbance(effects, d, j);
    SettledAt(effects, d);
    Disturbed(effects, d, q);
    return d + 1, q + 1;
  }

  lemma LoudDisagrees(sch: Schemas, s: string)
    requires !Quiet(Effects(sch, CompleteEvents(s)))
    ensures !Agreed(sch, s)
  {
    var m, n := TwoStates(Effects(sch, CompleteEvents(s)));
    var a := CutDelivers(sch, s, m);
    var b := CutDelivers(sch, s, n);
  }

  /** The chat reader's result is independent of the chunking exactly when its stream is quiet
      after the first done: the handling of later events of the same part is what breaks it. */
  lemma ChunkingIndependentIff(sch: Schemas, s: string)
    ensures Agreed(sch, s) <==> Quiet(Effects(sch, CompleteEvents(s)))
  {
    if Quiet(Effects(sch, CompleteEvents(s))) {
      forall a, b | Concat(a) == s && Concat(b) == s ensures AtEnd(sch, a, false) == AtEnd(sch, b, false) {
        QuietIsIdeal(sch, s, a);
        QuietIsIdeal(sch, s, b);
      }
    } else {
      LoudDisagrees(sch, s);
    }
  }

  // ---------------------------------------------------------------- a stream that is not quiet

  const DONE_PART := "event: done\ndata: x\n\n"
  const DELTA_PART := "event: text_delta\ndata: t\n\n"

  lemma DonePart()
    ensures "event: " + "done" + "\n" + ("data: " + "x") + "\n\n" == DONE_PART
  {
  }

  lemma DeltaPart()
    ensures "event: " + "text_delta" + "\n" + ("data: " + "t") + "\n\n" == DELTA_PART
  {
  }

  lemma Parts()
    ensures RoundTrip.Print(SseEvent("done", "x")) == DONE_PART
    ensures RoundTrip.Print(SseEvent("text_delta", "t")) == DELTA_PART
  {
    hide RoundTrip.BlockLines, Join, RoundTrip.Pieces;
    DonePart();
    DeltaPart();
    var first, second := SseEvent("done", "x"), SseEvent("text_delta", "t");
    RoundTrip.PrintedLines(first);
    RoundTrip.PrintedLines(second);
  }

  lemma PartEvents()
    ensures CompleteEvents(DONE_PART) == [SseEvent("done", "x")]
    ensures CompleteEvents(DONE_PART + DELTA_PART) == [SseEvent("done", "x"), SseEvent("text_delta", "t")]
  {
    hide CompleteEvents, RoundTrip.Print;
    Parts();
    RoundTrip.TwoPrinted(SseEvent("done", "x"), SseEvent("text_delta", "t"));
  }

  /** It happens: a delta after the done is delivered when both come in one chunk, and not when the done
      comes in a chunk of its own. */
  lemma DeltaAfterDone(sch: Schemas, reason: string, text: string)
    requires sch.done("x") == Some(reason) && sch.text("t") == Some(text)
    ensures Concat([DONE_PART + DELTA_PART]) == Concat([DONE_PART, DELTA_PART])
    ensures AtEnd(sch, [DONE_PART + DELTA_PART], false) == ChatState([text], Finished(reason))
    ensures AtEnd(sch, [DONE_PART, DELTA_PART], false) == ChatState([], Finished(reason))
  {
    PartEvents();
    var first, second := SseEvent("done", "x"), SseEvent("text_delta", "t");
    TwoEffects(Done(reason), Delta(text));
    assert Effects(sch, [first]) == [Done(reason)];
    assert Effects(sch, [first, second]) == [Done(reason), Delta(text)];
    OneChunkRead(sch, DONE_PART + DELTA_PART);
    TwoChunks(sch, DONE_PART, DELTA_PART);
  }

  lemma TwoEffects(a: Effect, b: Effect)
    ensures After([a]) == FRESH.Step(a) && After([a, b]) == FRESH.Step(a).Step(b)
  {
    assert [a][..0] == [] && [a, b][..1] == [a];
  }

  lemma OneChunkRead(sch: Schemas, s: string)
    ensures Concat([s]) == s && Reading(sch, [s]) == After(Effects(sch, CompleteEvents(s)))
  {
    assert [s][..0] == [] && Concat([]) == "" && "" + s == s;
  }
}
