/** The text of an event stream: event separators, runs of line-end characters,
    and the scanner that serves as the meaning of every consumer of the stream. */
module SseText {
  import opened Options


  predicate IsNewline(c: char) {
    c == '\r' || c == '\n'
  }

  predicate NewlineOnly(s: string) {
    forall i :: 0 <= i < |s| ==> IsNewline(s[i])
  }

  /** The length of the event separator that starts at index i, or 0 if none does. */
  function SepAt(s: string, i: nat): (len: nat)
    ensures len == 0 || (2 <= len <= 4 && i + len <= |s|)
  {
    if i + 4 <= |s| && s[i] == '\r' && s[i + 1] == '\n' && s[i + 2] == '\r' && s[i + 3] == '\n' then 4
    else if i + 2 <= |s| && s[i] == s[i + 1] == '\r' then 2
    else if i + 2 <= |s| && s[i] == s[i + 1] == '\n' then 2
    else 0
  }

  lemma SepIsNewlines(s: string, i: nat)
    ensures SepAt(s, i) > 0 ==> NewlineOnly(s[i..i + SepAt(s, i)])
  {
  }

  /** The least index, at or after i, at which a separator starts; |s| if there is none. */
  function FirstSep(s: string, i: nat): (j: nat)
    requires i <= |s|
    ensures i <= j <= |s|
    ensures j < |s| ==> SepAt(s, j) > 0
    ensures forall k :: i <= k < j ==> SepAt(s, k) == 0
    decreases |s| - i
  {
    if i == |s| || SepAt(s, i) > 0 then i else FirstSep(s, i + 1)
  }

  ghost predicate SepFree(s: string) {
    forall i :: 0 <= i < |s| ==> SepAt(s, i) == 0
  }

  ghost predicate EndsWithSep(s: string) {
    exists i :: 0 <= i < |s| && SepAt(s, i) > 0 && i + SepAt(s, i) == |s|
  }

  /** The pieces between leftmost, non-overlapping separators; the last one is unterminated. */
  function Split(s: string): (blocks: seq<string>)
    ensures |blocks| > 0
    decreases |s|
  {
    var j := FirstSep(s, 0);
    if j == |s| then [s] else [s[..j]] + Split(s[j + SepAt(s, j)..])
  }

  function Complete(blocks: seq<string>): seq<string>
    requires |blocks| > 0
  {
    blocks[..|blocks| - 1]
  }

  /** The text that follows the last leftmost separator. */
  function Rest(s: string): string {
    var blocks := Split(s);
    blocks[|blocks| - 1]
  }

  // ---------------------------------------------------------------- the scanner

  /** A run of line-end characters is an event boundary when it contains a separator. */
  ghost predicate Boundary(run: string) {
    exists i :: 0 <= i < |run| && SepAt(run, i) > 0
  }

  /** closed: the segments already ended by a boundary; open: the current segment, which
      starts and ends with a character that is no line end; run: the line ends after it. */
  datatype Scan = Scan(closed: seq<string>, open: string, run: string) {

    ghost function Step(c: char): Scan {
      if IsNewline(c) then
        this.(run := run + [c])
      else if open == "" then
        Scan(closed, [c], "")
      else if Boundary(run) then
        Scan(closed + [open], [c], "")
      else
        Scan(closed, open + run + [c], "")
    }

    ghost function Steps(s: string): Scan
      decreases |s|
    {
      if s == "" then this else Steps(s[..|s| - 1]).Step(s[|s| - 1])
    }

    /** The segments including the open one, as if the stream ended here. */
    ghost function Segments(): seq<string> {
      if open == "" then closed else closed + [open]
    }

    /** The segments that a boundary has already ended. */
    ghost function Ended(): seq<string> {
      if Boundary(run) then Segments() else closed
    }
  }

  const START := Scan([], "", "")

  ghost function Scanned(s: string): Scan {
    START.Steps(s)
  }

  // ---------------------------------------------------------------- facts about the scanner

  lemma {:induction false} StepsConcat(st: Scan, s: string, t: string)
    ensures st.Steps(s + t) == st.Steps(s).Steps(t)
    decreases |t|
  {
    if t == "" {
      assert s + t == s;
    } else {
      var n := |t| - 1;
      assert (s + t)[..|s + t| - 1] == s + t[..n];
      StepsConcat(st, s, t[..n]);
    }
  }

  lemma {:induction false} StepsRun(st: Scan, nl: string)
    requires NewlineOnly(nl)
    ensures st.Steps(nl) == st.(run := st.run + nl)
    decreases |nl|
  {
    if nl == "" {
      assert st.run + nl == st.run;
    } else {
      var n := |nl| - 1;
      StepsRun(st, nl[..n]);
      assert st.run + nl[..n] + [nl[n]] == st.run + nl;
    }
  }

  lemma SepAtWithin(a: string, s: string, b: string, i: nat)
    requires SepAt(s, i) > 0
    ensures SepAt(a + s + b, |a| + i) == SepAt(s, i)
  {
    assert forall k :: 0 <= k < |s| ==> (a + s + b)[|a| + k] == s[k];
    if SepAt(s, i) == 2 {
      assert (a + s + b)[|a| + i] == s[i] && (a + s + b)[|a| + i + 1] == s[i + 1];
    }
  }

  lemma BoundaryWithin(a: string, run: string, b: string)
    requires Boundary(run)
    ensures Boundary(a + run + b)
  {
    var i :| 0 <= i < |run| && SepAt(run, i) > 0;
    SepAtWithin(a, run, b, i);
    assert SepAt(a + run + b, |a| + i) > 0;
  }

  /** The run is the newline-only end of the text; nothing is closed before something was open. */
  ghost predicate Shape(s: string, st: Scan) {
    && NewlineOnly(st.run)
    && |st.run| <= |s| && s == s[..|s| - |st.run|] + st.run
    && (st.open == "" ==> st.closed == [] && st.run == s)
  }

  lemma ShapeStep(s: string, st: Scan, c: char)
    requires Shape(s, st)
    ensures Shape(s + [c], st.Step(c))
  {
    var body := s[..|s| - |st.run|];
    if IsNewline(c) {
      assert (s + [c])[..|body|] == body;
      Assoc(body, st.run, [c]);
    } else {
      assert (s + [c])[..|s| + 1] + "" == s + [c];
    }
  }

  lemma {:induction false} ScanShape(s: string)
    ensures Shape(s, Scanned(s))
    decreases |s|
  {
    if s != "" {
      var n := |s| - 1;
      ScanShape(s[..n]);
      ShapeStep(s[..n], Scanned(s[..n]), s[n]);
      assert s[..n] + [s[n]] == s;
    }
  }

  lemma StepsSnoc(st: Scan, s: string)
    requires s != ""
    ensures st.Steps(s) == st.Steps(s[..|s| - 1]).Step(s[|s| - 1])
  {
  }

  /** How a scan of x from st relates to a scan of x from the start, st being at a boundary. */
  ghost predicate Resumes(st: Scan, x: string, anew: Scan, st': Scan) {
    if anew.open == "" then
      anew.closed == [] && st' == st.(run := st.run + x)
    else
      st' == Scan(st.closed + [st.open] + anew.closed, anew.open, anew.run)
  }

  lemma ResumesStep(st: Scan, x: string, anew: Scan, st': Scan, c: char)
    requires st.open != "" && Boundary(st.run)
    requires Resumes(st, x, anew, st')
    ensures Resumes(st, x + [c], anew.Step(c), st'.Step(c))
  {
    if anew.open == "" {
      BoundaryWithin("", st.run, x);
      assert "" + st.run + x == st.run + x;
      assert st.run + x + [c] == st.run + (x + [c]);
      assert st.closed + [st.open] + [] == st.closed + [st.open];
    } else {
      assert st.closed + [st.open] + anew.closed + [anew.open] == st.closed + [st.open] + (anew.closed + [anew.open]);
    }
  }

  /** The scanner forgets everything at a boundary: what follows is scanned as a new stream. */
  lemma {:induction false} ScanAfterBoundary(st: Scan, x: string)
    requires st.open != "" && Boundary(st.run)
    ensures Resumes(st, x, Scanned(x), st.Steps(x))
    decreases |x|
  {
    if x == "" {
      assert st.run + x == st.run;
    } else {
      var n := |x| - 1;
      ScanAfterBoundary(st, x[..n]);
      ResumesStep(st, x[..n], Scanned(x[..n]), st.Steps(x[..n]), x[n]);
      assert x[..n] + [x[n]] == x;
    }
  }

  /** How a scan of nl + x relates to a scan of x alone. */
  ghost predicate SkipsRun(nl: string, x: string, anew: Scan, st: Scan) {
    if anew.open == "" then st == Scan([], "", nl + x) && anew == Scan([], "", x) else st == anew
  }

  lemma SkipsRunStep(nl: string, x: string, anew: Scan, st: Scan, c: char)
    requires SkipsRun(nl, x, anew, st)
    ensures SkipsRun(nl, x + [c], anew.Step(c), st.Step(c))
  {
    Assoc(nl, x, [c]);
  }

  /** Leading line ends never matter. */
  lemma {:induction false} ScanLeadingRun(nl: string, x: string)
    requires NewlineOnly(nl)
    ensures SkipsRun(nl, x, Scanned(x), Scanned(nl + x))
    decreases |x|
  {
    if x == "" {
      assert nl + x == nl;
      StepsRun(START, nl);
      assert "" + nl == nl;
    } else {
      var a, c := x[..|x| - 1], x[|x| - 1];
      ScanLeadingRun(nl, a);
      SkipsRunStep(nl, a, Scanned(a), Scanned(nl + a), c);
      assert a + [c] == x;
      assert (nl + x)[..|nl + x| - 1] == nl + a;
      StepsSnoc(START, nl + x);
    }
  }

  lemma SepIsBoundary(q: string, sep: string)
    requires NewlineOnly(sep) && sep != "" && SepAt(sep, 0) > 0
    ensures Boundary(Scanned(q + sep).run)
  {
    StepsConcat(START, q, sep);
    StepsRun(Scanned(q), sep);
    var run := Scanned(q).run;
    SepAtWithin(run, sep, "", 0);
    assert run + sep + "" == run + sep;
    assert SepAt(run + sep, |run|) > 0;
  }

  lemma EndsWithSepIsBoundary(p: string)
    requires EndsWithSep(p)
    ensures Boundary(Scanned(p).run)
  {
    var i :| 0 <= i < |p| && SepAt(p, i) > 0 && i + SepAt(p, i) == |p|;
    SepIsNewlines(p, i);
    SepShift(p, i, 0);
    SepIsBoundary(p[..i], p[i..]);
    assert p[..i] + p[i..] == p;
  }

  lemma SepShift(s: string, from: nat, i: nat)
    requires from + i <= |s|
    ensures SepAt(s[from..], i) == SepAt(s, from + i)
  {
    assert forall k :: 0 <= k < |s| - from ==> s[from..][k] == s[from + k];
  }

  lemma ResumesEnds(st: Scan, x: string, anew: Scan, st': Scan)
    requires st.open != "" && Boundary(st.run)
    requires Resumes(st, x, anew, st')
    ensures st'.Segments() == st.Segments() + anew.Segments()
    ensures st'.Ended() == st.Segments() + anew.Ended()
  {
    if anew.open == "" {
      BoundaryWithin("", st.run, x);
      assert "" + st.run + x == st.run + x;
      assert st.Segments() + [] == st.Segments();
    } else {
      assert st'.closed == st.Segments() + anew.closed;
      assert st.Segments() + anew.closed + [anew.open] == st.Segments() + (anew.closed + [anew.open]);
    }
  }

  lemma NothingOpen(s: string)
    ensures Scanned(s).open == "" ==> Scanned(s).closed == [] && NewlineOnly(s)
  {
    ScanShape(s);
  }

  /** Leading line ends never matter, in terms of segments. */
  lemma SkipLeadingRun(nl: string, x: string)
    requires NewlineOnly(nl)
    ensures Scanned(nl + x).Ended() == Scanned(x).Ended()
    ensures Scanned(nl + x).Segments() == Scanned(x).Segments()
  {
    ScanLeadingRun(nl, x);
    NothingOpen(x);
  }

  /** Cutting a stream just after any separator cuts its segments in two. */
  lemma CutAfterSep(p: string, x: string)
    requires EndsWithSep(p)
    ensures Scanned(p + x).Ended() == Scanned(p).Ended() + Scanned(x).Ended()
    ensures Scanned(p + x).Segments() == Scanned(p).Segments() + Scanned(x).Segments()
    ensures Scanned(p).Ended() == Scanned(p).Segments()
  {
    EndsWithSepIsBoundary(p);
    NothingOpen(p);
    if Scanned(p).open == "" {
      SkipLeadingRun(p, x);
    } else {
      StepsConcat(START, p, x);
      ScanAfterBoundary(Scanned(p), x);
      ResumesEnds(Scanned(p), x, Scanned(x), Scanned(p + x));
    }
  }

  ghost predicate IsTrimmed(b: string, open: string, run: string) {
    exists lead :: NewlineOnly(lead) && b == lead + open + run
  }

  lemma SepFreePart(a: string, s: string, b: string)
    requires SepFree(a + s + b)
    ensures SepFree(s) && !Boundary(s)
  {
    forall i | 0 <= i < |s| ensures SepAt(s, i) == 0 {
      if SepAt(s, i) > 0 {
        SepAtWithin(a, s, b, i);
        assert false;
      }
    }
  }

  lemma TrimmedStep(b: string, st: Scan, c: char)
    requires st.closed == [] && !Boundary(st.run)
    requires if st.open == "" then NewlineOnly(b) else IsTrimmed(b, st.open, st.run)
    ensures var st' := st.Step(c);
            st'.closed == [] && (st'.open != "" ==> IsTrimmed(b + [c], st'.open, st'.run))
  {
    var st' := st.Step(c);
    if st.open == "" {
      if !IsNewline(c) {
        assert b + [c] == b + st'.open + st'.run;
      }
    } else {
      var lead :| NewlineOnly(lead) && b == lead + st.open + st.run;
      assert b + [c] == lead + st'.open + st'.run;
    }
  }

  lemma RunSepFree(b: string)
    requires SepFree(b)
    ensures !Boundary(Scanned(b).run)
  {
    ScanShape(b);
    var run := Scanned(b).run;
    assert b[..|b| - |run|] + run + "" == b;
    SepFreePart(b[..|b| - |run|], run, "");
  }

  lemma PrefixSepFree(b: string, c: char)
    requires SepFree(b + [c])
    ensures SepFree(b)
  {
    assert "" + b + [c] == b + [c];
    SepFreePart("", b, [c]);
  }

  /** Without a separator there is one segment: the text less its outer line ends. */
  lemma {:induction false} ScanSepFree(b: string)
    requires SepFree(b)
    ensures var st := Scanned(b);
            && st.closed == []
            && !Boundary(st.run)
            && (st.open != "" ==> IsTrimmed(b, st.open, st.run))
    decreases |b|
  {
    RunSepFree(b);
    if b != "" {
      var a, c := b[..|b| - 1], b[|b| - 1];
      assert a + [c] == b;
      PrefixSepFree(a, c);
      ScanSepFree(a);
      ScanShape(a);
      TrimmedStep(a, Scanned(a), c);
    }
  }

  lemma NoSepBeforeFirst(s: string, j: nat)
    requires j <= FirstSep(s, 0)
    ensures SepFree(s[..j])
  {
    assert "" + s[..j] + s[j..] == s;
    forall i | 0 <= i < j ensures SepAt(s[..j], i) == 0 {
      if SepAt(s[..j], i) > 0 {
        SepAtWithin("", s[..j], s[j..], i);
        assert false;
      }
    }
  }

  // ---------------------------------------------------------------- extending a stream

  /** A leftmost separator stays leftmost, and of the same length, when text is appended:
      an incomplete separator hides no shorter one. */
  lemma FirstSepStable(s: string, t: string)
    requires FirstSep(s, 0) < |s|
    ensures FirstSep(s + t, 0) == FirstSep(s, 0)
    ensures SepAt(s + t, FirstSep(s, 0)) == SepAt(s, FirstSep(s, 0))
  {
    var j := FirstSep(s, 0);
    assert "" + s + t == s + t;
    SepAtWithin("", s, t, j);
    forall k | 0 <= k < j ensures SepAt(s + t, k) == 0 {
      assert SepAt(s, k) == 0;
    }
  }

  /** Splitting an extended stream only ever splits the unterminated rest again. */
  lemma {:induction false} SplitExtends(s: string, t: string)
    ensures Split(s + t) == Complete(Split(s)) + Split(Rest(s) + t)
    decreases |s|
  {
    var j := FirstSep(s, 0);
    if j < |s| {
      FirstSepStable(s, t);
      var e := j + SepAt(s, j);
      assert (s + t)[..j] == s[..j];
      assert (s + t)[e..] == s[e..] + t;
      SplitExtends(s[e..], t);
      SplitPrepend(s[..j], Split(s[e..]), Split(Rest(s[e..]) + t));
    }
  }

  lemma SplitPrepend(b: string, blocks: seq<string>, more: seq<string>)
    requires |blocks| > 0
    ensures [b] + (Complete(blocks) + more) == Complete([b] + blocks) + more
  {
  }

  lemma {:induction false} RestSepFree(s: string)
    ensures SepFree(Rest(s))
    decreases |s|
  {
    var j := FirstSep(s, 0);
    if j < |s| {
      RestSepFree(s[j + SepAt(s, j)..]);
    }
  }
}
