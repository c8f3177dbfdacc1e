/** What the `set` and `toggle` commands promise, proved about the
    functions that specify them. */
module CommandProperties {
  import opened Common
  import opened Library
  import opened InputSources
  import opened Locator
  import opened InputFeature
  import opened Commands

  /** The displays added have the handles of the first ones located, in order. */
  ghost predicate AddedPrefix(added: seq<Display>, ds: seq<Display>) {
    |added| <= |ds| && Handles(added) == Handles(ds[..|added|])
  }

  lemma {:induction false} HandlesPrefixCons(d: Display, rest: seq<Display>, ds: seq<Display>)
    requires ds != [] && d.handle == ds[0].handle
    requires AddedPrefix(rest, ds[1..])
    ensures AddedPrefix([d] + rest, ds)
  {
    var k := |rest|;
    assert ds[..k + 1] == [ds[0]] + ds[1..][..k];
    HandlesCons(d, rest);
    HandlesCons(ds[0], ds[1..][..k]);
  }

  lemma {:induction false} AddedCons(d: Display, rest: Run, ds: seq<Display>)
    requires ds != [] && d.handle == ds[0].handle
    requires AddedPrefix(rest.added, ds[1..]) && (rest.result.Ok? <==> |rest.added| == |ds[1..]|)
    ensures var r := After([d], rest);
      AddedPrefix(r.added, ds) && (r.result.Ok? <==> |r.added| == |ds|)
  {
    HandlesPrefixCons(d, rest.added, ds);
  }

  /** A call `set` may make: a refresh, a warning, or a write of the
      requested source's code. */
  predicate SetEvent(e: Event, src: InputSource) {
    e.Refresh? || e.Warned? || (e.SetVcp? && e.value == Value(src))
  }

  /** The calls of one write attempt on `d` after the calls `t`: a write of
      the source's code to the feature code the display's database lists,
      then a warning about the display exactly when the library rejects the
      write; without the feature, only the warning. */
  function WriteCalls(o: Oracle, t: Trace, d: Display, src: InputSource): seq<Event> {
    if INPUT_SELECT in d.info.mccsDatabase then
      var w := SetVcp(d.handle, d.info.mccsDatabase[INPUT_SELECT].code, Value(src));
      [w] + (if SetVcpReply(o, t, w.handle, w.code, w.value).Err? then [Warned(d.handle)] else [])
    else [Warned(d.handle)]
  }

  /** A write attempt and its warning make exactly the calls `WriteCalls` lists. */
  lemma {:induction false} WriteStepEvents(o: Oracle, t: Trace, d: Display, src: InputSource)
    ensures WarnIfFailed(SetInputSourceStep(o, t, d, src), d.handle) == t + WriteCalls(o, t, d, src)
  {
    if INPUT_SELECT in d.info.mccsDatabase {
      var w := SetVcp(d.handle, d.info.mccsDatabase[INPUT_SELECT].code, Value(src));
      assert SetInputSourceStep(o, t, d, src) == SetVcpStep(o, t, w.handle, w.code, w.value);
    }
  }

  /** Every call of a write attempt is a write of that source's code to that
      display, or a warning about it. */
  lemma {:induction false} WriteCallsEvents(o: Oracle, t: Trace, d: Display, src: InputSource)
    ensures forall e | e in WriteCalls(o, t, d, src) :: WriteOf(e, d, src) || e == Warned(d.handle)
  {
  }

  /** Deciding the target makes no call once a target is decided, and
      otherwise exactly one read of the feature code from the display's
      database, or none without the feature. */
  lemma {:induction false} DecideEvents(o: Oracle, t: Trace, d: Display, first: InputSource, second: InputSource, target: Option<InputSource>)
    ensures Decide(o, t, d, first, second, target).trace ==
      t + (if target.None? && INPUT_SELECT in d.info.mccsDatabase then [GetVcp(d.handle, d.info.mccsDatabase[INPUT_SELECT].code)] else [])
  {
    if target.None? {
      assert Decide(o, t, d, first, second, target).trace == GetInputSourceStep(o, t, d).trace;
    }
  }

  /** One visit of `set`: a refresh, then, when the refresh succeeded, the
      calls of one write attempt on the refreshed display; a failed refresh
      is the only failure, and is the refresh's own error. */
  lemma {:induction false} SetVisitShape(o: Oracle, t: Trace, h: nat, src: InputSource)
    ensures var v := SetVisit(o, t, h, src);
      (v.result.Err? <==> RefreshReply(o, t, h).Err?) &&
      (v.result.Err? ==> v.trace == t + [Refresh(h)] && RefreshReply(o, t, h) == Err(v.result.error)) &&
      (v.result.Ok? ==>
         v.result.value == Display(h, RefreshReply(o, t, h).value) &&
         v.trace == t + [Refresh(h)] + WriteCalls(o, t + [Refresh(h)], v.result.value, src)) &&
      t <= v.trace &&
      (forall e | e in v.trace[|t|..] :: SetEvent(e, src) && (e.Warned? ==> e.handle == h && v.result.Ok?))
  {
    var t1 := t + [Refresh(h)];
    var v := SetVisit(o, t, h, src);
    if RefreshReply(o, t, h).Ok? {
      var d := Display(h, RefreshReply(o, t, h).value);
      assert v == Step(WarnIfFailed(SetInputSourceStep(o, t1, d, src), h), Ok(d));
      WriteStepEvents(o, t1, d, src);
      WriteCallsEvents(o, t1, d, src);
      assert v.trace[|t|..] == [Refresh(h)] + WriteCalls(o, t1, d, src);
    } else {
      assert v == Step(t1, Err(RefreshReply(o, t, h).error));
      assert v.trace[|t|..] == [Refresh(h)];
    }
  }

  /** `d` is sent `src`: the source's code, to the feature code its database lists. */
  predicate WriteOf(e: Event, d: Display, src: InputSource) {
    INPUT_SELECT in d.info.mccsDatabase && e == SetVcp(d.handle, d.info.mccsDatabase[INPUT_SELECT].code, Value(src))
  }

  /** The calls `es` hold the write of `src` to `d`, or, when `d` lacks the
      feature, the warning about it. */
  predicate Attempted(es: seq<Event>, d: Display, src: InputSource) {
    if INPUT_SELECT in d.info.mccsDatabase then SetVcp(d.handle, d.info.mccsDatabase[INPUT_SELECT].code, Value(src)) in es
    else Warned(d.handle) in es
  }

  /** The call at index `j` of `es` is a write the library rejected. */
  predicate FailedWrite(o: Oracle, es: Trace, j: int) {
    0 <= j < |es| && es[j].SetVcp? && SetVcpReply(o, es[..j], es[j].handle, es[j].code, es[j].value).Err?
  }

  /** The call at index `j` of `es` is a refresh the library rejected. */
  predicate FailedRefresh(o: Oracle, es: Trace, j: int) {
    0 <= j < |es| && es[j].Refresh? && RefreshReply(o, es[..j], es[j].handle).Err?
  }

  /** A run started after the calls `t` stops at a rejected refresh: that
      refresh is its last call and its error is the run's result. */
  ghost predicate RefreshAborts(o: Oracle, t: Trace, r: Run) {
    t <= r.trace &&
    forall j | |t| <= j < |r.trace| && FailedRefresh(o, r.trace, j) ::
      j == |r.trace| - 1 && r.result == Err(RefreshReply(o, r.trace[..j], r.trace[j].handle).error)
  }

  /** A visit whose refresh succeeded and that makes no other refresh has no
      rejected refresh. */
  lemma {:induction false} VisitRefreshed(o: Oracle, t: Trace, h: nat, tv: Trace)
    requires RefreshReply(o, t, h).Ok? && |t| < |tv| && tv[..|t| + 1] == t + [Refresh(h)]
    requires forall e | e in tv[|t| + 1..] :: !e.Refresh?
    ensures forall j | |t| <= j < |tv| :: !FailedRefresh(o, tv, j)
  {
    forall j | |t| <= j < |tv| ensures !FailedRefresh(o, tv, j) {
      if j == |t| {
        assert tv[..j] == (t + [Refresh(h)])[..j] == t;
        assert tv[j] == (t + [Refresh(h)])[j] == Refresh(h);
      } else {
        assert tv[j] == tv[|t| + 1..][j - |t| - 1];
      }
    }
  }

  /** Calls free of rejected refreshes, in front of a run that stops at a
      rejected refresh, give a run that stops there from the start. */
  lemma {:induction false} AbortsAfter(o: Oracle, t: Trace, tv: Trace, r: Run)
    requires t <= tv && forall j | |t| <= j < |tv| :: !FailedRefresh(o, tv, j)
    requires RefreshAborts(o, tv, r)
    ensures RefreshAborts(o, t, r)
  {
    forall j | |t| <= j < |r.trace| && FailedRefresh(o, r.trace, j)
      ensures j == |r.trace| - 1 && r.result == Err(RefreshReply(o, r.trace[..j], r.trace[j].handle).error)
    {
      if j < |tv| {
        assert r.trace[..j] == tv[..j];
        assert r.trace[j] == tv[j];
        assert FailedRefresh(o, tv, j);
        assert false;
      }
    }
  }

  /** A rejected refresh ends the `set` loop with its error. */
  lemma {:induction false} SetLoopAborts(o: Oracle, t: Trace, ds: seq<Display>, src: InputSource)
    ensures RefreshAborts(o, t, SetLoop(o, t, ds, src))
    decreases |ds|
  {
    if ds != [] {
      var h := ds[0].handle;
      var v := SetVisit(o, t, h, src);
      SetVisitShape(o, t, h, src);
      if v.result.Err? {
        assert SetLoop(o, t, ds, src) == Run(v.trace, [], Err(v.result.error));
        assert v.trace[..|t|] == t;
      } else {
        var rest := SetLoop(o, v.trace, ds[1..], src);
        SetLoopAborts(o, v.trace, ds[1..], src);
        WriteCallsEvents(o, t + [Refresh(h)], v.result.value, src);
        assert v.trace[|t| + 1..] == WriteCalls(o, t + [Refresh(h)], v.result.value, src);
        VisitRefreshed(o, t, h, v.trace);
        assert SetLoop(o, t, ds, src) == After([v.result.value], rest);
        AbortsAfter(o, t, v.trace, rest);
      }
    }
  }

  /** What a run started after the calls `t` writes: every added display is
      sent `src` (or warned about when it lacks the feature), every write
      sends `src` to an added display, and every write the library rejects
      is followed by a warning about that display. */
  ghost predicate WritesEach(o: Oracle, t: Trace, r: Run, src: InputSource) {
    t <= r.trace &&
    (forall d | d in r.added :: Attempted(r.trace[|t|..], d, src)) &&
    (forall e | e in r.trace[|t|..] && e.SetVcp? :: exists d | d in r.added :: WriteOf(e, d, src)) &&
    (forall j | |t| <= j < |r.trace| && FailedWrite(o, r.trace, j) ::
       j + 1 < |r.trace| && r.trace[j + 1] == Warned(r.trace[j].handle))
  }

  /** A run that added nothing and wrote nothing meets `WritesEach` for any source. */
  lemma {:induction false} NothingWritten(o: Oracle, t: Trace, r: Run, src: InputSource)
    requires t <= r.trace && r.added == [] && forall e | e in r.trace[|t|..] :: !e.SetVcp?
    ensures WritesEach(o, t, r, src)
  {
    forall j | |t| <= j < |r.trace| ensures !r.trace[j].SetVcp? {
      assert r.trace[j] == r.trace[|t|..][j - |t|];
    }
  }

  lemma {:induction false} SuffixIn(s: Trace, a: nat, b: nat)
    requires a <= b <= |s|
    ensures forall e | e in s[b..] :: e in s[a..]
  {
    forall e | e in s[b..] ensures e in s[a..] {
      var k :| 0 <= k < |s[b..]| && s[b..][k] == e;
      assert s[a..][k + b - a] == e;
    }
  }

  /** Visiting `d` (calls that neither write nor warn, up to `tw`, then one
      write attempt) in front of a run that meets `WritesEach` gives a run
      that meets it from the start of the visit. */
  lemma {:induction false} WritesAfter(o: Oracle, t: Trace, tw: Trace, d: Display, src: InputSource, rest: Run)
    requires t <= tw && forall e | e in tw[|t|..] :: e.Refresh? || e.GetVcp?
    requires WritesEach(o, tw + WriteCalls(o, tw, d, src), rest, src)
    ensures WritesEach(o, t, After([d], rest), src)
  {
    var tv := tw + WriteCalls(o, tw, d, src);
    var r := After([d], rest);
    assert r.trace == rest.trace && r.added == [d] + rest.added;
    assert rest.trace[..|tv|] == tv;
    AttemptedAfter(o, t, tw, d, src, rest);
    WrittenAfter(o, t, tw, d, src, rest);
    WarnedAfter(o, t, tw, d, src, rest);
  }

  /** The calls of a visit before its write attempt neither write nor warn. */
  lemma {:induction false} NoWriteBefore(t: Trace, tw: Trace, s: Trace)
    requires t <= tw <= s && forall e | e in tw[|t|..] :: e.Refresh? || e.GetVcp?
    ensures forall j | |t| <= j < |tw| :: !s[j].SetVcp? && !s[j].Warned?
  {
    forall j | |t| <= j < |tw| ensures !s[j].SetVcp? && !s[j].Warned? {
      assert s[j] == tw[|t|..][j - |t|];
      assert tw[|t|..][j - |t|] in tw[|t|..];
    }
  }

  lemma {:induction false} AttemptedAfter(o: Oracle, t: Trace, tw: Trace, d: Display, src: InputSource, rest: Run)
    requires t <= tw
    requires WritesEach(o, tw + WriteCalls(o, tw, d, src), rest, src)
    ensures forall x | x in [d] + rest.added :: Attempted(rest.trace[|t|..], x, src)
  {
    var tv := tw + WriteCalls(o, tw, d, src);
    assert rest.trace[..|tv|] == tv;
    SuffixIn(rest.trace, |t|, |tv|);
    assert rest.trace[|t|..][|tw| - |t|] == tv[|tw|] == WriteCalls(o, tw, d, src)[0];
    forall x | x in [d] + rest.added ensures Attempted(rest.trace[|t|..], x, src) {
      if x != d {
        assert x in rest.added;
      }
    }
  }

  lemma {:induction false} WrittenAfter(o: Oracle, t: Trace, tw: Trace, d: Display, src: InputSource, rest: Run)
    requires t <= tw && forall e | e in tw[|t|..] :: e.Refresh? || e.GetVcp?
    requires WritesEach(o, tw + WriteCalls(o, tw, d, src), rest, src)
    ensures forall e | e in rest.trace[|t|..] && e.SetVcp? :: exists x | x in [d] + rest.added :: WriteOf(e, x, src)
  {
    var calls := WriteCalls(o, tw, d, src);
    var tv := tw + calls;
    assert rest.trace[..|tv|] == tv;
    NoWriteBefore(t, tw, rest.trace);
    forall e | e in rest.trace[|t|..] && e.SetVcp? ensures exists x | x in [d] + rest.added :: WriteOf(e, x, src) {
      var k :| 0 <= k < |rest.trace[|t|..]| && rest.trace[|t|..][k] == e;
      var j := k + |t|;
      assert rest.trace[j] == e;
      if j < |tw| {
        assert false;
      } else if j < |tv| {
        assert e == calls[j - |tw|];
        assert calls[0] == e;
        assert WriteOf(e, d, src);
      } else {
        assert rest.trace[|tv|..][j - |tv|] == e;
        var x :| x in rest.added && WriteOf(e, x, src);
        assert x in [d] + rest.added;
      }
    }
  }

  lemma {:induction false} WarnedAfter(o: Oracle, t: Trace, tw: Trace, d: Display, src: InputSource, rest: Run)
    requires t <= tw && forall e | e in tw[|t|..] :: e.Refresh? || e.GetVcp?
    requires WritesEach(o, tw + WriteCalls(o, tw, d, src), rest, src)
    ensures forall j | |t| <= j < |rest.trace| && FailedWrite(o, rest.trace, j) ::
       j + 1 < |rest.trace| && rest.trace[j + 1] == Warned(rest.trace[j].handle)
  {
    var calls := WriteCalls(o, tw, d, src);
    var tv := tw + calls;
    assert rest.trace[..|tv|] == tv;
    NoWriteBefore(t, tw, rest.trace);
    forall j | |t| <= j < |rest.trace| && FailedWrite(o, rest.trace, j)
      ensures j + 1 < |rest.trace| && rest.trace[j + 1] == Warned(rest.trace[j].handle)
    {
      if j < |tw| {
        assert false;
      } else if j < |tv| {
        assert rest.trace[j] == calls[j - |tw|];
        if j == |tw| {
          assert rest.trace[..j] == tw;
          assert rest.trace[j + 1] == tv[j + 1] == calls[1];
        } else {
          assert false;
        }
      }
    }
  }

  /** Every display `set` adds is sent the source, or warned about when it
      lacks the feature; every write sends the source to an added display;
      every rejected write is followed by a warning. */
  lemma {:induction false} SetLoopWrites(o: Oracle, t: Trace, ds: seq<Display>, src: InputSource)
    ensures WritesEach(o, t, SetLoop(o, t, ds, src), src)
    decreases |ds|
  {
    var r := SetLoop(o, t, ds, src);
    if ds == [] {
      NothingWritten(o, t, r, src);
    } else {
      var h := ds[0].handle;
      var v := SetVisit(o, t, h, src);
      SetVisitShape(o, t, h, src);
      if v.result.Err? {
        assert r == Run(v.trace, [], Err(v.result.error));
        assert r.trace[|t|..] == [Refresh(h)];
        NothingWritten(o, t, r, src);
      } else {
        var tw := t + [Refresh(h)];
        var rest := SetLoop(o, v.trace, ds[1..], src);
        SetLoopWrites(o, v.trace, ds[1..], src);
        assert r == After([v.result.value], rest);
        assert tw[|t|..] == [Refresh(h)];
        WritesAfter(o, t, tw, v.result.value, src, rest);
      }
    }
  }

  /** `set` adds every located display whose refresh succeeded, whether or
      not its write succeeded, and stops at the first failed refresh: that
      display is not added and its error is the result. Nothing else aborts. */
  lemma {:induction false} SetLoopAdds(o: Oracle, t: Trace, ds: seq<Display>, src: InputSource)
    ensures var r := SetLoop(o, t, ds, src);
      RefreshAborts(o, t, r) && AddedPrefix(r.added, ds) &&
      (r.result.Ok? <==> |r.added| == |ds|) &&
      (r.result.Err? ==>
         |r.trace| > |t| && r.trace[|r.trace| - 1] == Refresh(ds[|r.added|].handle) &&
         RefreshReply(o, r.trace[..|r.trace| - 1], ds[|r.added|].handle) == Err(r.result.error))
    decreases |ds|
  {
    SetLoopAborts(o, t, ds, src);
    if ds != [] {
      var v := SetVisit(o, t, ds[0].handle, src);
      SetVisitShape(o, t, ds[0].handle, src);
      if v.result.Err? {
        assert SetLoop(o, t, ds, src) == Run(v.trace, [], Err(v.result.error));
        assert v.trace[..|t|] == t;
      } else {
        SetLoopAdds(o, v.trace, ds[1..], src);
        var rest := SetLoop(o, v.trace, ds[1..], src);
        assert SetLoop(o, t, ds, src) == After([v.result.value], rest);
        assert rest.result.Err? ==> ds[|[v.result.value] + rest.added|] == ds[1..][|rest.added|];
        HandlesPrefixCons(v.result.value, rest.added, ds);
      }
    }
  }

  /** The `set` loop only refreshes, warns, and writes the requested
      source's code; it never reads a feature or sleeps. Every display it
      adds is sent the source (or warned about without the feature), and
      every write goes to an added display. */
  lemma {:induction false} SetLoopEvents(o: Oracle, t: Trace, ds: seq<Display>, src: InputSource)
    ensures var r := SetLoop(o, t, ds, src);
      t <= r.trace && (forall e | e in r.trace[|t|..] :: SetEvent(e, src)) && WritesEach(o, t, r, src)
    decreases |ds|
  {
    SetLoopWrites(o, t, ds, src);
    if ds != [] {
      var v := SetVisit(o, t, ds[0].handle, src);
      SetVisitShape(o, t, ds[0].handle, src);
      if v.result.Ok? {
        SetLoopEvents(o, v.trace, ds[1..], src);
        var rest := SetLoop(o, v.trace, ds[1..], src);
        assert SetLoop(o, t, ds, src) == After([v.result.value], rest);
        SliceConcat(t, v.trace, rest.trace);
      } else {
        assert SetLoop(o, t, ds, src) == Run(v.trace, [], Err(v.result.error));
      }
    }
  }

  /** A warning is only ever logged about a display that is then added. */
  lemma {:induction false} SetLoopWarnsAdded(o: Oracle, t: Trace, ds: seq<Display>, src: InputSource)
    ensures var r := SetLoop(o, t, ds, src);
      t <= r.trace && forall e | e in r.trace[|t|..] && e.Warned? :: e.handle in Handles(r.added)
    decreases |ds|
  {
    if ds != [] {
      var v := SetVisit(o, t, ds[0].handle, src);
      SetVisitShape(o, t, ds[0].handle, src);
      if v.result.Ok? {
        SetLoopWarnsAdded(o, v.trace, ds[1..], src);
        var rest := SetLoop(o, v.trace, ds[1..], src);
        assert SetLoop(o, t, ds, src) == After([v.result.value], rest);
        SliceConcat(t, v.trace, rest.trace);
        HandlesCons(v.result.value, rest.added);
        assert forall x | x in Handles(rest.added) :: x in Handles([v.result.value] + rest.added);
      } else {
        assert SetLoop(o, t, ds, src) == Run(v.trace, [], Err(v.result.error));
      }
    }
  }

  /** Once the target is decided, a visit of `toggle` is a visit of `set`
      with that target. */
  lemma {:induction false} ToggleVisitDecided(o: Oracle, t: Trace, h: nat, first: InputSource, second: InputSource,
                                              goal: InputSource)
    ensures var v := ToggleVisit(o, t, h, first, second, Some(goal));
      var s := SetVisit(o, t, h, goal);
      v.trace == s.trace && (v.result.Ok? <==> s.result.Ok?) &&
      (s.result.Ok? ==> v.result.value == (s.result.value, goal)) &&
      (s.result.Err? ==> v.result.error == s.result.error)
  {
    var t1 := t + [Refresh(h)];
    if RefreshReply(o, t, h).Ok? {
      var d := Display(h, RefreshReply(o, t, h).value);
      assert Decide(o, t1, d, first, second, Some(goal)) == Step(t1, Ok(goal));
    }
  }

  /** Once the target is decided, the rest of `toggle` is exactly `set` of
      that target over the remaining displays. */
  lemma {:induction false} ToggleDecidedIsSet(o: Oracle, t: Trace, ds: seq<Display>, first: InputSource, second: InputSource,
                                              goal: InputSource)
    ensures ToggleLoop(o, t, ds, first, second, Some(goal)) == SetLoop(o, t, ds, goal)
    decreases |ds|
  {
    if ds != [] {
      ToggleVisitDecided(o, t, ds[0].handle, first, second, goal);
      var v := SetVisit(o, t, ds[0].handle, goal);
      if v.result.Ok? {
        ToggleDecidedIsSet(o, v.trace, ds[1..], first, second, goal);
        assert ToggleLoop(o, t, ds, first, second, Some(goal)) ==
          After([v.result.value], ToggleLoop(o, v.trace, ds[1..], first, second, Some(goal)));
        assert SetLoop(o, t, ds, goal) == After([v.result.value], SetLoop(o, v.trace, ds[1..], goal));
      } else {
        assert ToggleLoop(o, t, ds, first, second, Some(goal)) == Run(v.trace, [], Err(v.result.error));
        assert SetLoop(o, t, ds, goal) == Run(v.trace, [], Err(v.result.error));
      }
    }
  }

  /** The first visit of `toggle` never sleeps a display, and a display it
      passes on is the one visited. */
  lemma {:induction false} ToggleVisitNoSleep(o: Oracle, t: Trace, h: nat, first: InputSource, second: InputSource)
    ensures var v := ToggleVisit(o, t, h, first, second, None);
      t <= v.trace &&
      (v.result.Ok? ==> v.result.value.0.handle == h) &&
      (forall e | e in v.trace[|t|..] :: !e.Sleep?)
  {
    var t1 := t + [Refresh(h)];
    var v := ToggleVisit(o, t, h, first, second, None);
    if RefreshReply(o, t, h).Ok? {
      var d := Display(h, RefreshReply(o, t, h).value);
      var decided := Decide(o, t1, d, first, second, None);
      DecideEvents(o, t1, d, first, second, None);
      SliceConcat(t, t1, decided.trace);
      assert t1[|t|..] == [Refresh(h)];
      if decided.result.Ok? {
        var goal := decided.result.value;
        assert v == Step(WarnIfFailed(SetInputSourceStep(o, decided.trace, d, goal), h), Ok((d, goal)));
        WriteStepEvents(o, decided.trace, d, goal);
        SliceConcat(t, decided.trace, v.trace);
      } else {
        assert v == Step(decided.trace, Err(decided.result.error));
      }
    } else {
      assert v == Step(t1, Err(RefreshReply(o, t, h).error));
      assert v.trace[|t|..] == [Refresh(h)];
    }
  }

  /** The first visit of `toggle`, once its refresh succeeded: the decision,
      then, when a target was decided, one write attempt of that target. */
  ghost predicate FirstVisit(o: Oracle, t: Trace, h: nat, first: InputSource, second: InputSource,
                             v: Step<(Display, InputSource)>)
    requires RefreshReply(o, t, h).Ok?
  {
    var d := Display(h, RefreshReply(o, t, h).value);
    var decided := Decide(o, t + [Refresh(h)], d, first, second, None);
    (decided.result.Err? ==> v == Step(decided.trace, Err(decided.result.error))) &&
    (decided.result.Ok? ==>
       v == Step(decided.trace + WriteCalls(o, decided.trace, d, decided.result.value), Ok((d, decided.result.value))))
  }

  /** The first visit of `toggle`: a failed refresh ends it with that error;
      otherwise it decides the target, and a decided target is written once,
      with a warning if the write is rejected. */
  lemma {:induction false} ToggleVisitFirst(o: Oracle, t: Trace, h: nat, first: InputSource, second: InputSource)
    ensures var v := ToggleVisit(o, t, h, first, second, None);
      (RefreshReply(o, t, h).Err? ==> v == Step(t + [Refresh(h)], Err(RefreshReply(o, t, h).error))) &&
      (RefreshReply(o, t, h).Ok? ==> FirstVisit(o, t, h, first, second, v))
  {
    var t1 := t + [Refresh(h)];
    var v := ToggleVisit(o, t, h, first, second, None);
    if RefreshReply(o, t, h).Ok? {
      var d := Display(h, RefreshReply(o, t, h).value);
      var decided := Decide(o, t1, d, first, second, None);
      if decided.result.Ok? {
        var goal := decided.result.value;
        assert v == Step(WarnIfFailed(SetInputSourceStep(o, decided.trace, d, goal), h), Ok((d, goal)));
        WriteStepEvents(o, decided.trace, d, goal);
      } else {
        assert v == Step(decided.trace, Err(decided.result.error));
      }
    } else {
      assert v == Step(t1, Err(RefreshReply(o, t, h).error));
    }
  }

  /** `toggle` gave up at the first display: its refresh succeeded, but the
      decision failed (a failed read, or a source that is neither option). */
  ghost predicate DecisionFailed(o: Oracle, t: Trace, ds: seq<Display>, first: InputSource, second: InputSource, r: Run) {
    ds != [] && RefreshReply(o, t, ds[0].handle).Ok? &&
    var d := Display(ds[0].handle, RefreshReply(o, t, ds[0].handle).value);
    var decided := Decide(o, t + [Refresh(ds[0].handle)], d, first, second, None);
    decided.result.Err? && r == Run(decided.trace, [], Err(decided.result.error))
  }

  /** `toggle` adds the located displays in order and succeeds exactly when
      it added them all. It fails only at the first display's decision, with
      nothing added, or at a failed refresh, the last call, of the first
      display not added; a rejected write never ends it. */
  lemma {:induction false} ToggleLoopAdds(o: Oracle, t: Trace, ds: seq<Display>, first: InputSource, second: InputSource)
    ensures var r := ToggleLoop(o, t, ds, first, second, None);
      RefreshAborts(o, t, r) && AddedPrefix(r.added, ds) && (r.result.Ok? <==> |r.added| == |ds|) &&
      (r.result.Err? ==>
         (r.added == [] && DecisionFailed(o, t, ds, first, second, r)) ||
         (|r.trace| > |t| && r.trace[|r.trace| - 1] == Refresh(ds[|r.added|].handle) &&
          RefreshReply(o, r.trace[..|r.trace| - 1], ds[|r.added|].handle) == Err(r.result.error)))
  {
    ToggleLoopStops(o, t, ds, first, second);
    if ds != [] {
      var v := ToggleVisit(o, t, ds[0].handle, first, second, None);
      if v.result.Ok? {
        ToggleLoopContinues(o, t, ds, first, second);
      } else {
        ToggleLoopAborts(o, t, ds, first, second);
      }
    }
  }

  /** A rejected refresh ends the `toggle` loop with its error. */
  lemma {:induction false} ToggleLoopStops(o: Oracle, t: Trace, ds: seq<Display>, first: InputSource, second: InputSource)
    ensures RefreshAborts(o, t, ToggleLoop(o, t, ds, first, second, None))
  {
    if ds != [] {
      var h := ds[0].handle;
      if RefreshReply(o, t, h).Err? {
        ToggleVisitFirst(o, t, h, first, second);
        var r := ToggleLoop(o, t, ds, first, second, None);
        assert r == Run(t + [Refresh(h)], [], Err(RefreshReply(o, t, h).error));
        assert r.trace[..|t|] == t;
      } else {
        var d := Display(h, RefreshReply(o, t, h).value);
        if Decide(o, t + [Refresh(h)], d, first, second, None).result.Err? {
          ToggleStopsUndecided(o, t, ds, first, second);
        } else {
          ToggleStopsDecided(o, t, ds, first, second);
        }
      }
    }
  }

  lemma {:induction false} ToggleStopsUndecided(o: Oracle, t: Trace, ds: seq<Display>, first: InputSource, second: InputSource)
    requires ds != [] && RefreshReply(o, t, ds[0].handle).Ok?
    requires Decide(o, t + [Refresh(ds[0].handle)], Display(ds[0].handle, RefreshReply(o, t, ds[0].handle).value),
                    first, second, None).result.Err?
    ensures RefreshAborts(o, t, ToggleLoop(o, t, ds, first, second, None))
  {
    var h := ds[0].handle;
    var d := Display(h, RefreshReply(o, t, h).value);
    var t1 := t + [Refresh(h)];
    var decided := Decide(o, t1, d, first, second, None);
    ToggleVisitFirst(o, t, h, first, second);
    DecideEvents(o, t1, d, first, second, None);
    assert ToggleLoop(o, t, ds, first, second, None) == Run(decided.trace, [], Err(decided.result.error));
    assert decided.trace[..|t| + 1] == t1;
    assert forall e | e in decided.trace[|t| + 1..] :: e.GetVcp?;
    VisitRefreshed(o, t, h, decided.trace);
  }

  lemma {:induction false} ToggleStopsDecided(o: Oracle, t: Trace, ds: seq<Display>, first: InputSource, second: InputSource)
    requires ds != [] && RefreshReply(o, t, ds[0].handle).Ok?
    requires Decide(o, t + [Refresh(ds[0].handle)], Display(ds[0].handle, RefreshReply(o, t, ds[0].handle).value),
                    first, second, None).result.Ok?
    ensures RefreshAborts(o, t, ToggleLoop(o, t, ds, first, second, None))
  {
    var h := ds[0].handle;
    var d := Display(h, RefreshReply(o, t, h).value);
    var goal := Decide(o, t + [Refresh(h)], d, first, second, None).result.value;
    var v := ToggleVisit(o, t, h, first, second, None);
    ToggleFirstRefreshed(o, t, h, first, second);
    var rest := ToggleLoop(o, v.trace, ds[1..], first, second, Some(goal));
    ToggleDecidedIsSet(o, v.trace, ds[1..], first, second, goal);
    SetLoopAborts(o, v.trace, ds[1..], goal);
    assert ToggleLoop(o, t, ds, first, second, None) == After([d], rest);
    AbortsAfter(o, t, v.trace, rest);
  }

  /** A first visit of `toggle` that decided a target has no rejected refresh. */
  lemma {:induction false} ToggleFirstRefreshed(o: Oracle, t: Trace, h: nat, first: InputSource, second: InputSource)
    requires RefreshReply(o, t, h).Ok?
    requires Decide(o, t + [Refresh(h)], Display(h, RefreshReply(o, t, h).value), first, second, None).result.Ok?
    ensures var d := Display(h, RefreshReply(o, t, h).value);
      var v := ToggleVisit(o, t, h, first, second, None);
      v.result == Ok((d, Decide(o, t + [Refresh(h)], d, first, second, None).result.value)) &&
      forall j | |t| <= j < |v.trace| :: !FailedRefresh(o, v.trace, j)
  {
    var d := Display(h, RefreshReply(o, t, h).value);
    var t1 := t + [Refresh(h)];
    var decided := Decide(o, t1, d, first, second, None);
    var goal := decided.result.value;
    var v := ToggleVisit(o, t, h, first, second, None);
    ToggleVisitFirst(o, t, h, first, second);
    assert v.trace == decided.trace + WriteCalls(o, decided.trace, d, goal);
    DecideEvents(o, t1, d, first, second, None);
    WriteCallsEvents(o, decided.trace, d, goal);
    assert v.trace[|t| + 1..] == decided.trace[|t| + 1..] + WriteCalls(o, decided.trace, d, goal);
    VisitRefreshed(o, t, h, v.trace);
  }

  /** `ToggleLoopAdds` when the first visit fails. */
  lemma {:induction false} ToggleLoopAborts(o: Oracle, t: Trace, ds: seq<Display>, first: InputSource, second: InputSource)
    requires ds != [] && ToggleVisit(o, t, ds[0].handle, first, second, None).result.Err?
    ensures var r := ToggleLoop(o, t, ds, first, second, None);
      r.added == [] && r.result.Err? &&
      (DecisionFailed(o, t, ds, first, second, r) ||
       (|r.trace| > |t| && r.trace[|r.trace| - 1] == Refresh(ds[0].handle) &&
        RefreshReply(o, r.trace[..|r.trace| - 1], ds[0].handle) == Err(r.result.error)))
  {
    var h := ds[0].handle;
    var v := ToggleVisit(o, t, h, first, second, None);
    var r := ToggleLoop(o, t, ds, first, second, None);
    ToggleVisitFirst(o, t, h, first, second);
    assert r == Run(v.trace, [], Err(v.result.error));
    if RefreshReply(o, t, h).Err? {
      assert r.trace == t + [Refresh(h)];
      assert r.trace[..|r.trace| - 1] == t;
    }
  }

  /** `ToggleLoopAdds` when the first visit succeeds: the rest is `set`. */
  lemma {:induction false} ToggleLoopContinues(o: Oracle, t: Trace, ds: seq<Display>, first: InputSource, second: InputSource)
    requires ds != [] && ToggleVisit(o, t, ds[0].handle, first, second, None).result.Ok?
    ensures var r := ToggleLoop(o, t, ds, first, second, None);
      AddedPrefix(r.added, ds) && (r.result.Ok? <==> |r.added| == |ds|) &&
      (r.result.Err? ==>
         |r.trace| > |t| && r.trace[|r.trace| - 1] == Refresh(ds[|r.added|].handle) &&
         RefreshReply(o, r.trace[..|r.trace| - 1], ds[|r.added|].handle) == Err(r.result.error))
  {
    var v := ToggleVisit(o, t, ds[0].handle, first, second, None);
    var visited := v.result.value;
    var rest := SetLoop(o, v.trace, ds[1..], visited.1);
    ToggleDecidedIsSet(o, v.trace, ds[1..], first, second, visited.1);
    assert ToggleLoop(o, t, ds, first, second, None) == After([visited.0], rest);
    SetLoopAdds(o, v.trace, ds[1..], visited.1);
    AddedCons(visited.0, rest, ds);
    assert rest.result.Err? ==> ds[|[visited.0] + rest.added|] == ds[1..][|rest.added|];
  }

  /** Once the target is decided, `toggle` never reads a display again, and
      every display it reaches is sent that target. */
  lemma {:induction false} ToggleKeepsTarget(o: Oracle, t: Trace, ds: seq<Display>, first: InputSource, second: InputSource,
                                             goal: InputSource)
    ensures var r := ToggleLoop(o, t, ds, first, second, Some(goal));
      t <= r.trace && (forall e | e in r.trace[|t|..] :: SetEvent(e, goal)) && WritesEach(o, t, r, goal)
  {
    ToggleDecidedIsSet(o, t, ds, first, second, goal);
    SetLoopEvents(o, t, ds, goal);
  }

  /** No `toggle` run sleeps a display before teardown. */
  lemma {:induction false} ToggleLoopNoSleep(o: Oracle, t: Trace, ds: seq<Display>, first: InputSource, second: InputSource)
    ensures var r := ToggleLoop(o, t, ds, first, second, None);
      t <= r.trace && forall e | e in r.trace[|t|..] :: !e.Sleep?
  {
    if ds != [] {
      var v := ToggleVisit(o, t, ds[0].handle, first, second, None);
      ToggleVisitNoSleep(o, t, ds[0].handle, first, second);
      if v.result.Ok? {
        var goal := v.result.value.1;
        ToggleKeepsTarget(o, v.trace, ds[1..], first, second, goal);
        var rest := ToggleLoop(o, v.trace, ds[1..], first, second, Some(goal));
        SliceConcat(t, v.trace, rest.trace);
        assert ToggleLoop(o, t, ds, first, second, None) == After([v.result.value.0], rest);
      } else {
        assert ToggleLoop(o, t, ds, first, second, None) == Run(v.trace, [], Err(v.result.error));
      }
    }
  }

  /** After the first display's decision, `toggle` either stops with the
      decision's error, or, from the start, sends the decided target to every
      display it adds and to no other, and after the decision makes no call
      but refreshes, warnings and writes of that target. */
  lemma {:induction false} ToggleAfterDecision(o: Oracle, t: Trace, ds: seq<Display>, first: InputSource, second: InputSource)
    requires ds != [] && RefreshReply(o, t, ds[0].handle).Ok?
    ensures var d := Display(ds[0].handle, RefreshReply(o, t, ds[0].handle).value);
      var decided := Decide(o, t + [Refresh(ds[0].handle)], d, first, second, None);
      var r := ToggleLoop(o, t, ds, first, second, None);
      (decided.result.Err? ==> r == Run(decided.trace, [], Err(decided.result.error))) &&
      (decided.result.Ok? ==>
         decided.trace <= r.trace && (forall e | e in r.trace[|decided.trace|..] :: SetEvent(e, decided.result.value)) &&
         WritesEach(o, t, r, decided.result.value))
  {
    var h := ds[0].handle;
    var d := Display(h, RefreshReply(o, t, h).value);
    var decided := Decide(o, t + [Refresh(h)], d, first, second, None);
    if decided.result.Ok? {
      ToggleSetsGoal(o, t, ds, first, second, decided.result.value);
      ToggleWritesGoal(o, t, ds, first, second, decided.result.value);
    } else {
      ToggleVisitFirst(o, t, h, first, second);
    }
  }

  /** Once the first display decided a target, every later call of `toggle`
      is a refresh, a warning, or a write of that target. */
  lemma {:induction false} ToggleSetsGoal(o: Oracle, t: Trace, ds: seq<Display>, first: InputSource, second: InputSource,
                                          goal: InputSource)
    requires ds != [] && RefreshReply(o, t, ds[0].handle).Ok?
    requires Decide(o, t + [Refresh(ds[0].handle)], Display(ds[0].handle, RefreshReply(o, t, ds[0].handle).value),
                    first, second, None).result == Ok(goal)
    ensures var d := Display(ds[0].handle, RefreshReply(o, t, ds[0].handle).value);
      var decided := Decide(o, t + [Refresh(ds[0].handle)], d, first, second, None);
      var r := ToggleLoop(o, t, ds, first, second, None);
      decided.trace <= r.trace && forall e | e in r.trace[|decided.trace|..] :: SetEvent(e, goal)
  {
    var h := ds[0].handle;
    var d := Display(h, RefreshReply(o, t, h).value);
    var t1 := t + [Refresh(h)];
    var decided := Decide(o, t1, d, first, second, None);
    var v := ToggleVisit(o, t, h, first, second, None);
    ToggleVisitFirst(o, t, h, first, second);
    var rest := ToggleLoop(o, v.trace, ds[1..], first, second, Some(goal));
    assert v.trace == decided.trace + WriteCalls(o, decided.trace, d, goal);
    WriteCallsEvents(o, decided.trace, d, goal);
    ToggleKeepsTarget(o, v.trace, ds[1..], first, second, goal);
    SliceConcat(decided.trace, v.trace, rest.trace);
    assert v.trace[|decided.trace|..] == WriteCalls(o, decided.trace, d, goal);
    assert ToggleLoop(o, t, ds, first, second, None) == After([d], rest);
  }

  /** Once the first display decided a target, `toggle` sends it to every
      display it adds, to no other, and warns after every rejected write. */
  lemma {:induction false} ToggleWritesGoal(o: Oracle, t: Trace, ds: seq<Display>, first: InputSource, second: InputSource,
                                            goal: InputSource)
    requires ds != [] && RefreshReply(o, t, ds[0].handle).Ok?
    requires Decide(o, t + [Refresh(ds[0].handle)], Display(ds[0].handle, RefreshReply(o, t, ds[0].handle).value),
                    first, second, None).result == Ok(goal)
    ensures WritesEach(o, t, ToggleLoop(o, t, ds, first, second, None), goal)
  {
    var h := ds[0].handle;
    var d := Display(h, RefreshReply(o, t, h).value);
    var t1 := t + [Refresh(h)];
    var decided := Decide(o, t1, d, first, second, None);
    var v := ToggleVisit(o, t, h, first, second, None);
    ToggleVisitFirst(o, t, h, first, second);
    var rest := ToggleLoop(o, v.trace, ds[1..], first, second, Some(goal));
    assert v.trace == decided.trace + WriteCalls(o, decided.trace, d, goal);
    ToggleKeepsTarget(o, v.trace, ds[1..], first, second, goal);
    DecideEvents(o, t1, d, first, second, None);
    assert decided.trace[|t|..] == [Refresh(h)] + decided.trace[|t1|..];
    assert ToggleLoop(o, t, ds, first, second, None) == After([d], rest);
    WritesAfter(o, t, decided.trace, d, goal, rest);
  }

  /** `toggle` decides its target from the first located display alone: it
      refreshes it and reads its current source once, and no later display
      is read. If that is the first option, every added display is sent the
      second; if it is (only) the second, every added display is sent the
      first; if it is neither, or the read fails, the command aborts with
      nothing written or added. */
  lemma {:induction false} ToggleDecidesOnce(o: Oracle, t: Trace, ds: seq<Display>, first: InputSource, second: InputSource)
    requires ds != [] && RefreshReply(o, t, ds[0].handle).Ok?
    ensures var d := Display(ds[0].handle, RefreshReply(o, t, ds[0].handle).value);
      var g := GetInputSourceStep(o, t + [Refresh(ds[0].handle)], d);
      var r := ToggleLoop(o, t, ds, first, second, None);
      g.trace <= r.trace &&
      (forall e | e in r.trace[|g.trace|..] :: !e.GetVcp?) &&
      (g.result.Err? ==> r == Run(g.trace, [], Err(g.result.error))) &&
      (g.result == Ok(first) ==> WritesEach(o, t, r, second)) &&
      (g.result.Ok? && g.result.value != first && g.result.value == second ==> WritesEach(o, t, r, first)) &&
      (g.result.Ok? && g.result.value != first && g.result.value != second ==>
         r == Run(g.trace, [], Err(NotToggleOption)))
  {
    ToggleReadsOnce(o, t, ds, first, second);
    ToggleReadFails(o, t, ds, first, second);
    ToggleFirstWritesSecond(o, t, ds, first, second);
    ToggleSecondWritesFirst(o, t, ds, first, second);
  }

  /** After the read of the first display, `toggle` reads no display again. */
  lemma {:induction false} ToggleReadsOnce(o: Oracle, t: Trace, ds: seq<Display>, first: InputSource, second: InputSource)
    requires ds != [] && RefreshReply(o, t, ds[0].handle).Ok?
    ensures var d := Display(ds[0].handle, RefreshReply(o, t, ds[0].handle).value);
      var g := GetInputSourceStep(o, t + [Refresh(ds[0].handle)], d);
      var r := ToggleLoop(o, t, ds, first, second, None);
      g.trace <= r.trace && forall e | e in r.trace[|g.trace|..] :: !e.GetVcp?
  {
    var h := ds[0].handle;
    var d := Display(h, RefreshReply(o, t, h).value);
    var t1 := t + [Refresh(h)];
    var g := GetInputSourceStep(o, t1, d);
    var decided := Decide(o, t1, d, first, second, None);
    var r := ToggleLoop(o, t, ds, first, second, None);
    DecideFromRead(o, t1, d, first, second);
    assert decided.trace == g.trace;
    if decided.result.Err? {
      ToggleVisitFirst(o, t, h, first, second);
      assert r == Run(g.trace, [], Err(decided.result.error));
      assert r.trace[|g.trace|..] == [];
    } else {
      ToggleSetsGoal(o, t, ds, first, second, decided.result.value);
    }
  }

  /** A failed read of the first display, or a source that is neither
      option, aborts `toggle` with that error and nothing added. */
  lemma {:induction false} ToggleReadFails(o: Oracle, t: Trace, ds: seq<Display>, first: InputSource, second: InputSource)
    requires ds != [] && RefreshReply(o, t, ds[0].handle).Ok?
    ensures var d := Display(ds[0].handle, RefreshReply(o, t, ds[0].handle).value);
      var g := GetInputSourceStep(o, t + [Refresh(ds[0].handle)], d);
      var r := ToggleLoop(o, t, ds, first, second, None);
      (g.result.Err? ==> r == Run(g.trace, [], Err(g.result.error))) &&
      (g.result.Ok? && g.result.value != first && g.result.value != second ==>
         r == Run(g.trace, [], Err(NotToggleOption)))
  {
    var h := ds[0].handle;
    var d := Display(h, RefreshReply(o, t, h).value);
    var t1 := t + [Refresh(h)];
    var decided := Decide(o, t1, d, first, second, None);
    DecideFromRead(o, t1, d, first, second);
    if decided.result.Err? {
      ToggleVisitFirst(o, t, h, first, second);
      assert ToggleLoop(o, t, ds, first, second, None) == Run(decided.trace, [], Err(decided.result.error));
    }
  }

  /** The first display shows INPUT1: every added display is sent INPUT2. */
  lemma {:induction false} ToggleFirstWritesSecond(o: Oracle, t: Trace, ds: seq<Display>, first: InputSource, second: InputSource)
    requires ds != [] && RefreshReply(o, t, ds[0].handle).Ok?
    ensures var d := Display(ds[0].handle, RefreshReply(o, t, ds[0].handle).value);
      var g := GetInputSourceStep(o, t + [Refresh(ds[0].handle)], d);
      g.result == Ok(first) ==> WritesEach(o, t, ToggleLoop(o, t, ds, first, second, None), second)
  {
    var h := ds[0].handle;
    var d := Display(h, RefreshReply(o, t, h).value);
    var t1 := t + [Refresh(h)];
    var g := GetInputSourceStep(o, t1, d);
    var decided := Decide(o, t1, d, first, second, None);
    DecideFromRead(o, t1, d, first, second);
    if g.result == Ok(first) {
      assert decided.result == Ok(second);
      ToggleWritesGoal(o, t, ds, first, second, second);
    }
  }

  /** The first display shows INPUT2 and not INPUT1: every added display is sent INPUT1. */
  lemma {:induction false} ToggleSecondWritesFirst(o: Oracle, t: Trace, ds: seq<Display>, first: InputSource, second: InputSource)
    requires ds != [] && RefreshReply(o, t, ds[0].handle).Ok?
    ensures var d := Display(ds[0].handle, RefreshReply(o, t, ds[0].handle).value);
      var g := GetInputSourceStep(o, t + [Refresh(ds[0].handle)], d);
      g.result.Ok? && g.result.value != first && g.result.value == second ==> WritesEach(o, t, ToggleLoop(o, t, ds, first, second, None), first)
  {
    var h := ds[0].handle;
    var d := Display(h, RefreshReply(o, t, h).value);
    var t1 := t + [Refresh(h)];
    var g := GetInputSourceStep(o, t1, d);
    var decided := Decide(o, t1, d, first, second, None);
    DecideFromRead(o, t1, d, first, second);
    if g.result.Ok? && g.result.value != first && g.result.value == second {
      assert decided.result == Ok(first);
      ToggleWritesGoal(o, t, ds, first, second, first);
    }
  }

  /** The decision on the first display follows the one read it makes. */
  lemma {:induction false} DecideFromRead(o: Oracle, t: Trace, d: Display, first: InputSource, second: InputSource)
    ensures var g := GetInputSourceStep(o, t, d);
      var decided := Decide(o, t, d, first, second, None);
      decided.trace == g.trace &&
      (g.result.Err? ==> decided.result == Err(g.result.error)) &&
      (g.result == Ok(first) ==> decided.result == Ok(second)) &&
      (g.result.Ok? && g.result.value != first && g.result.value == second ==> decided.result == Ok(first)) &&
      (g.result.Ok? && g.result.value != first && g.result.value != second ==> decided.result == Err(NotToggleOption))
  {
  }
}
