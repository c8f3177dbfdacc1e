/** Locating the displays to act on: refresh where needed, filter, collect. */
module Locator {
  import opened Common
  import opened Library

  /** `displays` refreshes a display's capabilities before matching it only
      when the query asks for it and the display is driven by WinApi. */
  predicate NeedsRefresh(d: Display, needsCaps: bool) {
    needsCaps && d.info.backend == WinApi
  }

  /** Puts `d` in front of the displays collected after it, if it matches;
      an error from a later display wins. */
  function Keep(d: Display, query: Query, satisfies: (Filter, DisplayInfo) -> bool, rest: Step<seq<Display>>): (k: Step<seq<Display>>)
    ensures k.trace == rest.trace
    ensures rest.result.Err? ==> k == rest
    ensures rest.result.Ok? ==> k.result.Ok?
  {
    match rest.result
    case Err(_) => rest
    case Ok(ds) => if Matches(query, d.info, satisfies) then Step(rest.trace, Ok([d] + ds)) else rest
  }

  /** `displays`: walk the enumerated displays in order, refreshing those
      that need it, keep the ones the query matches, and stop at the first
      refresh that fails, which becomes the result. */
  function Displays(o: Oracle, t: Trace, enumerated: seq<Display>, query: Query, needsCaps: bool): (r: Step<seq<Display>>)
    ensures t <= r.trace
    ensures r.result.Ok? ==> |r.result.value| <= |enumerated|
    decreases |enumerated|
  {
    if enumerated == [] then Step(t, Ok([]))
    else
      var d := enumerated[0];
      if NeedsRefresh(d, needsCaps) then
        var s := RefreshStep(o, t, d.handle);
        match s.result
        case Err(e) => Step(s.trace, Err(e))
        case Ok(info) => Keep(Display(d.handle, info), query, o.satisfies, Displays(o, s.trace, enumerated[1..], query, needsCaps))
      else
        Keep(d, query, o.satisfies, Displays(o, t, enumerated[1..], query, needsCaps))
  }

  /** Reference: the displays of `ds` that the query matches, in order. */
  function Matching(ds: seq<Display>, query: Query, satisfies: (Filter, DisplayInfo) -> bool): seq<Display> {
    if ds == [] then []
    else (if Matches(query, ds[0].info, satisfies) then [ds[0]] else []) + Matching(ds[1..], query, satisfies)
  }

  /** Reference: one refresh call per display that needs it, in order. */
  function RefreshPlan(ds: seq<Display>, needsCaps: bool): seq<Event> {
    if ds == [] then []
    else (if NeedsRefresh(ds[0], needsCaps) then [Refresh(ds[0].handle)] else []) + RefreshPlan(ds[1..], needsCaps)
  }

  /** The display `d` as the refresh step leaves it after the calls `t`: one
      that needs a refresh carries the information its refresh returned. */
  function Probe(o: Oracle, t: Trace, d: Display, needsCaps: bool): Display {
    if NeedsRefresh(d, needsCaps) && RefreshReply(o, t, d.handle).Ok? then
      Display(d.handle, RefreshReply(o, t, d.handle).value)
    else d
  }

  /** Reference: every enumerated display as the refresh step leaves it. The
      display at index `i` is refreshed after the refreshes planned for the
      displays before it. */
  function Probed(o: Oracle, t: Trace, ds: seq<Display>, needsCaps: bool): (ps: seq<Display>)
    ensures |ps| == |ds|
  {
    seq(|ds|, i requires 0 <= i < |ds| => Probe(o, t + RefreshPlan(ds[..i], needsCaps), ds[i], needsCaps))
  }

  /** Reference: every refresh of the plan is answered with information. */
  ghost predicate RefreshesSucceed(o: Oracle, t: Trace, ds: seq<Display>, needsCaps: bool) {
    forall i | 0 <= i < |ds| && NeedsRefresh(ds[i], needsCaps) ::
      RefreshReply(o, t + RefreshPlan(ds[..i], needsCaps), ds[i].handle).Ok?
  }

  /** The calls planned before index `i` of `ds`, seen from its tail. */
  lemma {:induction false} PlanShift(t: Trace, ds: seq<Display>, needsCaps: bool, i: nat)
    requires 0 < i <= |ds|
    ensures var t' := if NeedsRefresh(ds[0], needsCaps) then t + [Refresh(ds[0].handle)] else t;
      t + RefreshPlan(ds[..i], needsCaps) == t' + RefreshPlan(ds[1..][..i - 1], needsCaps)
  {
    assert ds[..i][0] == ds[0];
    assert ds[..i][1..] == ds[1..][..i - 1];
  }

  lemma {:induction false} ProbedCons(o: Oracle, t: Trace, ds: seq<Display>, needsCaps: bool)
    requires ds != []
    ensures var t' := if NeedsRefresh(ds[0], needsCaps) then t + [Refresh(ds[0].handle)] else t;
      Probed(o, t, ds, needsCaps) == [Probe(o, t, ds[0], needsCaps)] + Probed(o, t', ds[1..], needsCaps) &&
      (RefreshesSucceed(o, t, ds, needsCaps) <==>
         (NeedsRefresh(ds[0], needsCaps) ==> RefreshReply(o, t, ds[0].handle).Ok?) &&
         RefreshesSucceed(o, t', ds[1..], needsCaps))
  {
    var t' := if NeedsRefresh(ds[0], needsCaps) then t + [Refresh(ds[0].handle)] else t;
    var ps := Probed(o, t, ds, needsCaps);
    var rest := Probed(o, t', ds[1..], needsCaps);
    assert t + RefreshPlan(ds[..0], needsCaps) == t;
    forall i | 0 < i < |ds|
      ensures ps[i] == rest[i - 1]
      ensures t + RefreshPlan(ds[..i], needsCaps) == t' + RefreshPlan(ds[1..][..i - 1], needsCaps)
    {
      PlanShift(t, ds, needsCaps, i);
    }
    assert ps == [ps[0]] + rest;
    if RefreshesSucceed(o, t, ds, needsCaps) {
      forall j | 0 <= j < |ds[1..]| && NeedsRefresh(ds[1..][j], needsCaps)
        ensures RefreshReply(o, t' + RefreshPlan(ds[1..][..j], needsCaps), ds[1..][j].handle).Ok?
      {
        assert ds[1..][j] == ds[j + 1];
      }
    }
  }

  lemma {:induction false} MatchingCons(d: Display, vs: seq<Display>, query: Query, satisfies: (Filter, DisplayInfo) -> bool)
    ensures Matching([d] + vs, query, satisfies) == (if Matches(query, d.info, satisfies) then [d] else []) + Matching(vs, query, satisfies)
  {
    assert ([d] + vs)[0] == d && ([d] + vs)[1..] == vs;
  }

  /** `displays` succeeds exactly when every refresh it makes succeeds, and
      then returns exactly the displays the query matches among the
      enumerated ones as the refresh step left them, in enumeration order. */
  lemma {:induction false} DisplaysProbed(o: Oracle, t: Trace, ds: seq<Display>, query: Query, needsCaps: bool)
    ensures var r := Displays(o, t, ds, query, needsCaps);
      (r.result.Ok? <==> RefreshesSucceed(o, t, ds, needsCaps)) &&
      (r.result.Ok? ==> r.result.value == Matching(Probed(o, t, ds, needsCaps), query, o.satisfies))
    decreases |ds|
  {
    if ds != [] {
      var d := ds[0];
      var t' := if NeedsRefresh(d, needsCaps) then t + [Refresh(d.handle)] else t;
      ProbedCons(o, t, ds, needsCaps);
      if !NeedsRefresh(d, needsCaps) || RefreshReply(o, t, d.handle).Ok? {
        var d' := Probe(o, t, d, needsCaps);
        var rest := Displays(o, t', ds[1..], query, needsCaps);
        DisplaysProbed(o, t', ds[1..], query, needsCaps);
        assert Displays(o, t, ds, query, needsCaps) == Keep(d', query, o.satisfies, rest);
        if rest.result.Ok? {
          MatchingCons(d', Probed(o, t', ds[1..], needsCaps), query, o.satisfies);
        }
      }
    }
  }

  /** `a` can be obtained from `b` by deleting elements. */
  predicate IsSubsequence(a: seq<nat>, b: seq<nat>)
    decreases |b|
  {
    a == [] || (b != [] && ((a[0] == b[0] && IsSubsequence(a[1..], b[1..])) || IsSubsequence(a, b[1..])))
  }

  lemma {:induction false} SubsequenceDistinct(a: seq<nat>, b: seq<nat>)
    requires IsSubsequence(a, b) && Distinct(b)
    ensures Distinct(a)
    ensures forall x :: x in a ==> x in b
    decreases |b|
  {
    if a != [] {
      if a[0] == b[0] && IsSubsequence(a[1..], b[1..]) {
        SubsequenceDistinct(a[1..], b[1..]);
        assert a == [a[0]] + a[1..];
        forall i, j | 0 <= i < j < |a| ensures a[i] != a[j] {
          if i == 0 { assert a[j] in a[1..]; assert a[j] in b[1..]; }
          else { assert a[i] == a[1..][i - 1] && a[j] == a[1..][j - 1]; }
        }
      } else {
        SubsequenceDistinct(a, b[1..]);
      }
    }
  }

  lemma {:induction false} HandlesCons(d: Display, ds: seq<Display>)
    ensures Handles([d] + ds) == [d.handle] + Handles(ds)
  {
  }

  lemma {:induction false} HandlesTail(ds: seq<Display>)
    requires ds != []
    ensures Handles(ds)[0] == ds[0].handle && Handles(ds)[1..] == Handles(ds[1..])
  {
  }

  /** Without any refresh to do, `displays` makes no library call and returns
      exactly the enumerated displays the query matches, in order. */
  lemma {:induction false} DisplaysWithoutRefresh(o: Oracle, t: Trace, ds: seq<Display>, query: Query, needsCaps: bool)
    requires forall i :: 0 <= i < |ds| ==> !NeedsRefresh(ds[i], needsCaps)
    ensures Displays(o, t, ds, query, needsCaps) == Step(t, Ok(Matching(ds, query, o.satisfies)))
    decreases |ds|
  {
    if ds != [] {
      assert forall i :: 0 <= i < |ds[1..]| ==> ds[1..][i] == ds[i + 1];
      DisplaysWithoutRefresh(o, t, ds[1..], query, needsCaps);
      assert !NeedsRefresh(ds[0], needsCaps);
      var rest := Matching(ds[1..], query, o.satisfies);
      if Matches(query, ds[0].info, o.satisfies) {
        assert Matching(ds, query, o.satisfies) == [ds[0]] + rest;
      } else {
        assert Matching(ds, query, o.satisfies) == [] + rest == rest;
      }
    }
  }

  /** `displays` calls `update_capabilities` only for displays that need it,
      one call each, in enumeration order; it stops after a failed call, and
      makes all the calls when it succeeds. */
  lemma {:induction false} DisplaysRefreshes(o: Oracle, t: Trace, ds: seq<Display>, query: Query, needsCaps: bool)
    ensures t <= Displays(o, t, ds, query, needsCaps).trace
    ensures Displays(o, t, ds, query, needsCaps).trace[|t|..] <= RefreshPlan(ds, needsCaps)
    ensures Displays(o, t, ds, query, needsCaps).result.Ok? ==>
              Displays(o, t, ds, query, needsCaps).trace == t + RefreshPlan(ds, needsCaps)
    decreases |ds|
  {
    var r := Displays(o, t, ds, query, needsCaps);
    if ds == [] {
      assert r.trace[|t|..] == [];
    } else {
      var d := ds[0];
      var plan := RefreshPlan(ds, needsCaps);
      var plan' := RefreshPlan(ds[1..], needsCaps);
      if NeedsRefresh(d, needsCaps) {
        var t' := t + [Refresh(d.handle)];
        assert plan == [Refresh(d.handle)] + plan';
        match RefreshReply(o, t, d.handle)
        case Err(e) =>
          assert r.trace == t';
          assert r.trace[|t|..] == [Refresh(d.handle)];
        case Ok(info) =>
          var rest := Displays(o, t', ds[1..], query, needsCaps);
          DisplaysRefreshes(o, t', ds[1..], query, needsCaps);
          assert r.trace == rest.trace;
          assert r.result.Ok? ==> rest.result.Ok?;
          SliceConcat(t, t', rest.trace);
          assert t'[|t|..] == [Refresh(d.handle)];
      } else {
        assert plan == plan';
        var rest := Displays(o, t, ds[1..], query, needsCaps);
        DisplaysRefreshes(o, t, ds[1..], query, needsCaps);
        assert r.trace == rest.trace;
      }
    }
  }

  /** What `displays` returns: displays the query matches, whose handles
      appear in enumeration order; each is either an enumerated display kept
      as it was or the refreshed version of one that needed a refresh, and
      every matching display that needed no refresh is among them. */
  lemma {:induction false} DisplaysLocated(o: Oracle, t: Trace, ds: seq<Display>, query: Query, needsCaps: bool)
    ensures Displays(o, t, ds, query, needsCaps).result.Ok? ==>
              Located(Displays(o, t, ds, query, needsCaps).result.value, ds, query, o.satisfies, needsCaps)
    decreases |ds|
  {
    var r := Displays(o, t, ds, query, needsCaps);
    if ds != [] && r.result.Ok? {
      var d := ds[0];
      HandlesTail(ds);
      var t' := if NeedsRefresh(d, needsCaps) then t + [Refresh(d.handle)] else t;
      var rest := Displays(o, t', ds[1..], query, needsCaps);
      DisplaysLocated(o, t', ds[1..], query, needsCaps);
      var d' := if NeedsRefresh(d, needsCaps) then Display(d.handle, RefreshReply(o, t, d.handle).value) else d;
      assert r == Keep(d', query, o.satisfies, rest);
      assert rest.result.Ok?;
      LocatedCons(d', rest.result.value, ds, query, o.satisfies, needsCaps);
    }
  }

  /** The properties a successful `displays` result has relative to the enumerated list. */
  ghost predicate Located(vs: seq<Display>, ds: seq<Display>, query: Query, satisfies: (Filter, DisplayInfo) -> bool, needsCaps: bool) {
    IsSubsequence(Handles(vs), Handles(ds)) &&
    AllMatch(vs, query, satisfies) &&
    FromEnumeration(vs, ds, needsCaps) &&
    KeepsUnrefreshed(vs, ds, query, satisfies, needsCaps)
  }

  ghost predicate AllMatch(vs: seq<Display>, query: Query, satisfies: (Filter, DisplayInfo) -> bool) {
    forall v | v in vs :: Matches(query, v.info, satisfies)
  }

  /** Each kept display is an enumerated one as it was, or one refreshed. */
  ghost predicate FromEnumeration(vs: seq<Display>, ds: seq<Display>, needsCaps: bool) {
    forall v | v in vs ::
      (v in ds && !NeedsRefresh(v, needsCaps)) ||
      (exists d | d in ds :: d.handle == v.handle && NeedsRefresh(d, needsCaps))
  }

  /** No matching display that needed no refresh is dropped. */
  ghost predicate KeepsUnrefreshed(vs: seq<Display>, ds: seq<Display>, query: Query, satisfies: (Filter, DisplayInfo) -> bool, needsCaps: bool) {
    forall d | d in ds && !NeedsRefresh(d, needsCaps) && Matches(query, d.info, satisfies) :: d in vs
  }

  lemma {:induction false} InCons<T>(x: T, xs: seq<T>)
    ensures forall y | y in [x] + xs :: y == x || y in xs
    ensures forall y | y in xs :: y in [x] + xs
  {
  }

  lemma {:induction false} LocatedCons(d': Display, vs: seq<Display>, ds: seq<Display>, query: Query, satisfies: (Filter, DisplayInfo) -> bool, needsCaps: bool)
    requires ds != [] && d'.handle == ds[0].handle
    requires !NeedsRefresh(ds[0], needsCaps) ==> d' == ds[0]
    requires Located(vs, ds[1..], query, satisfies, needsCaps)
    ensures Located(if Matches(query, d'.info, satisfies) then [d'] + vs else vs, ds, query, satisfies, needsCaps)
  {
    var ws := if Matches(query, d'.info, satisfies) then [d'] + vs else vs;
    HandlesTail(ds);
    assert ds == [ds[0]] + ds[1..];
    InCons(ds[0], ds[1..]);
    InCons(d', vs);
    assert IsSubsequence(Handles(ws), Handles(ds)) by {
      if Matches(query, d'.info, satisfies) {
        HandlesCons(d', vs);
        assert Handles(ws)[0] == Handles(ds)[0] && Handles(ws)[1..] == Handles(vs);
      }
    }
    assert AllMatch(ws, query, satisfies);
    assert FromEnumeration(ws, ds, needsCaps) by {
      forall v | v in ws
        ensures (v in ds && !NeedsRefresh(v, needsCaps)) ||
                (exists d | d in ds :: d.handle == v.handle && NeedsRefresh(d, needsCaps))
      {
        if v in vs {
          if !(v in ds[1..] && !NeedsRefresh(v, needsCaps)) {
            var d :| d in ds[1..] && d.handle == v.handle && NeedsRefresh(d, needsCaps);
            assert d in ds;
          }
        } else {
          assert v == d';
          if NeedsRefresh(ds[0], needsCaps) { assert ds[0] in ds; }
        }
      }
    }
    assert KeepsUnrefreshed(ws, ds, query, satisfies, needsCaps);
  }

  /** A failing refresh ends `displays` with that first error: the last call
      is the refresh that failed, every refresh before it succeeded. */
  lemma {:induction false} DisplaysFirstError(o: Oracle, t: Trace, ds: seq<Display>, query: Query, needsCaps: bool)
    ensures Displays(o, t, ds, query, needsCaps).result.Err? ==>
              FailedAtLastRefresh(o, t, Displays(o, t, ds, query, needsCaps))
    decreases |ds|
  {
    var r := Displays(o, t, ds, query, needsCaps);
    if ds != [] && r.result.Err? {
      var d := ds[0];
      if NeedsRefresh(d, needsCaps) {
        var t' := t + [Refresh(d.handle)];
        match RefreshReply(o, t, d.handle)
        case Err(e) =>
          assert r == Step(t', Err(e));
          assert t'[..|t'| - 1] == t;
        case Ok(info) =>
          var rest := Displays(o, t', ds[1..], query, needsCaps);
          DisplaysFirstError(o, t', ds[1..], query, needsCaps);
          assert r == rest;
          FailedLater(o, t, Refresh(d.handle), rest);
      } else {
        DisplaysFirstError(o, t, ds[1..], query, needsCaps);
      }
    }
  }

  /** The run `r`, started on trace `t`, made only refresh calls, all of
      which succeeded except the last, whose error is the result. */
  ghost predicate FailedAtLastRefresh<T>(o: Oracle, t: Trace, r: Step<T>) {
    r.result.Err? &&
    |r.trace| > |t| && r.trace[..|t|] == t &&
    r.trace[|r.trace| - 1].Refresh? &&
    RefreshReply(o, r.trace[..|r.trace| - 1], r.trace[|r.trace| - 1].handle) == Err(r.result.error) &&
    (forall j | |t| <= j < |r.trace| - 1 :: r.trace[j].Refresh? && RefreshReply(o, r.trace[..j], r.trace[j].handle).Ok?)
  }

  lemma {:induction false} FailedLater<T>(o: Oracle, t: Trace, e: Event, r: Step<T>)
    requires e.Refresh? && RefreshReply(o, t, e.handle).Ok?
    requires FailedAtLastRefresh(o, t + [e], r)
    ensures FailedAtLastRefresh(o, t, r)
  {
    var t' := t + [e];
    assert r.trace[..|t'|] == t';
    assert r.trace[..|t|] == t;
    assert r.trace[|t|] == e;
    assert r.trace[..|t|] == t;
  }
}
