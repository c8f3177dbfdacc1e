/** What one invocation promises as a whole: the teardown delays, the
    rejected names, and the writes `set` makes. */
module SessionProperties {
  import opened Common
  import opened Library
  import opened InputSources
  import opened Queries
  import opened Locator
  import opened Teardown
  import opened Commands
  import opened CommandProperties

  /** A trace with no delay in it holds no delay for any handle. */
  lemma {:induction false} NoSleepOccurrences(h: nat, es: seq<Event>)
    requires forall e | e in es :: !e.Sleep?
    ensures Occurrences(Event.Sleep(h), es) == 0
    decreases |es|
  {
    if es != [] {
      assert es[0] in es;
      assert forall e | e in es[1..] :: e in es;
      NoSleepOccurrences(h, es[1..]);
    }
  }

  /** The locator only ever refreshes. */
  lemma {:induction false} RefreshPlanRefreshes(ds: seq<Display>, needsCaps: bool)
    ensures forall e | e in RefreshPlan(ds, needsCaps) :: e.Refresh?
    decreases |ds|
  {
    if ds != [] {
      RefreshPlanRefreshes(ds[1..], needsCaps);
    }
  }

  /** Locating makes no call but refreshes, so it sleeps no display, and a
      successful location lists distinct handles of attached displays when
      the attached handles are distinct. */
  lemma {:induction false} LocatingSleepsNothing(o: Oracle, t: Trace, attached: seq<Display>, plan: QueryPlan)
    requires Distinct(Handles(attached))
    ensures var located := Displays(o, t, attached, plan.query, plan.needsCaps);
      t <= located.trace && (forall e | e in located.trace[|t|..] :: e.Refresh?) &&
      (located.result.Ok? ==>
         Distinct(Handles(located.result.value)) &&
         AllMatch(located.result.value, plan.query, o.satisfies) &&
         forall x | x in Handles(located.result.value) :: x in Handles(attached))
  {
    var located := Displays(o, t, attached, plan.query, plan.needsCaps);
    var refreshes := RefreshPlan(attached, plan.needsCaps);
    DisplaysRefreshes(o, t, attached, plan.query, plan.needsCaps);
    RefreshPlanRefreshes(attached, plan.needsCaps);
    forall e | e in located.trace[|t|..] ensures e.Refresh? {
      var i :| 0 <= i < |located.trace[|t|..]| && located.trace[|t|..][i] == e;
      assert refreshes[i] == e && refreshes[i] in refreshes;
    }
    if located.result.Ok? {
      DisplaysLocated(o, t, attached, plan.query, plan.needsCaps);
      SubsequenceDistinct(Handles(located.result.value), Handles(attached));
    }
  }

  /** The first handles of a list of distinct handles are distinct. */
  lemma {:induction false} PrefixDistinct(added: seq<Display>, ds: seq<Display>)
    requires AddedPrefix(added, ds) && Distinct(Handles(ds))
    ensures Distinct(Handles(added))
    ensures forall x | x in Handles(added) :: x in Handles(ds)
  {
    var k := |added|;
    forall i, j | 0 <= i < j < k ensures Handles(added)[i] != Handles(added)[j] {
      assert Handles(added)[i] == Handles(ds[..k])[i] == Handles(ds)[i];
      assert Handles(added)[j] == Handles(ds[..k])[j] == Handles(ds)[j];
    }
    forall x | x in Handles(added) ensures x in Handles(ds) {
      var i :| 0 <= i < k && Handles(added)[i] == x;
      assert Handles(added)[i] == Handles(ds[..k])[i] == Handles(ds)[i];
    }
  }

  /** What teardown promises about a run started at `t`: the added
      displays have distinct handles of attached displays, and the final
      log gives each of them exactly one delay and any other handle none. */
  ghost predicate TearsDownOnce(t: Trace, run: Run, attached: seq<Display>, h: nat) {
    Distinct(Handles(run.added)) && (forall x | x in Handles(run.added) :: x in Handles(attached)) &&
    t <= run.trace + Sleeps(run.added) &&
    Occurrences(Event.Sleep(h), (run.trace + Sleeps(run.added))[|t|..]) == if h in Handles(run.added) then 1 else 0
  }

  /** Two stretches of calls without a delay make one. */
  lemma {:induction false} NoSleepJoin(t: Trace, located: Trace, final: Trace)
    requires t <= located && forall e | e in located[|t|..] :: !e.Sleep?
    requires located <= final && forall e | e in final[|located|..] :: !e.Sleep?
    ensures t <= final && forall e | e in final[|t|..] :: !e.Sleep?
  {
    SliceConcat(t, located, final);
  }

  lemma {:induction false} DropAppend(a: Trace, b: seq<Event>, k: nat)
    requires k <= |a|
    ensures a[..k] == (a + b)[..k]
    ensures (a + b)[k..] == a[k..] + b
  {
  }

  /** Delays appended after calls that had none: each added display gets one. */
  lemma {:induction false} TeardownCount(t: Trace, calls: Trace, added: seq<Display>, h: nat)
    requires t <= calls && forall e | e in calls[|t|..] :: !e.Sleep?
    requires Distinct(Handles(added))
    ensures t <= calls + Sleeps(added)
    ensures Occurrences(Event.Sleep(h), (calls + Sleeps(added))[|t|..]) == if h in Handles(added) then 1 else 0
  {
    var sleeps := Sleeps(added);
    var own := calls[|t|..];
    DropAppend(calls, sleeps, |t|);
    NoSleepOccurrences(h, own);
    OccurrencesAppend(Event.Sleep(h), own, sleeps);
    SleepsOnce(added, h);
  }

  /** A run that added a prefix of the located `ds`, sleeping no display on
      the way, gives each added display exactly one delay at teardown. */
  lemma {:induction false} TeardownOnce(t: Trace, located: Trace, run: Run, ds: seq<Display>, attached: seq<Display>, h: nat)
    requires t <= located && forall e | e in located[|t|..] :: !e.Sleep?
    requires located <= run.trace && forall e | e in run.trace[|located|..] :: !e.Sleep?
    requires AddedPrefix(run.added, ds) && Distinct(Handles(ds))
    requires forall x | x in Handles(ds) :: x in Handles(attached)
    ensures TearsDownOnce(t, run, attached, h)
  {
    PrefixDistinct(run.added, ds);
    NoSleepJoin(t, located, run.trace);
    TeardownCount(t, run.trace, run.added, h);
  }

  /** A run that stops before adding anything sleeps nothing. */
  lemma {:induction false} AbortedRun(t: Trace, located: Trace, e: Error, attached: seq<Display>, h: nat)
    requires t <= located && forall ev | ev in located[|t|..] :: !ev.Sleep?
    ensures TearsDownOnce(t, Run(located, [], Err(e)), attached, h)
  {
    assert located[|located|..] == [];
    TeardownOnce(t, located, Run(located, [], Err(e)), [], attached, h);
  }

  /** Teardown after `set` of `src` over the located displays. */
  lemma {:induction false} SetTeardown(o: Oracle, t: Trace, attached: seq<Display>, plan: QueryPlan, src: InputSource, h: nat)
    requires Distinct(Handles(attached))
    ensures var located := Displays(o, t, attached, plan.query, plan.needsCaps);
      TearsDownOnce(t, match located.result
                       case Err(e) => Run(located.trace, [], Err(e))
                       case Ok(ds) => SetLoop(o, located.trace, ds, src), attached, h)
  {
    var located := Displays(o, t, attached, plan.query, plan.needsCaps);
    LocatingSleepsNothing(o, t, attached, plan);
    if located.result.Err? {
      AbortedRun(t, located.trace, located.result.error, attached, h);
    } else {
      var ds := located.result.value;
      SetLoopEvents(o, located.trace, ds, src);
      SetLoopAdds(o, located.trace, ds, src);
      TeardownOnce(t, located.trace, SetLoop(o, located.trace, ds, src), ds, attached, h);
    }
  }

  /** Teardown after `toggle` between `a` and `b` over the located displays. */
  lemma {:induction false} ToggleTeardown(o: Oracle, t: Trace, attached: seq<Display>, plan: QueryPlan, a: InputSource, b: InputSource, h: nat)
    requires Distinct(Handles(attached))
    ensures var located := Displays(o, t, attached, plan.query, plan.needsCaps);
      TearsDownOnce(t, match located.result
                       case Err(e) => Run(located.trace, [], Err(e))
                       case Ok(ds) => ToggleLoop(o, located.trace, ds, a, b, None), attached, h)
  {
    var located := Displays(o, t, attached, plan.query, plan.needsCaps);
    LocatingSleepsNothing(o, t, attached, plan);
    if located.result.Err? {
      AbortedRun(t, located.trace, located.result.error, attached, h);
    } else {
      var ds := located.result.value;
      ToggleLoopNoSleep(o, located.trace, ds, a, b);
      ToggleLoopAdds(o, located.trace, ds, a, b);
      TeardownOnce(t, located.trace, ToggleLoop(o, located.trace, ds, a, b, None), ds, attached, h);
    }
  }

  /** On every exit path of an invocation, each display that was added to
      the teardown list receives exactly one delay in the final log and
      every other handle none; the added displays have distinct handles of
      attached displays. */
  lemma {:induction false} SessionSleepsOnce(o: Oracle, t: Trace, attached: seq<Display>, f: Filters, cmd: Command, h: nat)
    requires Distinct(Handles(attached))
    ensures var run := Session(o, t, attached, f, cmd);
      Distinct(Handles(run.added)) && (forall x | x in Handles(run.added) :: x in Handles(attached)) &&
      t <= run.trace + Sleeps(run.added) &&
      Occurrences(Event.Sleep(h), (run.trace + Sleeps(run.added))[|t|..]) == if h in Handles(run.added) then 1 else 0
  {
    var plan := BuildQuery(f);
    assert t[|t|..] == [];
    match cmd
    case Set(n) =>
      if FromName(n).None? {
        AbortedRun(t, t, UnknownInputName(n), attached, h);
      } else {
        SetTeardown(o, t, attached, plan, FromName(n).value, h);
      }
    case Toggle(n1, n2) =>
      if FromName(n1).None? {
        AbortedRun(t, t, UnknownInputName(n1), attached, h);
      } else if FromName(n2).None? {
        AbortedRun(t, t, UnknownInputName(n2), attached, h);
      } else {
        ToggleTeardown(o, t, attached, plan, FromName(n1).value, FromName(n2).value, h);
      }
  }

  /** A source name that is not one of the offered variant names aborts the
      command before any library call, with nothing to tear down. */
  lemma {:induction false} SessionRejectsUnknownNames(o: Oracle, t: Trace, attached: seq<Display>, f: Filters, cmd: Command)
    ensures var run := Session(o, t, attached, f, cmd);
      (cmd.Set? && cmd.input !in VariantNames() ==> run == Run(t, [], Err(UnknownInputName(cmd.input)))) &&
      (cmd.Toggle? && cmd.input1 !in VariantNames() ==> run == Run(t, [], Err(UnknownInputName(cmd.input1)))) &&
      (cmd.Toggle? && cmd.input1 in VariantNames() && cmd.input2 !in VariantNames() ==>
         run == Run(t, [], Err(UnknownInputName(cmd.input2))))
  {
    match cmd
    case Set(n) =>
      FromNameOffered(n);
    case Toggle(n1, n2) =>
      FromNameOffered(n1);
      FromNameOffered(n2);
  }

  /** Calls that only refresh, in front of a run that meets `WritesEach`,
      keep it met from their start. */
  lemma {:induction false} WritesFrom(o: Oracle, t: Trace, located: Trace, run: Run, src: InputSource)
    requires t <= located && forall e | e in located[|t|..] :: e.Refresh?
    requires WritesEach(o, located, run, src)
    ensures WritesEach(o, t, run, src)
  {
    assert run.trace[..|located|] == located;
    SuffixIn(run.trace, |t|, |located|);
    forall j | |t| <= j < |located| ensures run.trace[j].Refresh? {
      assert run.trace[j] == located[|t|..][j - |t|];
      assert located[|t|..][j - |t|] in located[|t|..];
    }
    forall e | e in run.trace[|t|..] && e.SetVcp? ensures exists d | d in run.added :: WriteOf(e, d, src) {
      var k :| 0 <= k < |run.trace[|t|..]| && run.trace[|t|..][k] == e;
      assert run.trace[k + |t|] == e;
      assert run.trace[|located|..][k + |t| - |located|] == e;
    }
  }

  /** `set` of a known name only refreshes, warns, and writes that source's
      code. It adds the first displays located, in order; each of them is
      sent the source (or warned about without the feature), no other
      display is written, and every rejected write is followed by a
      warning. A failed location ends it with nothing added. */
  lemma {:induction false} SetSessionWrites(o: Oracle, t: Trace, attached: seq<Display>, f: Filters, n: string, src: InputSource)
    requires FromName(n) == Some(src)
    ensures var plan := BuildQuery(f);
      var located := Displays(o, t, attached, plan.query, plan.needsCaps);
      var run := Session(o, t, attached, f, Set(n));
      t <= run.trace && (forall e | e in run.trace[|t|..] :: SetEvent(e, src)) &&
      WritesEach(o, t, run, src) &&
      (located.result.Err? ==> run == Run(located.trace, [], Err(located.result.error))) &&
      (located.result.Ok? ==> AddedPrefix(run.added, located.result.value))
  {
    var plan := BuildQuery(f);
    var located := Displays(o, t, attached, plan.query, plan.needsCaps);
    var refreshes := RefreshPlan(attached, plan.needsCaps);
    DisplaysRefreshes(o, t, attached, plan.query, plan.needsCaps);
    RefreshPlanRefreshes(attached, plan.needsCaps);
    forall e | e in located.trace[|t|..] ensures e.Refresh? {
      var i :| 0 <= i < |located.trace[|t|..]| && located.trace[|t|..][i] == e;
      assert refreshes[i] == e && refreshes[i] in refreshes;
    }
    if located.result.Ok? {
      var run := SetLoop(o, located.trace, located.result.value, src);
      SetLoopEvents(o, located.trace, located.result.value, src);
      SetLoopAdds(o, located.trace, located.result.value, src);
      SliceConcat(t, located.trace, run.trace);
      WritesFrom(o, t, located.trace, run, src);
    } else {
      var run := Run(located.trace, [], Err(located.result.error));
      NothingWritten(o, t, run, src);
    }
  }

  /** The query of `--mfg ACME --model U2720Q` forces a capability refresh
      and matches exactly the displays whose manufacturer id is ACME and
      whose model name is U2720Q. */
  lemma {:induction false} AcmeQuery(satisfies: (Filter, DisplayInfo) -> bool)
    ensures var plan := BuildQuery(Filters(None, None, Some("ACME"), Some("U2720Q"), None));
      plan.needsCaps &&
      forall info :: Matches(plan.query, info, satisfies) <==>
        satisfies(ManufacturerIdIs("ACME"), info) && satisfies(ModelNameIs("U2720Q"), info)
  {
    var f := Filters(None, None, Some("ACME"), Some("U2720Q"), None);
    forall info
      ensures Matches(BuildQuery(f).query, info, satisfies) <==>
        satisfies(ManufacturerIdIs("ACME"), info) && satisfies(ModelNameIs("U2720Q"), info)
    {
      BuildQueryMatches(f, info, satisfies);
    }
  }

  /** The worked example: `--mfg ACME --model U2720Q set Hdmi1` locates the
      displays its query matches among the enumerated ones as refreshed,
      adds the first of them in order, sends 0x11 to each display added,
      and writes nothing else. */
  lemma {:induction false} AcmeSetHdmi1(o: Oracle, t: Trace, attached: seq<Display>)
    ensures var f := Filters(None, None, Some("ACME"), Some("U2720Q"), None);
      var plan := BuildQuery(f);
      var located := Displays(o, t, attached, plan.query, plan.needsCaps);
      var run := Session(o, t, attached, f, Set("Hdmi1"));
      (located.result.Ok? ==>
         located.result.value == Matching(Probed(o, t, attached, true), plan.query, o.satisfies) &&
         AddedPrefix(run.added, located.result.value)) &&
      WritesEach(o, t, run, Hdmi1) &&
      t <= run.trace && forall e | e in run.trace[|t|..] && e.SetVcp? :: e.value == 0x11
  {
    var f := Filters(None, None, Some("ACME"), Some("U2720Q"), None);
    var plan := BuildQuery(f);
    assert plan.needsCaps;
    DisplaysProbed(o, t, attached, plan.query, true);
    FromNameName(Hdmi1);
    assert FromName("Hdmi1") == Some(Hdmi1);
    SetSessionWrites(o, t, attached, f, "Hdmi1", Hdmi1);
    var run := Session(o, t, attached, f, Set("Hdmi1"));
    assert Value(Hdmi1) == 0x11;
    assert forall e | e in run.trace[|t|..] :: SetEvent(e, Hdmi1);
  }
}
