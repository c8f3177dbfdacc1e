/** The `set` and `toggle` commands: locate the displays, act on each in
    order, and give every display acted on its delay at the end. */
module Commands {
  import opened Common
  import opened Library
  import opened InputSources
  import opened Queries
  import opened Locator
  import opened InputFeature
  import opened Teardown

  /** The subcommand and its input-source name arguments, as typed. */
  datatype Command = Set(input: string) | Toggle(input1: string, input2: string)

  /** A command's effect before teardown: the library calls made, the
      displays added for the final delay, and the outcome. */
  datatype Run = Run(trace: Trace, added: seq<Display>, result: Result<()>)

  /** `added` were added before the displays of `rest`. */
  function After(added: seq<Display>, rest: Run): Run {
    Run(rest.trace, added + rest.added, rest.result)
  }

  /** A failed write is only logged as a warning. */
  function WarnIfFailed(w: Step<()>, handle: nat): Trace {
    if w.result.Err? then w.trace + [Warned(handle)] else w.trace
  }

  /** One pass of the `set` loop body for the display with `handle`:
      refresh it (a failure aborts before the display is added), write the
      source, and warn on a failed write. */
  function SetVisit(o: Oracle, t: Trace, handle: nat, src: InputSource): (v: Step<Display>)
    ensures |t| < |v.trace| && v.trace[..|t| + 1] == t + [Refresh(handle)]
    ensures v.result.Ok? ==> v.result.value.handle == handle
  {
    var s := RefreshStep(o, t, handle);
    match s.result
    case Err(e) => Step(s.trace, Err(e))
    case Ok(info) =>
      var d := Display(handle, info);
      Step(WarnIfFailed(SetInputSourceStep(o, s.trace, d, src), handle), Ok(d))
  }

  /** The `set` loop over the located displays: visit each in order and add
      it; the first failed visit ends the loop with its error. */
  function SetLoop(o: Oracle, t: Trace, ds: seq<Display>, src: InputSource): (r: Run)
    ensures t <= r.trace && |r.added| <= |ds|
    decreases |ds|
  {
    if ds == [] then Run(t, [], Ok(()))
    else
      var v := SetVisit(o, t, ds[0].handle, src);
      match v.result
      case Err(e) => Run(v.trace, [], Err(e))
      case Ok(d) => After([d], SetLoop(o, v.trace, ds[1..], src))
  }

  /** The toggle target for display `d`: the one already decided, or else,
      from what `d` shows now, the other of the two options; a read failure
      or a source that is neither option is an error. */
  function Decide(o: Oracle, t: Trace, d: Display, first: InputSource, second: InputSource,
                  target: Option<InputSource>): (s: Step<InputSource>)
    ensures t <= s.trace
    ensures target.Some? ==> s == Step(t, Ok(target.value))
    ensures target.None? && s.result.Ok? ==> s.result.value == first || s.result.value == second
  {
    if target.Some? then Step(t, Ok(target.value))
    else
      var g := GetInputSourceStep(o, t, d);
      match g.result
      case Err(e) => Step(g.trace, Err(e))
      case Ok(current) =>
        if current == first then Step(g.trace, Ok(second))
        else if current == second then Step(g.trace, Ok(first))
        else Step(g.trace, Err(NotToggleOption))
  }

  /** One pass of the `toggle` loop body: refresh the display, decide the
      target if none is decided yet, write it, and warn on a failed write;
      the result is the refreshed display and the target. */
  function ToggleVisit(o: Oracle, t: Trace, handle: nat, first: InputSource, second: InputSource,
                       target: Option<InputSource>): (v: Step<(Display, InputSource)>)
    ensures |t| < |v.trace| && v.trace[..|t| + 1] == t + [Refresh(handle)]
    ensures v.result.Ok? ==> v.result.value.0.handle == handle && (target.Some? ==> v.result.value.1 == target.value)
  {
    var s := RefreshStep(o, t, handle);
    match s.result
    case Err(e) => Step(s.trace, Err(e))
    case Ok(info) =>
      var d := Display(handle, info);
      var decided := Decide(o, s.trace, d, first, second, target);
      match decided.result
      case Err(e) => Step(decided.trace, Err(e))
      case Ok(goal) => Step(WarnIfFailed(SetInputSourceStep(o, decided.trace, d, goal), handle), Ok((d, goal)))
  }

  /** The `toggle` loop: like the `set` loop, with the target decided once. */
  function ToggleLoop(o: Oracle, t: Trace, ds: seq<Display>, first: InputSource, second: InputSource,
                      target: Option<InputSource>): (r: Run)
    ensures t <= r.trace && |r.added| <= |ds|
    decreases |ds|
  {
    if ds == [] then Run(t, [], Ok(()))
    else
      var v := ToggleVisit(o, t, ds[0].handle, first, second, target);
      match v.result
      case Err(e) => Run(v.trace, [], Err(e))
      case Ok(visited) => After([visited.0], ToggleLoop(o, v.trace, ds[1..], first, second, Some(visited.1)))
  }

  /** Locate the displays with `plan`, then run `loop` over them. */
  function LocateThen(o: Oracle, t: Trace, attached: seq<Display>, plan: QueryPlan,
                      loop: (Trace, seq<Display>) -> Run): Run
  {
    var located := Displays(o, t, attached, plan.query, plan.needsCaps);
    match located.result
    case Err(e) => Run(located.trace, [], Err(e))
    case Ok(ds) => loop(located.trace, ds)
  }

  /** A command after the query is built: parse the names, then locate and loop. */
  function Perform(o: Oracle, t: Trace, attached: seq<Display>, plan: QueryPlan, cmd: Command): (r: Run)
    ensures t <= r.trace && |r.added| <= |attached|
  {
    match cmd
    case Set(n) =>
      (match FromName(n)
       case None => Run(t, [], Err(UnknownInputName(n)))
       case Some(src) => LocateThen(o, t, attached, plan, (t', ds) => SetLoop(o, t', ds, src)))
    case Toggle(n1, n2) =>
      (match FromName(n1)
       case None => Run(t, [], Err(UnknownInputName(n1)))
       case Some(a) =>
         match FromName(n2)
         case None => Run(t, [], Err(UnknownInputName(n2)))
         case Some(b) => LocateThen(o, t, attached, plan, (t', ds) => ToggleLoop(o, t', ds, a, b, None)))
  }

  /** One invocation, before teardown. */
  function Session(o: Oracle, t: Trace, attached: seq<Display>, f: Filters, cmd: Command): (r: Run)
    ensures t <= r.trace && |r.added| <= |attached|
  {
    Perform(o, t, attached, BuildQuery(f), cmd)
  }

  /** Run the `displays` pipeline against the library. */
  method Locate(host: Host, plan: QueryPlan) returns (r: Result<seq<Display>>)
    modifies host
    ensures Step(host.log, r) == Displays(host.oracle, old(host.log), host.attached, plan.query, plan.needsCaps)
  {
    var located := Displays(host.oracle, host.log, host.attached, plan.query, plan.needsCaps);
    host.log := located.trace;
    r := located.result;
  }

  /** The body of the `for` loop of `set`. */
  method SetOne(host: Host, handle: nat, src: InputSource) returns (r: Result<Display>)
    modifies host
    ensures Step(host.log, r) == SetVisit(host.oracle, old(host.log), handle, src)
  {
    var refreshed := host.UpdateCapabilities(handle);
    if refreshed.Err? {
      return Err(refreshed.error);
    }
    var display := Display(handle, refreshed.value);
    var written := SetInputSource(host, display, src);
    if written.Err? {
      host.Warn(handle);
    }
    r := Ok(display);
  }

  /** The `for` loop of `set`. */
  method SetEach(host: Host, sleep: DisplaySleep, ds: seq<Display>, src: InputSource) returns (r: Result<()>)
    modifies host, sleep
    ensures Run(host.log, sleep.added, r) == After(old(sleep.added), SetLoop(host.oracle, old(host.log), ds, src))
  {
    ghost var o := host.oracle;
    ghost var whole := After(sleep.added, SetLoop(o, host.log, ds, src));
    var i := 0;
    while i < |ds|
      invariant 0 <= i <= |ds|
      invariant whole == After(sleep.added, SetLoop(o, host.log, ds[i..], src))
    {
      ghost var t, added := host.log, sleep.added;
      var visited := SetOne(host, ds[i].handle, src);
      if visited.Err? {
        AfterNothing(added, host.log, Err(visited.error));
        return Err(visited.error);
      }
      assert ds[i..][1..] == ds[i + 1..];
      AfterAfter(added, [visited.value], SetLoop(o, host.log, ds[i + 1..], src));
      sleep.Add(visited.value);
      i := i + 1;
    }
    AfterNothing(sleep.added, host.log, Ok(()));
    r := Ok(());
  }

  lemma {:induction false} AfterNothing(added: seq<Display>, t: Trace, result: Result<()>)
    ensures After(added, Run(t, [], result)) == Run(t, added, result)
  {
    assert added + [] == added;
  }

  lemma {:induction false} AfterAfter(a: seq<Display>, b: seq<Display>, rest: Run)
    ensures After(a, After(b, rest)) == After(a + b, rest)
  {
    assert a + (b + rest.added) == (a + b) + rest.added;
  }

  /** The body of the `for` loop of `toggle`. */
  method ToggleOne(host: Host, handle: nat, first: InputSource, second: InputSource, target: Option<InputSource>)
    returns (r: Result<(Display, InputSource)>)
    modifies host
    ensures Step(host.log, r) == ToggleVisit(host.oracle, old(host.log), handle, first, second, target)
  {
    var refreshed := host.UpdateCapabilities(handle);
    if refreshed.Err? {
      return Err(refreshed.error);
    }
    var display := Display(handle, refreshed.value);
    var decided := DecideTarget(host, display, first, second, target);
    // The visit, unfolded over the decision just taken.
    assert ToggleVisit(host.oracle, old(host.log), handle, first, second, target) ==
      (match decided
       case Err(e) => Step(host.log, Err(e))
       case Ok(goal) => Step(WarnIfFailed(SetInputSourceStep(host.oracle, host.log, display, goal), handle), Ok((display, goal))));
    if decided.Err? {
      return Err(decided.error);
    }
    var written := SetInputSource(host, display, decided.value);
    if written.Err? {
      host.Warn(handle);
    }
    r := Ok((display, decided.value));
  }

  /** The `for` loop of `toggle`, with its write-once `target`. */
  method ToggleEach(host: Host, sleep: DisplaySleep, ds: seq<Display>, first: InputSource, second: InputSource)
    returns (r: Result<()>)
    modifies host, sleep
    ensures Run(host.log, sleep.added, r) ==
            After(old(sleep.added), ToggleLoop(host.oracle, old(host.log), ds, first, second, None))
  {
    ghost var o := host.oracle;
    ghost var whole := After(sleep.added, ToggleLoop(o, host.log, ds, first, second, None));
    var target: Option<InputSource> := None;
    var i := 0;
    while i < |ds|
      invariant 0 <= i <= |ds|
      invariant whole == After(sleep.added, ToggleLoop(o, host.log, ds[i..], first, second, target))
    {
      ghost var t, added := host.log, sleep.added;
      var visited := ToggleOne(host, ds[i].handle, first, second, target);
      if visited.Err? {
        AfterNothing(added, host.log, Err(visited.error));
        return Err(visited.error);
      }
      target := Some(visited.value.1);
      assert ds[i..][1..] == ds[i + 1..];
      AfterAfter(added, [visited.value.0], ToggleLoop(o, host.log, ds[i + 1..], first, second, target));
      sleep.Add(visited.value.0);
      i := i + 1;
    }
    AfterNothing(sleep.added, host.log, Ok(()));
    r := Ok(());
  }

  /** The `if target.is_none()` block: read the display's current source
      only while no target is decided. */
  method DecideTarget(host: Host, display: Display, first: InputSource, second: InputSource,
                      target: Option<InputSource>) returns (r: Result<InputSource>)
    modifies host
    ensures Step(host.log, r) == Decide(host.oracle, old(host.log), display, first, second, target)
  {
    if target.Some? {
      return Ok(target.value);
    }
    ghost var t := host.log;
    var current := GetInputSource(host, display);
    // Unfold the decision once, over the step just taken.
    ghost var g := GetInputSourceStep(host.oracle, t, display);
    assert Decide(host.oracle, t, display, first, second, target) ==
      (match g.result
       case Err(e) => Step(g.trace, Err(e))
       case Ok(c) =>
         if c == first then Step(g.trace, Ok(second))
         else if c == second then Step(g.trace, Ok(first))
         else Step(g.trace, Err(NotToggleOption)));
    if current.Err? {
      return Err(current.error);
    }
    if current.value == first {
      r := Ok(second);
    } else if current.value == second {
      r := Ok(first);
    } else {
      r := Err(NotToggleOption);
    }
  }

  /** The command after the query is built, adding to an empty `sleep`. */
  method Dispatch(host: Host, sleep: DisplaySleep, plan: QueryPlan, cmd: Command) returns (r: Result<()>)
    requires sleep.added == []
    modifies host, sleep
    ensures Run(host.log, sleep.added, r) == Perform(host.oracle, old(host.log), host.attached, plan, cmd)
  {
    ghost var o, t := host.oracle, host.log;
    ghost var found := Displays(o, t, host.attached, plan.query, plan.needsCaps);
    match cmd
    case Set(n) =>
      var src := FromName(n);
      if src.None? {
        return Err(UnknownInputName(n));
      }
      assert Perform(o, t, host.attached, plan, cmd) ==
        (match found.result
         case Err(e) => Run(found.trace, [], Err(e))
         case Ok(ds) => SetLoop(o, found.trace, ds, src.value));
      var located := Locate(host, plan);
      if located.Err? {
        return Err(located.error);
      }
      r := SetEach(host, sleep, located.value, src.value);
    case Toggle(n1, n2) =>
      var a := FromName(n1);
      if a.None? {
        return Err(UnknownInputName(n1));
      }
      var b := FromName(n2);
      if b.None? {
        return Err(UnknownInputName(n2));
      }
      assert Perform(o, t, host.attached, plan, cmd) ==
        (match found.result
         case Err(e) => Run(found.trace, [], Err(e))
         case Ok(ds) => ToggleLoop(o, found.trace, ds, a.value, b.value, None));
      var located := Locate(host, plan);
      if located.Err? {
        return Err(located.error);
      }
      r := ToggleEach(host, sleep, located.value, a.value, b.value);
  }

  /** `main` after argument parsing: build the query, run the command, and
      on every exit path drop the `DisplaySleep`, which gives each added
      display its delay after all other calls. */
  method Execute(host: Host, f: Filters, cmd: Command) returns (r: Result<()>)
    modifies host
    ensures var run := Session(host.oracle, old(host.log), host.attached, f, cmd);
      host.log == run.trace + Sleeps(run.added) && r == run.result
  {
    var query, needsCaps := ConstructQuery(f);
    var plan := QueryPlan(query, needsCaps);
    var sleep := new DisplaySleep();
    r := Dispatch(host, sleep, plan, cmd);
    sleep.Drop(host);
  }
}
