/** Building the display query from the command line's optional filters. */
module Queries {
  import opened Common
  import opened Library

  /** The filter values given on the command line, each present or absent.
      `backends` holds the (already parsed) repeated `--backend` values. */
  datatype Filters = Filters(
    backends: Option<seq<Backend>>,
    id: Option<string>,
    manufacturer: Option<string>,
    model: Option<string>,
    serial: Option<string>)

  /** The query handed to the display locator, with the flag saying whether
      capabilities must be refreshed before matching. */
  datatype QueryPlan = QueryPlan(query: Query, needsCaps: bool)

  predicate NoFilters(f: Filters) {
    f.backends.None? && f.id.None? && f.manufacturer.None? && f.model.None? && f.serial.None?
  }

  function BackendQueries(bs: seq<Backend>): (qs: seq<Query>)
    ensures |qs| == |bs|
    ensures forall i :: 0 <= i < |bs| ==> qs[i] == Where(BackendIs(bs[i]))
  {
    seq(|bs|, i requires 0 <= i < |bs| => Where(BackendIs(bs[i])))
  }

  /** Adds one more condition to the query built so far. */
  function Narrow(q: Query, condition: Query): Query {
    And([q, condition])
  }

  /** The query and refresh flag, built one filter at a time: start from
      `Any`, AND in the OR of the backends, then id, manufacturer, model and
      serial; only the model filter asks for a capability refresh. */
  function BuildQuery(f: Filters): (p: QueryPlan)
    ensures p.needsCaps <==> f.model.Some?
    ensures NoFilters(f) ==> p.query == Any
  {
    var q := Any;
    var q := if f.backends.Some? then Narrow(q, Or(BackendQueries(f.backends.value))) else q;
    var q := if f.id.Some? then Narrow(q, Where(IdIs(f.id.value))) else q;
    var q := if f.manufacturer.Some? then Narrow(q, Where(ManufacturerIdIs(f.manufacturer.value))) else q;
    var q, needsCaps := if f.model.Some? then Narrow(q, Where(ModelNameIs(f.model.value))) else q, f.model.Some?;
    var q := if f.serial.Some? then Narrow(q, Where(SerialNumberIs(f.serial.value))) else q;
    QueryPlan(q, needsCaps)
  }

  /** `main`'s construction: `query` and `needs_caps` reassigned as each
      present filter is seen. */
  method ConstructQuery(f: Filters) returns (query: Query, needsCaps: bool)
    ensures QueryPlan(query, needsCaps) == BuildQuery(f)
  {
    query := Any;
    needsCaps := false;
    if f.backends.Some? {
      query := Narrow(query, Or(BackendQueries(f.backends.value)));
    }
    if f.id.Some? {
      query := Narrow(query, Where(IdIs(f.id.value)));
    }
    if f.manufacturer.Some? {
      query := Narrow(query, Where(ManufacturerIdIs(f.manufacturer.value)));
    }
    if f.model.Some? {
      query := Narrow(query, Where(ModelNameIs(f.model.value)));
      needsCaps := true;
    }
    if f.serial.Some? {
      query := Narrow(query, Where(SerialNumberIs(f.serial.value)));
    }
  }

  /** The reference meaning of the filters: every present filter holds, and
      the backend filter holds when one of the listed backends does. */
  predicate Admits(f: Filters, info: DisplayInfo, satisfies: (Filter, DisplayInfo) -> bool) {
    (f.backends.Some? ==> exists b | b in f.backends.value :: satisfies(BackendIs(b), info)) &&
    (f.id.Some? ==> satisfies(IdIs(f.id.value), info)) &&
    (f.manufacturer.Some? ==> satisfies(ManufacturerIdIs(f.manufacturer.value), info)) &&
    (f.model.Some? ==> satisfies(ModelNameIs(f.model.value), info)) &&
    (f.serial.Some? ==> satisfies(SerialNumberIs(f.serial.value), info))
  }

  lemma {:induction false} NarrowMatches(q: Query, c: Query, info: DisplayInfo, satisfies: (Filter, DisplayInfo) -> bool)
    ensures Matches(Narrow(q, c), info, satisfies) <==> Matches(q, info, satisfies) && Matches(c, info, satisfies)
  {
    var parts := [q, c];
    assert Narrow(q, c) == And(parts);
    assert parts[0] == q && parts[1] == c;
    if Matches(q, info, satisfies) && Matches(c, info, satisfies) {
      assert forall i | 0 <= i < |parts| :: Matches(parts[i], info, satisfies);
    }
  }

  lemma {:induction false} BackendsMatch(bs: seq<Backend>, info: DisplayInfo, satisfies: (Filter, DisplayInfo) -> bool)
    ensures Matches(Or(BackendQueries(bs)), info, satisfies) <==> exists b | b in bs :: satisfies(BackendIs(b), info)
  {
    var qs := BackendQueries(bs);
    if exists b | b in bs :: satisfies(BackendIs(b), info) {
      var b :| b in bs && satisfies(BackendIs(b), info);
      var i :| 0 <= i < |bs| && bs[i] == b;
      assert Matches(qs[i], info, satisfies);
    }
    if Matches(Or(qs), info, satisfies) {
      var i :| 0 <= i < |qs| && Matches(qs[i], info, satisfies);
      assert bs[i] in bs;
    }
  }

  /** The built query matches a display exactly when every present filter
      does; with no filters it is `Any` and matches every display. */
  lemma {:induction false} BuildQueryMatches(f: Filters, info: DisplayInfo, satisfies: (Filter, DisplayInfo) -> bool)
    ensures Matches(BuildQuery(f).query, info, satisfies) <==> Admits(f, info, satisfies)
    ensures NoFilters(f) ==> Matches(BuildQuery(f).query, info, satisfies)
  {
    var q0 := Any;
    var q1 := if f.backends.Some? then Narrow(q0, Or(BackendQueries(f.backends.value))) else q0;
    var q2 := if f.id.Some? then Narrow(q1, Where(IdIs(f.id.value))) else q1;
    var q3 := if f.manufacturer.Some? then Narrow(q2, Where(ManufacturerIdIs(f.manufacturer.value))) else q2;
    var q4 := if f.model.Some? then Narrow(q3, Where(ModelNameIs(f.model.value))) else q3;
    var q5 := if f.serial.Some? then Narrow(q4, Where(SerialNumberIs(f.serial.value))) else q4;
    assert BuildQuery(f).query == q5;
    if f.backends.Some? {
      NarrowMatches(q0, Or(BackendQueries(f.backends.value)), info, satisfies);
      BackendsMatch(f.backends.value, info, satisfies);
    }
    if f.id.Some? { NarrowMatches(q1, Where(IdIs(f.id.value)), info, satisfies); }
    if f.manufacturer.Some? { NarrowMatches(q2, Where(ManufacturerIdIs(f.manufacturer.value)), info, satisfies); }
    if f.model.Some? { NarrowMatches(q3, Where(ModelNameIs(f.model.value)), info, satisfies); }
    if f.serial.Some? { NarrowMatches(q4, Where(SerialNumberIs(f.serial.value)), info, satisfies); }
  }
}
